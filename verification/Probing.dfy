/** The triangular probe sequence of paxos/include/khash.h over a power-of-two number of buckets. */
module Probing {
  import opened Sets

  ghost predicate IsPow2(n: nat) {
    n == 1 || (n > 1 && n % 2 == 0 && IsPow2(n / 2))
  }

  /** 0, 1, 3, 6, 10, ... : the distance covered after s probes. */
  function Tri(s: nat): nat {
    if s == 0 then 0 else Tri(s - 1) + s
  }

  /** The bucket looked at after s steps from hash h. */
  function Probe(h: nat, s: nat, n: nat): (i: nat)
    requires n > 0
    ensures i < n
  {
    (h + Tri(s)) % n
  }

  /** Each step moves on by one more bucket than the step before. */
  lemma ProbeStep(h: nat, s: nat, n: nat)
    requires n > 0
    ensures Probe(h, s + 1, n) == (Probe(h, s, n) + (s + 1)) % n
  {
    var x := h + Tri(s);
    assert x == n * (x / n) + x % n;
    ModShift(x % n + (s + 1), x / n, n);
  }

  lemma ModShift(x: int, q: int, n: nat)
    requires n > 0
    ensures (x + n * q) % n == x % n
  {
    var y := x + n * q;
    assert y == n * (x / n + q) + x % n;
    ModUnique(y, x / n + q, x % n, n);
  }

  lemma ModUnique(y: int, q: int, r: int, n: nat)
    requires n > 0 && 0 <= r < n && y == n * q + r
    ensures y % n == r
  {
    var q', r' := y / n, y % n;
    assert n * (q - q') == r' - r;
    if q > q' { Grow(n, q - q'); } else if q < q' { Grow(n, q' - q); }
  }

  lemma Grow(n: nat, k: int)
    requires k >= 1
    ensures n * k >= n
  {}

  lemma {:induction false} TriDouble(s: nat)
    ensures 2 * Tri(s) == s * (s + 1)
  {
    if s > 0 { TriDouble(s - 1); }
  }

  /** Halving a factor and the divisor. */
  lemma HalveBoth(m: nat, a: int, b: int)
    requires m > 0 && ((2 * a) * b) % (2 * m) == 0
    ensures (a * b) % m == 0
  {
    var k := ((2 * a) * b) / (2 * m);
    assert (2 * a) * b == (2 * m) * k;
    assert (2 * a) * b == 2 * (a * b) && (2 * m) * k == 2 * (m * k);
    ModUnique(a * b, k, 0, m);
  }

  lemma DoubleBoth(m: nat, a: int)
    requires m > 0 && a % m == 0
    ensures (2 * a) % (2 * m) == 0
  {
    var k := a / m;
    assert a == m * k;
    assert 2 * a == (2 * m) * k;
    ModUnique(2 * a, k, 0, 2 * m);
  }

  lemma DividesEven(m: nat, x: int)
    requires m > 0 && x % (2 * m) == 0
    ensures x % 2 == 0
  {
    var k := x / (2 * m);
    assert x == (2 * m) * k;
    assert (2 * m) * k == 2 * (m * k);
  }

  /** A power of two that divides a product with one odd factor divides the other factor. */
  lemma {:induction false} OddFactor(m: nat, a: int, b: int)
    requires IsPow2(m) && (a * b) % m == 0 && b % 2 == 1
    ensures a % m == 0
  {
    if m > 1 {
      var m', a' := m / 2, a / 2;
      DividesEven(m', a * b);
      EvenProduct(a, b);
      HalveBoth(m', a', b);
      OddFactor(m', a', b);
      DoubleBoth(m', a');
    }
  }

  lemma OddProduct(a: int, b: int)
    requires a % 2 == 1 && b % 2 == 1
    ensures (a * b) % 2 == 1
  {
    var x, y := a / 2, b / 2;
    assert a * b == 2 * (2 * x * y + x + y) + 1;
  }

  lemma EvenProduct(a: int, b: int)
    requires (a * b) % 2 == 0 && b % 2 == 1
    ensures a % 2 == 0
  {
    if a % 2 == 1 { OddProduct(a, b); }
  }

  lemma SmallNotDivisible(m: nat, a: nat)
    requires 0 < a < m
    ensures a % m != 0
  {}

  /** Two small factors, one odd and one even, do not multiply to a multiple of a power of two. */
  lemma NotDivisible(m: nat, a: nat, b: nat)
    requires IsPow2(m) && 0 < a < m && 0 < b < m && (a + b) % 2 == 1
    ensures (a * b) % m != 0
  {
    if b % 2 == 1 {
      SmallNotDivisible(m, a);
      OddFactorNot(m, a, b);
    } else {
      SmallNotDivisible(m, b);
      OddFactorNot(m, b, a);
      assert a * b == b * a;
    }
  }

  lemma OddFactorNot(m: nat, a: int, b: int)
    requires IsPow2(m) && a % m != 0 && b % 2 == 1
    ensures (a * b) % m != 0
  {
    if (a * b) % m == 0 { OddFactor(m, a, b); }
  }

  lemma TriGap(s: nat, t: nat)
    requires s < t
    ensures 2 * (Tri(t) - Tri(s)) == (t - s) * (t + s + 1)
  {
    TriDouble(s);
    TriDouble(t);
  }

  lemma SameBucket(x: nat, y: nat, n: nat)
    requires n > 0 && x % n == y % n
    ensures (2 * (y - x)) % (2 * n) == 0
  {
    var d := y / n - x / n;
    assert y - x == n * d;
    ModUnique(2 * (y - x), d, 0, 2 * n);
  }

  /** The first n probes never look at a bucket twice. */
  lemma ProbesDiffer(h: nat, s: nat, t: nat, n: nat)
    requires IsPow2(n) && s < t < n
    ensures Probe(h, s, n) != Probe(h, t, n)
  {
    assert (2 * n) % 2 == 0 && (2 * n) / 2 == n && IsPow2(2 * n);
    TriGap(s, t);
    NotDivisible(2 * n, t - s, t + s + 1);
    if Probe(h, s, n) == Probe(h, t, n) { SameBucket(h + Tri(s), h + Tri(t), n); }
  }

  /** The buckets looked at in the first s steps. */
  ghost function Visited(h: nat, s: nat, n: nat): set<nat>
    requires n > 0
  {
    set t: nat | t < s :: Probe(h, t, n)
  }

  lemma {:induction false} VisitedSize(h: nat, s: nat, n: nat)
    requires IsPow2(n) && s <= n
    ensures |Visited(h, s, n)| == s
  {
    if s > 0 {
      VisitedSize(h, s - 1, n);
      var x := Probe(h, s - 1, n);
      forall t: nat | t < s - 1 ensures Probe(h, t, n) != x { ProbesDiffer(h, t, s - 1, n); }
      assert Visited(h, s, n) == Visited(h, s - 1, n) + {x};
    } else {
      assert Visited(h, s, n) == {};
    }
  }

  ghost function Below(n: nat): (s: set<nat>)
    ensures forall i: nat :: i in s <==> i < n
    ensures |s| == n
  {
    if n == 0 then {} else Below(n - 1) + {n - 1}
  }

  /** The first n probes look at every bucket. */
  lemma ProbesCover(h: nat, j: nat, n: nat) returns (s: nat)
    requires IsPow2(n) && j < n
    ensures s < n && Probe(h, s, n) == j
  {
    VisitedSize(h, n, n);
    SubsetOfSameSize(Visited(h, n, n), Below(n));
    assert j in Visited(h, n, n);
    s :| s < n && Probe(h, s, n) == j;
  }

  /** The walk is back where it began after 2n - 1 steps. */
  lemma FullCircle(h: nat, n: nat)
    requires n > 0
    ensures Probe(h, 2 * n - 1, n) == Probe(h, 0, n)
  {
    TriDouble(2 * n - 1);
    assert Tri(2 * n - 1) == n * (2 * n - 1);
    ModShift(h, 2 * n - 1, n);
  }

  /** Rounding a size up to a power of two. */
  ghost predicate IsRoundUp(x: nat, p: nat) {
    IsPow2(p) && p >= x && (p > 1 ==> p < 2 * x)
  }

  function RoundUp(x: nat): (p: nat)
    ensures IsRoundUp(x, p)
  {
    if x <= 1 then 1 else 2 * RoundUp((x + 1) / 2)
  }

  // ---------------------------------------------------------------- rounding up, as 32-bit code

  /** The bit trick of kroundup32. */
  function RoundUpBits(x: bv32): bv32 {
    var a := x - 1;
    var b := a | (a >> 1);
    var c := b | (b >> 2);
    var d := c | (c >> 4);
    var e := d | (d >> 8);
    (e | (e >> 16)) + 1
  }

  /** The number that 32 bits stand for. */
  function Number(x: bv32): (n: nat) {
    if x == 0 then 0 else 2 * Number(x >> 1) + if x & 1 == 1 then 1 else 0
  }

  lemma NumberUnfolds(x: bv32, half: bv32, odd: bool)
    requires half == x >> 1 && odd == (x & 1 == 1)
    ensures Number(x) == 2 * Number(half) + if odd then 1 else 0
  {}

  lemma EvenBits(x: bv32, z: bv32)
    requires x & 1 == 0 && z == x + 1
    ensures z != 0 && z & 1 == 1 && z >> 1 == x >> 1
  {}

  lemma OddBits(x: bv32, z: bv32)
    requires x & 1 == 1 && z == x + 1 && z != 0
    ensures z & 1 == 0 && z >> 1 == (x >> 1) + 1
  {}

  lemma EvenPlusOne(x: bv32, y: bv32, z: bv32)
    requires x & 1 == 0 && y == x >> 1 && z == x + 1
    ensures Number(z) == Number(x) + 1
  {
    EvenBits(x, z);
    NumberUnfolds(z, y, true);
    NumberUnfolds(x, y, false);
  }

  /** The carry moves on to the next bit. */
  lemma OddPlusOne(x: bv32, y: bv32, z: bv32)
    requires x & 1 == 1 && y == x >> 1 && z == x + 1 && z != 0 && Number(y + 1) == Number(y) + 1
    ensures Number(z) == Number(x) + 1
  {
    OddBits(x, z);
    NumberUnfolds(z, y + 1, false);
    NumberUnfolds(x, y, true);
  }

  lemma HalfIsLess(x: bv32, y: bv32)
    requires x & 1 == 1 && y == x >> 1
    ensures y < x && y < 0xFFFF_FFFF
  {}

  lemma {:induction false} NumberPlusOne(x: bv32)
    requires x < 0xFFFF_FFFF
    ensures Number(x + 1) == Number(x) + 1
    decreases x
  {
    if x & 1 == 1 {
      var y := x >> 1;
      HalfIsLess(x, y);
      NumberPlusOne(y);
      OddPlusOne(x, y, x + 1);
    } else {
      EvenPlusOne(x, x >> 1, x + 1);
    }
  }

  lemma NumberTwice(x: bv32)
    requires x <= 0x4000_0000
    ensures Number(x << 1) == 2 * Number(x)
  {
    assert (x << 1) & 1 == 0 && (x << 1) >> 1 == x;
    assert x << 1 == 0 ==> x == 0;
  }

  lemma NumberHalf(x: bv32)
    ensures Number(x >> 1) == Number(x) / 2
  {}

  lemma RoundUpBitsHalf(x: bv32)
    requires 1 < x <= 0x8000_0000
    ensures RoundUpBits(x) == RoundUpBits((x + 1) >> 1) << 1
    ensures RoundUpBits((x + 1) >> 1) <= 0x4000_0000
  {}

  lemma HalfUp(x: bv32)
    requires 1 < x <= 0x8000_0000
    ensures 1 <= (x + 1) >> 1 < x
  {}

  lemma NumberPositive(x: bv32)
    requires x > 1
    ensures Number(x) > 1
  {}

  lemma NumberOfFour()
    ensures Number(4) == 4
  {}

  lemma RoundUpBitsOfOne()
    ensures RoundUpBits(1) == 1 && Number(1) == 1
  {}

  /** Up to 2^31 the bit trick rounds up to a power of two. */
  lemma {:induction false} RoundUpBitsRounds(x: bv32)
    requires 1 <= x <= 0x8000_0000
    ensures Number(RoundUpBits(x)) == RoundUp(Number(x))
    decreases x
  {
    if x == 1 {
      RoundUpBitsOfOne();
    } else {
      HalfUp(x);
      RoundUpBitsRounds((x + 1) >> 1);
      RoundUpBitsTwice(x);
      HalvesUp(x);
    }
  }

  lemma RoundUpBitsTwice(x: bv32)
    requires 1 < x <= 0x8000_0000
    ensures Number(RoundUpBits(x)) == 2 * Number(RoundUpBits((x + 1) >> 1))
  {
    RoundUpBitsHalf(x);
    NumberTwice(RoundUpBits((x + 1) >> 1));
  }

  lemma HalvesUp(x: bv32)
    requires 1 < x <= 0x8000_0000
    ensures Number((x + 1) >> 1) == (Number(x) + 1) / 2 && Number(x) > 1
  {
    NumberPlusOne(x);
    NumberHalf(x + 1);
    NumberPositive(x);
  }

  lemma NumberAtLeastFour(x: bv32)
    ensures x < 4 <==> Number(x) < 4
  {
    if x >= 4 { HalfOfFour(x, x >> 1); } else { NumberUnfolds(x, x >> 1, x & 1 == 1); }
  }

  lemma HalfOfFour(x: bv32, y: bv32)
    requires x >= 4 && y == x >> 1
    ensures Number(x) >= 4
  {
    assert y > 1;
    NumberPositive(y);
    NumberUnfolds(x, y, x & 1 == 1);
  }

  lemma NumberAboveFour(x: bv32, y: bv32)
    requires x > 0x8000_0000 && y == x >> 1
    ensures Number(x) > 4
  {
    assert y >= 4;
    NumberAtLeastFour(y);
    NumberUnfolds(x, y, x & 1 == 1);
  }

  lemma RoundUpBitsEdges(x: bv32)
    requires x == 0 || x > 0x8000_0000
    ensures RoundUpBits(x) == 0
  {}
}
