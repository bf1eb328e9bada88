/** Drawing ballots: paxos/random.c and paxos/ballot_giver.c, with 32-bit unsigned arithmetic written out. */
module BallotGiver {
  import opened Types

  const TWO32: nat := 0x1_0000_0000
  const RAND_MAX: nat := 0x7FFF_FFFF

  type U32 = x: int | 0 <= x < TWO32

  function Wrap(x: int): U32 { x % TWO32 }

  /** How many results there are. */
  function Range(min: U32, max: U32): U32 { Wrap(1 + max - min) }

  /** How many draws lead to each result. */
  function Buckets(min: U32, max: U32): nat
    requires Range(min, max) > 0
  {
    RAND_MAX / Range(min, max)
  }

  /** Draws from here on are rejected. */
  function Limit(min: U32, max: U32): nat
    requires Range(min, max) > 0
  {
    Wrap(Buckets(min, max) * Range(min, max))
  }

  function Pick(min: U32, max: U32, r: nat): U32
    requires Range(min, max) > 0 && Buckets(min, max) > 0
  {
    Wrap(min + r / Buckets(min, max))
  }

  /** Redraw until a draw is accepted; nothing if none of the draws on offer is. */
  method RandomBetween(min: U32, max: U32, draws: seq<nat>) returns (x: Option<U32>)
    requires Range(min, max) > 0
    ensures x.None? <==> forall k | 0 <= k < |draws| :: draws[k] >= Limit(min, max)
    ensures x.Some? ==> Buckets(min, max) > 0 && exists k ::
      && 0 <= k < |draws| && draws[k] < Limit(min, max)
      && (forall j | 0 <= j < k :: draws[j] >= Limit(min, max))
      && x.value == Pick(min, max, draws[k])
  {
    LimitFits(min, max);
    var k := 0;
    while k < |draws| && draws[k] >= Limit(min, max)
      invariant k <= |draws|
      invariant forall j | 0 <= j < k :: draws[j] >= Limit(min, max)
    {
      k := k + 1;
    }
    if k == |draws| { return None; }
    x := Some(Pick(min, max, draws[k]));
  }

  /** The limit does not wrap, and is positive exactly when there are buckets. */
  lemma LimitFits(min: U32, max: U32)
    requires Range(min, max) > 0
    ensures Limit(min, max) == Buckets(min, max) * Range(min, max) <= RAND_MAX
    ensures Limit(min, max) > 0 <==> Buckets(min, max) > 0
  {
    var n := Range(min, max);
    var b := Buckets(min, max);
    assert RAND_MAX == n * b + RAND_MAX % n;
    assert b * n == n * b;
    if b > 0 { assert b * n >= n by { MulMono(1, b, n); } }
  }

  lemma MulMono(a: nat, b: nat, n: nat)
    requires a <= b
    ensures a * n <= b * n
  {}

  /** The draw ends the loop. */
  ghost predicate Accepts(min: U32, max: U32, r: nat) { Range(min, max) > 0 && r < Limit(min, max) }

  /** Some draw ends the loop exactly when the number of results is positive and at most RAND_MAX. */
  lemma TerminatesIff(min: U32, max: U32)
    ensures (exists r :: Accepts(min, max, r)) <==> 0 < Range(min, max) <= RAND_MAX
  {
    var n := Range(min, max);
    if n > 0 {
      LimitFits(min, max);
      BucketsPositiveIff(n);
      if n <= RAND_MAX { assert Accepts(min, max, 0); }
    }
  }

  lemma BucketsPositiveIff(n: nat)
    requires n > 0
    ensures RAND_MAX / n > 0 <==> n <= RAND_MAX
  {
    var b := RAND_MAX / n;
    assert RAND_MAX == n * b + RAND_MAX % n;
  }

  /** The division is by zero exactly for the interval that wraps to nothing. */
  lemma DividesByZeroIff(min: U32, max: U32)
    ensures Range(min, max) == 0 <==> min == Wrap(max + 1)
  {}

  /** An interval that does not wrap and is short enough. */
  ghost predicate Usable(min: U32, max: U32) { min <= max && max - min + 1 <= RAND_MAX }

  lemma UsableParts(min: U32, max: U32)
    requires Usable(min, max)
    ensures Range(min, max) == 1 + max - min && Buckets(min, max) > 0
    ensures Limit(min, max) == Buckets(min, max) * (1 + max - min)
  {
    assert Range(min, max) == 1 + max - min;
    BucketsPositiveIff(1 + max - min);
    LimitFits(min, max);
  }

  lemma QuotientBelow(r: nat, b: nat, n: nat)
    requires b > 0 && r < b * n
    ensures 0 <= r / b < n && b * (r / b) <= r < b * (r / b) + b
  {
    var q := r / b;
    assert r == b * q + r % b;
    NotNegative(q, b, r);
    assert n * b == b * n && q * b == b * q;
    MulCancel(q, n, b);
  }

  lemma NotNegative(q: int, b: nat, r: nat)
    requires b > 0 && r < b * q + b
    ensures q >= 0
  {
    if q < 0 { MulNegative(q, b); }
  }

  lemma MulNegative(q: int, b: nat)
    requires q < 0
    ensures b * q + b <= 0
  {
    MulMono(1, -q, b);
    assert (-q) * b == -(b * q);
  }

  lemma WrapSmall(x: int)
    requires 0 <= x < TWO32
    ensures Wrap(x) == x
  {}

  lemma MulCancel(q: nat, n: nat, b: nat)
    requires q * b < n * b
    ensures q < n
  {
    if q >= n { MulMono(n, q, b); }
  }

  lemma PickInRange(min: U32, max: U32, r: nat)
    requires Usable(min, max) && Accepts(min, max, r)
    ensures Buckets(min, max) > 0 && min <= Pick(min, max, r) <= max
  {
    UsableParts(min, max);
    QuotientBelow(r, Buckets(min, max), 1 + max - min);
    PickIs(min, max, r);
  }

  /** The draws that lead to a given result form one block of equal length for every result, so every result in the
      interval is equally likely and no other occurs. */
  lemma EquallyLikely(min: U32, max: U32, r: nat, x: int)
    requires Usable(min, max) && Accepts(min, max, r)
    ensures Buckets(min, max) > 0 && min <= Pick(min, max, r) <= max
    ensures min <= x <= max ==>
      var b := Buckets(min, max); Pick(min, max, r) == x <==> (x - min) * b <= r < (x - min) * b + b
  {
    if min <= x <= max {
      var d: nat := x - min;
      PickBlock(min, max, r, d);
    }
    PickInRange(min, max, r);
  }

  lemma PickBlock(min: U32, max: U32, r: nat, d: nat)
    requires Usable(min, max) && Accepts(min, max, r)
    ensures Buckets(min, max) > 0
    ensures Pick(min, max, r) == min + d <==> d * Buckets(min, max) <= r < d * Buckets(min, max) + Buckets(min, max)
  {
    UsableParts(min, max);
    var b := Buckets(min, max);
    QuotientBelow(r, b, 1 + max - min);
    PickIs(min, max, r);
    Block(r / b, d, b, r);
  }

  lemma PickIs(min: U32, max: U32, r: nat)
    requires Range(min, max) > 0 && Buckets(min, max) > 0 && 0 <= r / Buckets(min, max) <= max - min
    ensures Pick(min, max, r) == min + r / Buckets(min, max)
  {
    WrapSmall(min + r / Buckets(min, max));
  }

  lemma Block(q: nat, d: nat, b: nat, r: nat)
    requires b > 0 && r < b * q + b && r >= b * q
    ensures q == d <==> d * b <= r < d * b + b
  {
    assert b * q == q * b;
    if q < d {
      MulMono(q + 1, d, b);
      assert (q + 1) * b == q * b + b;
    } else if d < q {
      MulMono(d + 1, q, b);
      assert (d + 1) * b == d * b + b;
    }
  }

  /** x can be the result of a draw. */
  ghost predicate Drawn(min: U32, max: U32, x: U32) {
    exists r :: Accepts(min, max, r) && Buckets(min, max) > 0 && Pick(min, max, r) == x
  }

  lemma DrawnInRange(min: U32, max: U32, x: U32)
    requires Usable(min, max) && Drawn(min, max, x)
    ensures min <= x <= max
  {
    var r :| Accepts(min, max, r) && Buckets(min, max) > 0 && Pick(min, max, r) == x;
    PickInRange(min, max, r);
  }

  /** Every block lies below the limit. */
  lemma BlockFits(min: U32, max: U32, x: int)
    requires Usable(min, max) && min <= x <= max
    ensures Range(min, max) > 0
    ensures var b := Buckets(min, max); (x - min) * b + b <= Limit(min, max)
  {
    UsableParts(min, max);
    var b, d := Buckets(min, max), x - min;
    MulMono(d + 1, 1 + max - min, b);
    assert (d + 1) * b == d * b + b && b * (1 + max - min) == (1 + max - min) * b;
  }

  // ---------------------------------------------------------------- ballots

  function Low(id: U32, previous: U32): U32 { Wrap(previous + 1 + id) }

  function High(increment: U32, previous: U32): U32 { Wrap(previous + increment + 1) }

  /** b is what the giver of proposer id can hand out after `previous`, for some accepted draw. */
  ghost predicate IsNext(id: U32, increment: U32, previous: U32, b: Ballot) {
    && b.proposer == id
    && exists x: U32 :: Drawn(Low(id, previous), High(increment, previous), x) && b.number == Wrap(x - id)
  }

  /** Nothing wraps and the interval is short enough to draw from. */
  ghost predicate Fits(id: U32, increment: U32, previous: U32) {
    previous + increment + 1 < TWO32 && previous + 1 + id < TWO32 && increment - id + 1 <= RAND_MAX && id <= RAND_MAX
  }

  /** A proposer whose identifier is at most the increment gets a number in
      [previous + 1, previous + increment + 1 - id]. */
  lemma NextInRange(id: U32, increment: U32, previous: U32, b: Ballot)
    requires Fits(id, increment, previous) && id <= increment && IsNext(id, increment, previous, b)
    ensures previous + 1 <= b.number <= previous + increment + 1 - id
  {
    var min, max := Low(id, previous), High(increment, previous);
    FitsUsable(id, increment, previous);
    var x: U32 :| Drawn(min, max, x) && b.number == Wrap(x - id);
    DrawnInRange(min, max, x);
    Unshift(previous, id, increment, x);
  }

  lemma FitsUsable(id: U32, increment: U32, previous: U32)
    requires Fits(id, increment, previous) && id <= increment
    ensures Usable(Low(id, previous), High(increment, previous))
  {}

  lemma Unshift(previous: U32, id: U32, increment: U32, x: U32)
    requires Fits(id, increment, previous) && Low(id, previous) <= x <= High(increment, previous)
    ensures previous + 1 <= Wrap(x - id) <= previous + increment + 1 - id
  {}

  /** Without overflow a ballot can be drawn exactly when the identifier is at most the increment. */
  lemma NextDefinedIff(id: U32, increment: U32, previous: U32)
    requires Fits(id, increment, previous)
    ensures (exists r :: Accepts(Low(id, previous), High(increment, previous), r)) <==> id <= increment
  {
    FitsRange(id, increment, previous);
    TerminatesIff(Low(id, previous), High(increment, previous));
  }

  lemma FitsRange(id: U32, increment: U32, previous: U32)
    requires Fits(id, increment, previous)
    ensures 0 < Range(Low(id, previous), High(increment, previous)) <= RAND_MAX <==> id <= increment
  {}

  /** A chain of preemptions: each ballot was drawn after one that was preempted by a ballot at least as high. */
  ghost predicate Chain(bs: seq<Ballot>, preemptors: seq<Ballot>, id: U32, increment: U32) {
    && |preemptors| == |bs|
    && (forall k | 0 <= k < |bs| :: bs[k].proposer == id)
    && (forall k | 0 < k < |bs| :: Follows(bs[k - 1], preemptors[k - 1], bs[k], id, increment))
  }

  ghost predicate Follows(b: Ballot, preemptor: Ballot, b': Ballot, id: U32, increment: U32) {
    && BallotGe(preemptor, b)
    && preemptor.number < TWO32 && Fits(id, increment, preemptor.number)
    && IsNext(id, increment, preemptor.number, b')
  }

  /** Over any chain of preemptions a proposer's ballots strictly rise. */
  lemma {:induction false} ChainRises(bs: seq<Ballot>, preemptors: seq<Ballot>, id: U32, increment: U32, j: nat, k: nat)
    requires id <= increment && Chain(bs, preemptors, id, increment) && j < k < |bs|
    ensures bs[j].number < bs[k].number
    decreases k - j
  {
    assert Follows(bs[k - 1], preemptors[k - 1], bs[k], id, increment);
    NextInRange(id, increment, preemptors[k - 1].number, bs[k]);
    if j < k - 1 { ChainRises(bs, preemptors, id, increment, j, k - 1); }
  }

  /** Two proposers never hold the same ballot, and no proposer holds one twice. */
  lemma NoCollisions(bs: seq<Ballot>, ps: seq<Ballot>, id: U32, bs': seq<Ballot>, ps': seq<Ballot>, id': U32,
                     increment: U32, j: nat, k: nat)
    requires id <= increment && id' <= increment
    requires Chain(bs, ps, id, increment) && Chain(bs', ps', id', increment)
    requires j < |bs| && k < |bs'|
    requires id == id' ==> bs == bs' && ps == ps' && j != k
    ensures bs[j] != bs'[k]
  {
    if id == id' {
      if j < k { ChainRises(bs, ps, id, increment, j, k); } else { ChainRises(bs, ps, id, increment, k, j); }
    }
  }
}
