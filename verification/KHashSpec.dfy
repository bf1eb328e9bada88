/** What the arrays of an open-addressing table mean, and what every kind of write to them keeps.
    A bucket is Live (holds a binding), Deleted (skipped by searches) or Empty (ends them). */
module KHashSpec {
  import opened Types
  import opened Probing

  datatype Flag = Empty | Deleted | Live

  type Key = nat

  /** Empty does not occur among the first s buckets of the search from hash h. */
  ghost predicate Reached(flags: seq<Flag>, h: nat, s: nat)
    requires |flags| > 0
  {
    forall t: nat | t < s :: flags[Probe(h, t, |flags|)] != Empty
  }

  /** A search from hash h gets to bucket j. */
  ghost predicate Placed(flags: seq<Flag>, h: nat, j: nat)
    requires |flags| > 0
  {
    exists s: nat :: Probe(h, s, |flags|) == j && Reached(flags, h, s)
  }

  ghost predicate IsLive(flags: seq<Flag>, j: nat) { j < |flags| && flags[j] == Live }

  ghost function LiveSet(flags: seq<Flag>): set<nat> { set j: nat | j < |flags| && flags[j] == Live }

  ghost function OccupiedSet(flags: seq<Flag>): set<nat> { set j: nat | j < |flags| && flags[j] != Empty }

  /** The live buckets hold exactly the bindings of m, one bucket each, each where searches find it. */
  ghost predicate Represents<V>(hash: Key -> nat, flags: seq<Flag>, keys: seq<Key>, vals: seq<V>, m: map<Key, V>) {
    && |flags| <= |keys| == |vals|
    && (forall j: nat {:trigger IsLive(flags, j)} | IsLive(flags, j) ::
          keys[j] in m && m[keys[j]] == vals[j] && Placed(flags, hash(keys[j]), j))
    && (forall i: nat, j: nat {:trigger IsLive(flags, i), IsLive(flags, j)} |
          i < j && IsLive(flags, i) && IsLive(flags, j) :: keys[i] != keys[j])
    && (forall k {:trigger k in m} | k in m ::
          exists j: nat {:trigger IsLive(flags, j)} :: IsLive(flags, j) && keys[j] == k)
  }

  lemma PlacedGrows(flags: seq<Flag>, flags': seq<Flag>, h: nat, j: nat)
    requires |flags| == |flags'| > 0 && Placed(flags, h, j)
    requires forall i: nat | i < |flags| && flags[i] != Empty :: flags'[i] != Empty
    ensures Placed(flags', h, j)
  {
    var s: nat :| Probe(h, s, |flags|) == j && Reached(flags, h, s);
    assert Reached(flags', h, s);
  }

  lemma LiveDiffer<V>(hash: Key -> nat, flags: seq<Flag>, keys: seq<Key>, vals: seq<V>, m: map<Key, V>, i: nat, j: nat)
    requires Represents(hash, flags, keys, vals, m) && IsLive(flags, i) && IsLive(flags, j) && i != j
    ensures keys[i] != keys[j]
  {
    if i < j { assert IsLive(flags, i) && IsLive(flags, j); } else { assert IsLive(flags, j) && IsLive(flags, i); }
  }

  /** Where an unsuccessful search ends, the key is nowhere in the table. */
  lemma SearchEnds<V>(hash: Key -> nat, flags: seq<Flag>, keys: seq<Key>, vals: seq<V>,
        m: map<Key, V>, key: Key, s: nat)
    requires |flags| > 0 && Represents(hash, flags, keys, vals, m)
    requires forall t: nat | t < s ::
      !(flags[Probe(hash(key), t, |flags|)] == Live && keys[Probe(hash(key), t, |flags|)] == key)
    requires flags[Probe(hash(key), s, |flags|)] == Empty
    ensures key !in m
  {
    forall j: nat | IsLive(flags, j) ensures keys[j] != key {
      assert Placed(flags, hash(keys[j]), j);
      var t: nat :| Probe(hash(keys[j]), t, |flags|) == j && Reached(flags, hash(keys[j]), t);
    }
  }

  /** A search that came full circle has looked at every bucket. */
  lemma CircleIsEverything(h: nat, s: nat, n: nat, j: nat) returns (t: nat)
    requires IsPow2(n) && s > 0 && Probe(h, s, n) == Probe(h, 0, n) && j < n
    ensures t < s && Probe(h, t, n) == j
  {
    if s < n { ProbesDiffer(h, 0, s, n); }
    t := ProbesCover(h, j, n);
  }

  /** The first s buckets of the search for a key are not empty and do not hold it. */
  ghost predicate Passed(flags: seq<Flag>, keys: seq<Key>, key: Key, h: nat, s: nat)
    requires 0 < |flags| <= |keys|
  {
    forall t: nat | t < s ::
      var i := Probe(h, t, |flags|); flags[i] != Empty && !(flags[i] == Live && keys[i] == key)
  }

  /** The search for a key has ended without finding it: at an empty bucket or after a full circle. */
  ghost predicate Exhausted(flags: seq<Flag>, keys: seq<Key>, key: Key, h: nat, s: nat)
    requires 0 < |flags| <= |keys|
  {
    && Passed(flags, keys, key, h, s)
    && (flags[Probe(h, s, |flags|)] == Empty || (s > 0 && Probe(h, s, |flags|) == Probe(h, 0, |flags|)))
  }

  lemma ExhaustedMeansAbsent<V>(hash: Key -> nat, flags: seq<Flag>, keys: seq<Key>, vals: seq<V>, m: map<Key, V>,
        key: Key, s: nat)
    requires IsPow2(|flags|) && Represents(hash, flags, keys, vals, m) && Exhausted(flags, keys, key, hash(key), s)
    ensures key !in m
  {
    if flags[Probe(hash(key), s, |flags|)] == Empty {
      SearchEnds(hash, flags, keys, vals, m, key, s);
    } else {
      forall j: nat | IsLive(flags, j) ensures keys[j] != key {
        var t := CircleIsEverything(hash(key), s, |flags|, j);
      }
    }
  }

  lemma PassedReaches(flags: seq<Flag>, keys: seq<Key>, key: Key, h: nat, s: nat, t: nat)
    requires 0 < |flags| <= |keys| && Passed(flags, keys, key, h, s) && t <= s
    ensures Placed(flags, h, Probe(h, t, |flags|))
  {
    assert Reached(flags, h, t);
  }

  /** A table with a bucket to spare has one that is not live on every full circle. */
  lemma SpareOnCircle(flags: seq<Flag>, h: nat, s: nat) returns (t: nat)
    requires IsPow2(|flags|) && |LiveSet(flags)| < |flags| && s > 0 && Probe(h, s, |flags|) == Probe(h, 0, |flags|)
    ensures t < s && flags[Probe(h, t, |flags|)] != Live
  {
    LiveSize(flags);
    var j: nat :| j < |flags| && flags[j] != Live;
    t := CircleIsEverything(h, s, |flags|, j);
  }

  lemma LiveSize(flags: seq<Flag>)
    ensures |LiveSet(flags)| <= |flags|
    ensures |LiveSet(flags)| < |flags| ==> exists j: nat :: j < |flags| && flags[j] != Live
  {
    SubsetOfBelow(LiveSet(flags), |flags|);
    if |LiveSet(flags)| < |flags| {
      assert LiveSet(flags) != Below(|flags|);
      var j :| j in Below(|flags|) - LiveSet(flags);
    }
  }

  lemma {:induction false} SubsetOfBelow(s: set<nat>, n: nat)
    requires s <= Below(n)
    ensures |s| <= n
    ensures s != Below(n) ==> (Below(n) - s) != {}
  {
    if n > 0 { SubsetOfBelow(s - {n - 1}, n - 1); }
  }

  lemma LiveSetUpdate(flags: seq<Flag>, x: nat, f: Flag)
    requires x < |flags|
    ensures LiveSet(flags[x := f]) == if f == Live then LiveSet(flags) + {x} else LiveSet(flags) - {x}
    ensures OccupiedSet(flags[x := f]) == if f == Empty then OccupiedSet(flags) - {x} else OccupiedSet(flags) + {x}
  {}

  /** Marking a bucket deleted removes one binding. */
  lemma DeleteKeeps<V>(hash: Key -> nat, flags: seq<Flag>, keys: seq<Key>, vals: seq<V>, m: map<Key, V>, x: nat)
    requires Represents(hash, flags, keys, vals, m) && IsLive(flags, x)
    ensures Represents(hash, flags[x := Deleted], keys, vals, m - {keys[x]})
  {
    var flags', m' := flags[x := Deleted], m - {keys[x]};
    assert forall j: nat :: IsLive(flags', j) <==> IsLive(flags, j) && j != x;
    forall j: nat | IsLive(flags', j)
      ensures keys[j] in m' && m'[keys[j]] == vals[j] && Placed(flags', hash(keys[j]), j) {
      assert IsLive(flags, j);
      LiveDiffer(hash, flags, keys, vals, m, j, x);
      PlacedGrows(flags, flags', hash(keys[j]), j);
    }
    forall k | k in m' ensures exists j: nat :: IsLive(flags', j) && keys[j] == k {
      var j: nat :| IsLive(flags, j) && keys[j] == k;
      assert IsLive(flags', j);
    }
  }

  /** Filling a bucket that searches for the key get to adds one binding. */
  lemma InsertKeeps<V>(hash: Key -> nat, flags: seq<Flag>, keys: seq<Key>, vals: seq<V>,
        m: map<Key, V>, x: nat, key: Key)
    requires Represents(hash, flags, keys, vals, m) && key !in m
    requires x < |flags| && flags[x] != Live && Placed(flags, hash(key), x)
    ensures Represents(hash, flags[x := Live], keys[x := key], vals, m[key := vals[x]])
  {
    var flags', keys', m' := flags[x := Live], keys[x := key], m[key := vals[x]];
    forall j: nat | IsLive(flags', j)
      ensures keys'[j] in m' && m'[keys'[j]] == vals[j] && Placed(flags', hash(keys'[j]), j) {
      assert j != x ==> IsLive(flags, j);
      PlacedGrows(flags, flags', hash(keys'[j]), j);
    }
    forall i: nat, j: nat | i < j && IsLive(flags', i) && IsLive(flags', j) ensures keys'[i] != keys'[j] {
      assert (i != x ==> IsLive(flags, i)) && (j != x ==> IsLive(flags, j));
    }
    forall k | k in m' ensures exists j: nat :: IsLive(flags', j) && keys'[j] == k {
      if k == key {
        assert IsLive(flags', x);
      } else {
        var j: nat :| IsLive(flags, j) && keys[j] == k;
        assert IsLive(flags', j) && keys'[j] == k;
      }
    }
  }

  /** Overwriting the value of a live bucket rebinds its key. */
  lemma SetKeeps<V>(hash: Key -> nat, flags: seq<Flag>, keys: seq<Key>, vals: seq<V>, m: map<Key, V>, x: nat, v: V)
    requires Represents(hash, flags, keys, vals, m) && IsLive(flags, x)
    ensures Represents(hash, flags, keys, vals[x := v], m[keys[x] := v])
  {
    var m' := m[keys[x] := v];
    forall j: nat | IsLive(flags, j) ensures keys[j] in m' && m'[keys[j]] == vals[x := v][j] {
      assert IsLive(flags, x);
      if j < x { assert keys[j] != keys[x]; } else if x < j { assert keys[x] != keys[j]; }
    }
    forall k | k in m' ensures exists j: nat :: IsLive(flags, j) && keys[j] == k {
      if k != keys[x] { assert k in m; }
    }
  }

  /** Only the part of the arrays that the flags cover matters. */
  lemma ReallocKeeps<V>(hash: Key -> nat, flags: seq<Flag>, keys: seq<Key>, vals: seq<V>, keys': seq<Key>,
        vals': seq<V>, m: map<Key, V>)
    requires Represents(hash, flags, keys, vals, m)
    requires |flags| <= |keys'| == |vals'|
    requires forall j: nat | j < |flags| :: keys'[j] == keys[j] && vals'[j] == vals[j]
    ensures Represents(hash, flags, keys', vals', m)
  {
    forall k | k in m ensures exists j: nat :: IsLive(flags, j) && keys'[j] == k {
      var j: nat :| IsLive(flags, j) && keys[j] == k;
      assert IsLive(flags, j) && keys'[j] == k;
    }
  }

  // ---------------------------------------------------------------- rehashing in place

  /** During a rehash a bucket holds a binding either for the old flags or for the new ones. */
  ghost predicate Held(was: seq<Flag>, now: seq<Flag>, j: nat) { IsLive(was, j) || IsLive(now, j) }

  /** Every binding of m is held by exactly one bucket; what the new flags hold lies where searches in the new
      table find it. */
  ghost predicate Moving<V>(hash: Key -> nat, was: seq<Flag>, now: seq<Flag>, keys: seq<Key>, vals: seq<V>,
        m: map<Key, V>) {
    && |was| <= |keys| && 0 < |now| <= |keys| == |vals|
    && (forall j: nat {:trigger Held(was, now, j)} | Held(was, now, j) :: keys[j] in m && m[keys[j]] == vals[j])
    && (forall i: nat, j: nat {:trigger Held(was, now, i), Held(was, now, j)} | i < j && Held(was, now, i)
        && Held(was, now, j) :: keys[i] != keys[j])
    && (forall j: nat {:trigger IsLive(was, j)} | IsLive(was, j) :: !IsLive(now, j))
    && (forall j: nat {:trigger IsLive(now, j)} | IsLive(now, j) :: Placed(now, hash(keys[j]), j))
    && (forall k {:trigger k in m} | k in m ::
          exists j: nat {:trigger Held(was, now, j)} :: Held(was, now, j) && keys[j] == k)
  }

  ghost predicate NoneDeleted(flags: seq<Flag>) { forall j: nat | j < |flags| :: flags[j] != Deleted }

  /** How many bindings the buckets hold. */
  ghost function Total(was: seq<Flag>, now: seq<Flag>): nat { |LiveSet(was)| + |LiveSet(now)| }

  lemma HeldDiffer<V>(hash: Key -> nat, was: seq<Flag>, now: seq<Flag>, keys: seq<Key>, vals: seq<V>, m: map<Key, V>,
        i: nat, j: nat)
    requires Moving(hash, was, now, keys, vals, m) && Held(was, now, i) && Held(was, now, j) && i != j
    ensures keys[i] != keys[j]
  {
    if i < j { assert Held(was, now, i) && Held(was, now, j); } else { assert Held(was, now, j) && Held(was, now, i); }
  }

  /** Taking a binding out of an old bucket. */
  lemma TakeKeeps<V>(hash: Key -> nat, was: seq<Flag>, now: seq<Flag>, keys: seq<Key>, vals: seq<V>,
        m: map<Key, V>, x: nat)
    requires Moving(hash, was, now, keys, vals, m) && IsLive(was, x)
    ensures Moving(hash, was[x := Deleted], now, keys, vals, m - {keys[x]})
    ensures Total(was[x := Deleted], now) + 1 == Total(was, now)
    ensures keys[x] in m && m[keys[x]] == vals[x]
  {
    var was', m' := was[x := Deleted], m - {keys[x]};
    LiveSetUpdate(was, x, Deleted);
    assert x in LiveSet(was);
    assert Held(was, now, x);
    forall j: nat | Held(was', now, j) ensures Held(was, now, j) && keys[j] != keys[x] {
      assert IsLive(was', j) ==> IsLive(was, j) && j != x;
      assert IsLive(was, x) && (IsLive(now, j) ==> j != x);
      HeldDiffer(hash, was, now, keys, vals, m, j, x);
    }
    forall k | k in m' ensures exists j: nat :: Held(was', now, j) && keys[j] == k {
      var j: nat :| Held(was, now, j) && keys[j] == k;
      assert Held(was', now, j);
    }
    forall j: nat | IsLive(was', j) ensures !IsLive(now, j) { assert IsLive(was, j); }
  }

  /** A new bucket is free for a key: empty, holding nothing for the old flags, and where searches get to. */
  ghost predicate Free(hash: Key -> nat, was: seq<Flag>, now: seq<Flag>, key: Key, x: nat) {
    x < |now| && now[x] == Empty && !IsLive(was, x) && Placed(now, hash(key), x)
  }

  lemma DropHeld(was: seq<Flag>, now: seq<Flag>, x: nat, now': seq<Flag>)
    requires x < |now| && now' == now[x := Live]
    ensures forall j: nat :: IsLive(now', j) <==> j == x || IsLive(now, j)
    ensures forall j: nat :: Held(was, now', j) <==> j == x || Held(was, now, j)
  {}

  lemma DropTotal(was: seq<Flag>, now: seq<Flag>, x: nat)
    requires x < |now| && now[x] == Empty
    ensures Total(was, now[x := Live]) == Total(was, now) + 1
  {
    LiveSetUpdate(now, x, Live);
    assert x !in LiveSet(now);
  }

  lemma DropDistinct<V>(hash: Key -> nat, was: seq<Flag>, now: seq<Flag>, keys: seq<Key>, vals: seq<V>,
        m: map<Key, V>, key: Key, x: nat, i: nat, j: nat)
    requires Moving(hash, was, now, keys, vals, m) && key !in m && x < |now| && i != j
    requires (i == x || Held(was, now, i)) && (j == x || Held(was, now, j))
    ensures i < |keys| && j < |keys| && keys[x := key][i] != keys[x := key][j]
  {
    if i != x && j != x {
      HeldDiffer(hash, was, now, keys, vals, m, i, j);
    } else if i == x {
      assert keys[j] in m;
    } else {
      assert keys[i] in m;
    }
  }

  /** Putting a binding into a free new bucket. */
  lemma DropKeeps<V>(hash: Key -> nat, was: seq<Flag>, now: seq<Flag>, keys: seq<Key>, vals: seq<V>, m: map<Key, V>,
                     key: Key, val: V, x: nat)
    requires Moving(hash, was, now, keys, vals, m) && key !in m && Free(hash, was, now, key, x)
    ensures Moving(hash, was, now[x := Live], keys[x := key], vals[x := val], m[key := val])
    ensures Total(was, now[x := Live]) == Total(was, now) + 1
  {
    var now', keys', vals', m' := now[x := Live], keys[x := key], vals[x := val], m[key := val];
    DropTotal(was, now, x);
    DropHeld(was, now, x, now');
    forall i: nat, j: nat | i < j && Held(was, now', i) && Held(was, now', j) ensures keys'[i] != keys'[j] {
      DropDistinct(hash, was, now, keys, vals, m, key, x, i, j);
    }
    DropPlaced(hash, was, now, keys, vals, m, key, x, now');
    forall k | k in m' ensures exists j: nat :: Held(was, now', j) && keys'[j] == k {
      var j := DropCovers(hash, was, now, keys, vals, m, key, x, k, now');
    }
  }

  lemma DropPlaced<V>(hash: Key -> nat, was: seq<Flag>, now: seq<Flag>, keys: seq<Key>, vals: seq<V>, m: map<Key, V>,
                      key: Key, x: nat, now': seq<Flag>)
    requires Moving(hash, was, now, keys, vals, m) && Free(hash, was, now, key, x) && now' == now[x := Live]
    ensures forall j: nat {:trigger IsLive(now', j)} | IsLive(now', j) :: Placed(now', hash(keys[x := key][j]), j)
  {
    DropHeld(was, now, x, now');
    forall j: nat | IsLive(now', j) ensures Placed(now', hash(keys[x := key][j]), j) {
      PlacedGrows(now, now', hash(keys[x := key][j]), j);
    }
  }

  lemma DropCovers<V>(hash: Key -> nat, was: seq<Flag>, now: seq<Flag>, keys: seq<Key>, vals: seq<V>, m: map<Key, V>,
                      key: Key, x: nat, k: Key, now': seq<Flag>) returns (j: nat)
    requires Moving(hash, was, now, keys, vals, m) && Free(hash, was, now, key, x) && now' == now[x := Live]
    requires k == key || k in m
    ensures Held(was, now', j) && j < |keys| && keys[x := key][j] == k
  {
    DropHeld(was, now, x, now');
    if k == key {
      j := x;
    } else {
      j :| Held(was, now, j) && keys[j] == k;
      assert j != x;
    }
  }

  /** Trading the binding in hand for one of the table's leaves their union alone. */
  lemma TradeKeeps<V>(m: map<Key, V>, key: Key, val: V, key1: Key)
    requires key !in m && key1 in m
    ensures key1 !in (m - {key1})[key := val]
    ensures (m - {key1})[key := val][key1 := m[key1]] == m[key := val]
  {}

  /** The start of a rehash: everything is held by the old flags. */
  lemma MovingStarts<V>(hash: Key -> nat, was: seq<Flag>, now: seq<Flag>, keys: seq<Key>, vals: seq<V>, m: map<Key, V>)
    requires Represents(hash, was, keys, vals, m) && 0 < |now| <= |keys|
    requires forall j: nat | j < |now| :: now[j] == Empty
    ensures Moving(hash, was, now, keys, vals, m)
    ensures Total(was, now) == |LiveSet(was)|
  {
    assert LiveSet(now) == {};
    assert forall j: nat :: Held(was, now, j) <==> IsLive(was, j);
  }

  /** The end of a rehash: everything is held by the new flags. */
  lemma MovingEnds<V>(hash: Key -> nat, was: seq<Flag>, now: seq<Flag>, keys: seq<Key>, vals: seq<V>, m: map<Key, V>)
    requires Moving(hash, was, now, keys, vals, m) && LiveSet(was) == {}
    ensures Represents(hash, now, keys, vals, m)
    ensures Total(was, now) == |LiveSet(now)|
  {
    assert forall j: nat :: IsLive(was, j) ==> j in LiveSet(was);
    assert forall j: nat :: Held(was, now, j) <==> IsLive(now, j);
  }
}
