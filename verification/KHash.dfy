/** The open-addressing table of paxos/include/khash.h, as a class over its three arrays. `contents` is the finite
    map that a caller sees. */
module KHash {
  import opened Types
  import opened Probing
  import opened KHashSpec
  import opened Sets

  /** Occupied buckets allowed before the table is rebuilt: 0.77 of all, rounded. */
  function UpperBound(buckets: nat): nat { (77 * buckets + 50) / 100 }

  class Table<V(0)> {
    const hash: Key -> nat
    var buckets: nat
    var size: nat
    var occupied: nat
    var upper: nat
    var flags: array<Flag>
    var keys: array<Key>
    var vals: array<V>
    ghost var contents: map<Key, V>

    ghost predicate Apart()
      reads this
    {
      && (flags as object) != (keys as object)
      && (keys as object) != (vals as object)
      && (flags as object) != (vals as object)
    }

    ghost predicate Valid()
      reads this, flags, keys, vals
    {
      && Apart()
      && flags.Length == keys.Length == vals.Length == buckets
      && (buckets == 0 || (buckets >= 4 && IsPow2(buckets)))
      && Represents(hash, flags[..], keys[..], vals[..], contents)
      && size == |LiveSet(flags[..])|
      && occupied == |OccupiedSet(flags[..])|
      && occupied <= upper == UpperBound(buckets)
    }

    constructor (hash: Key -> nat)
      ensures Valid() && contents == map[] && this.hash == hash
      ensures fresh(flags) && fresh(keys) && fresh(vals)
    {
      this.hash := hash;
      buckets, size, occupied, upper := 0, 0, 0, 0;
      flags, keys, vals := new Flag[0], new Key[0], new V[0];
      contents := map[];
      new;
      assert LiveSet(flags[..]) == {} && OccupiedSet(flags[..]) == {};
    }

    /** Look a key up: its bucket, or `buckets` if it is absent. */
    method Get(key: Key) returns (x: nat)
      requires Valid()
      ensures x <= buckets
      ensures x < buckets <==> key in contents
      ensures x < buckets ==> flags[x] == Live && keys[x] == key && vals[x] == contents[key]
    {
      ghost var fs, ks := flags[..], keys[..];
      if buckets == 0 {
        assert forall j: nat :: !IsLive(fs, j);
        return 0;
      }
      var n, h, step := buckets, hash(key), 0;
      var i := h % n;
      var last := i;
      while flags[i] != Empty && (flags[i] == Deleted || keys[i] != key)
        invariant i == Probe(h, step, n) && step < 2 * n - 1
        invariant Passed(fs, ks, key, h, step)
        decreases 2 * n - step
      {
        ProbeStep(h, step, n);
        step := step + 1;
        i := (i + step) % n;
        if i == last {
          ExhaustedMeansAbsent(hash, fs, ks, vals[..], contents, key, step);
          return buckets;
        }
        FullCircle(h, n);
      }
      if flags[i] == Empty {
        ExhaustedMeansAbsent(hash, fs, ks, vals[..], contents, key, step);
        return buckets;
      }
      assert IsLive(fs, i);
      return i;
    }

    /** Walk the probe sequence of a key, remembering the last deleted bucket passed. */
    method FindSite(key: Key) returns (x: nat, ghost s: nat)
      requires flags.Length == keys.Length == buckets > 0 && IsPow2(buckets) && |LiveSet(flags[..])| < buckets
      ensures x < buckets
      ensures flags[x] == Live ==> keys[x] == key
      ensures flags[x] != Live ==>
        Exhausted(flags[..], keys[..], key, hash(key), s) && Placed(flags[..], hash(key), x)
    {
      ghost var fs, ks := flags[..], keys[..];
      var n, h, step := buckets, hash(key), 0;
      var i := h % n;
      var last, site := i, n;
      ghost var deletedAt := 0;
      while flags[i] != Empty && (flags[i] == Deleted || keys[i] != key)
        invariant i == Probe(h, step, n) && step < 2 * n - 1
        invariant Passed(fs, ks, key, h, step)
        invariant site <= n
        invariant site < n ==> deletedAt < step && Probe(h, deletedAt, n) == site && fs[site] == Deleted
        invariant site == n ==> forall t: nat | t < step :: fs[Probe(h, t, n)] == Live
        decreases 2 * n - step
      {
        if flags[i] == Deleted { site := i; deletedAt := step; }
        ProbeStep(h, step, n);
        step := step + 1;
        i := (i + step) % n;
        if i == last {
          ghost var t := SpareOnCircle(fs, h, step);
          PassedReaches(fs, ks, key, h, step, deletedAt);
          return site, step;
        }
        FullCircle(h, n);
      }
      PassedReaches(fs, ks, key, h, step, step);
      if flags[i] == Empty && site != n {
        PassedReaches(fs, ks, key, h, step, deletedAt);
        return site, step;
      }
      return i, step;
    }

    // -------------------------------------------------------------- rebuilding

    /** The first empty bucket of the new table on the probe sequence from h. */
    method PlaceAt(newFlags: array<Flag>, h: nat) returns (i: nat)
      requires IsPow2(newFlags.Length) && |LiveSet(newFlags[..])| < newFlags.Length
      requires NoneDeleted(newFlags[..])
      ensures i < newFlags.Length && newFlags[i] == Empty && Placed(newFlags[..], h, i)
    {
      ghost var fs := newFlags[..];
      var n, step := newFlags.Length, 0;
      LiveSize(fs);
      ghost var j: nat :| j < n && fs[j] != Live;
      ghost var end := ProbesCover(h, j, n);
      i := h % n;
      while newFlags[i] != Empty
        invariant i == Probe(h, step, n) && step <= end
        invariant Reached(fs, h, step)
        decreases end - step
      {
        ProbeStep(h, step, n);
        step := step + 1;
        i := (i + step) % n;
      }
    }

    ghost predicate Rehashing(newFlags: array<Flag>, m: map<Key, V>)
      reads this, flags, keys, vals, newFlags
    {
      && Apart() && (newFlags as object) != (keys as object) && (newFlags as object) != (vals as object)
      && newFlags != flags
      && keys.Length == vals.Length && IsPow2(newFlags.Length)
      && Moving(hash, flags[..], newFlags[..], keys[..], vals[..], m)
      && NoneDeleted(newFlags[..])
    }

    /** Put a binding into the new table, kicking out whatever the old one still holds in its bucket, until a bucket
        is free. */
    method KickOut(newFlags: array<Flag>, key0: Key, val0: V, ghost m0: map<Key, V>)
      requires Rehashing(newFlags, m0) && key0 !in m0 && Total(flags[..], newFlags[..]) < newFlags.Length
      modifies flags, newFlags, keys, vals
      ensures Rehashing(newFlags, m0[key0 := val0])
      ensures Total(flags[..], newFlags[..]) == old(Total(flags[..], newFlags[..])) + 1
      ensures LiveSet(flags[..]) <= old(LiveSet(flags[..]))
    {
      var key, val := key0, val0;
      ghost var m := m0;
      while true
        invariant Rehashing(newFlags, m) && key !in m && m[key := val] == m0[key0 := val0]
        invariant Total(flags[..], newFlags[..]) == old(Total(flags[..], newFlags[..]))
        invariant LiveSet(flags[..]) <= old(LiveSet(flags[..]))
        decreases |LiveSet(flags[..])|
      {
        var i := PlaceAt(newFlags, hash(key));
        if i < flags.Length && flags[i] == Live {
          var key1, val1 := keys[i], vals[i];
          Swap(newFlags, key, val, m, i);
          TradeKeeps(m, key, val, key1);
          m := (m - {key1})[key := val];
          key, val := key1, val1;
        } else {
          Settle(newFlags, key, val, m, i);
          return;
        }
      }
    }

    /** One kick: the binding in hand and the one in an old bucket change places. */
    method Swap(newFlags: array<Flag>, key: Key, val: V, ghost m: map<Key, V>, i: nat)
      requires Rehashing(newFlags, m) && key !in m
      requires i < newFlags.Length && i < flags.Length && newFlags[i] == Empty && flags[i] == Live
      requires Placed(newFlags[..], hash(key), i)
      modifies flags, newFlags, keys, vals
      ensures Rehashing(newFlags, (m - {old(keys[i])})[key := val])
      ensures old(keys[i]) in m && m[old(keys[i])] == old(vals[i])
      ensures LiveSet(flags[..]) == old(LiveSet(flags[..])) - {i}
      ensures Total(flags[..], newFlags[..]) == old(Total(flags[..], newFlags[..]))
      ensures |LiveSet(flags[..])| < |old(LiveSet(flags[..]))|
    {
      ghost var was, now, ks, vs := flags[..], newFlags[..], keys[..], vals[..];
      TakeKeeps(hash, was, now, ks, vs, m, i);
      DropKeeps(hash, was[i := Deleted], now, ks, vs, m - {ks[i]}, key, val, i);
      LiveSetUpdate(was, i, Deleted);
      assert i in LiveSet(was);
      newFlags[i] := Live;
      keys[i] := key;
      vals[i] := val;
      flags[i] := Deleted;
      assert flags[..] == was[i := Deleted] && newFlags[..] == now[i := Live];
      assert keys[..] == ks[i := key] && vals[..] == vs[i := val];
    }

    /** The binding in hand goes into a free bucket. */
    method Settle(newFlags: array<Flag>, key: Key, val: V, ghost m: map<Key, V>, i: nat)
      requires Rehashing(newFlags, m) && key !in m
      requires i < newFlags.Length && newFlags[i] == Empty && !(i < flags.Length && flags[i] == Live)
      requires Placed(newFlags[..], hash(key), i)
      modifies newFlags, keys, vals
      ensures Rehashing(newFlags, m[key := val])
      ensures Total(flags[..], newFlags[..]) == old(Total(flags[..], newFlags[..])) + 1
    {
      ghost var now, ks, vs := newFlags[..], keys[..], vals[..];
      DropKeeps(hash, flags[..], now, ks, vs, m, key, val, i);
      newFlags[i] := Live;
      keys[i] := key;
      vals[i] := val;
      assert newFlags[..] == now[i := Live] && keys[..] == ks[i := key] && vals[..] == vs[i := val];
    }

    /** A binding is taken out of its old bucket. */
    method Lift(newFlags: array<Flag>, j: nat) returns (key: Key, val: V)
      requires Rehashing(newFlags, contents) && j < flags.Length && flags[j] == Live
      modifies flags
      ensures Rehashing(newFlags, contents - {key})
      ensures key in contents && contents[key] == val
      ensures LiveSet(flags[..]) == old(LiveSet(flags[..])) - {j}
      ensures Total(flags[..], newFlags[..]) + 1 == old(Total(flags[..], newFlags[..]))
    {
      key, val := keys[j], vals[j];
      ghost var was := flags[..];
      TakeKeeps(hash, was, newFlags[..], keys[..], vals[..], contents, j);
      LiveSetUpdate(was, j, Deleted);
      flags[j] := Deleted;
      assert flags[..] == was[j := Deleted];
    }

    /** Move every binding from the old flags to the new ones, in place. */
    method Rehash(newFlags: array<Flag>)
      requires Rehashing(newFlags, contents) && flags.Length == buckets
      requires Total(flags[..], newFlags[..]) == size <= newFlags.Length
      modifies flags, newFlags, keys, vals
      ensures Rehashing(newFlags, contents)
      ensures Total(flags[..], newFlags[..]) == size
      ensures LiveSet(flags[..]) == {}
    {
      for j := 0 to buckets
        invariant Rehashing(newFlags, contents)
        invariant Total(flags[..], newFlags[..]) == size
        invariant forall i | i in LiveSet(flags[..]) :: i >= j
      {
        RehashOne(newFlags, j);
      }
    }

    /** One turn: the binding of bucket j moves, and with it whatever it kicks out. */
    method RehashOne(newFlags: array<Flag>, j: nat)
      requires Rehashing(newFlags, contents) && flags.Length == buckets && j < buckets
      requires Total(flags[..], newFlags[..]) == size <= newFlags.Length
      modifies flags, newFlags, keys, vals
      ensures Rehashing(newFlags, contents)
      ensures Total(flags[..], newFlags[..]) == size
      ensures LiveSet(flags[..]) <= old(LiveSet(flags[..])) - {j}
    {
      if flags[j] == Live {
        var key, val := Lift(newFlags, j);
        PutBack(contents, key);
        KickOut(newFlags, key, val, contents - {key});
      } else {
        assert j !in LiveSet(flags[..]);
      }
    }

    /** Rebuild with room for at least `wanted` buckets, unless the bindings would not fit. The old flag array is
        scratch space; keys and values are moved in place. */
    method Resize(wanted: nat)
      requires Valid()
      modifies this, flags, keys, vals
      ensures Valid() && contents == old(contents) && size == old(size)
      ensures if size >= UpperBound(NewSize(wanted)) then buckets == old(buckets) && occupied == old(occupied)
              else buckets == NewSize(wanted) && occupied == size
      ensures (flags == old(flags) || fresh(flags)) && (keys == old(keys) || fresh(keys))
      ensures vals == old(vals) || fresh(vals)
      ensures if flags == old(flags) then flags[..] == old(flags[..]) else NoneDeleted(flags[..])
    {
      var n := NewSize(wanted);
      if size < UpperBound(n) { RebuildTo(n); }
    }

    method RebuildTo(n: nat)
      requires Valid() && n >= 4 && IsPow2(n) && size < UpperBound(n)
      modifies this, flags, keys, vals
      ensures Valid() && contents == old(contents) && size == old(size) && buckets == n && occupied == size
      ensures fresh(flags) && NoneDeleted(flags[..])
      ensures (keys == old(keys) || fresh(keys)) && (vals == old(vals) || fresh(vals))
    {
      var newFlags := new Flag[n](_ => Empty);
      if buckets < n { GrowArrays(n); }
      Rebuild(newFlags);
      CutArrays(newFlags);
      Install(newFlags);
      SameCounts(flags[..]);
    }

    /** The new flags take over. */
    method Install(newFlags: array<Flag>)
      requires (newFlags as object) != (keys as object) && (newFlags as object) != (vals as object)
          && (keys as object) != (vals as object)
      requires keys.Length == vals.Length == newFlags.Length >= 4 && IsPow2(newFlags.Length)
          && size < UpperBound(newFlags.Length)
      requires Represents(hash, newFlags[..], keys[..], vals[..], contents)
      requires size == |LiveSet(newFlags[..])| == |OccupiedSet(newFlags[..])|
      modifies this`flags, this`buckets, this`occupied, this`upper
      ensures Valid() && flags == newFlags && buckets == newFlags.Length && occupied == size
    {
      flags, buckets, occupied, upper := newFlags, newFlags.Length, size, UpperBound(newFlags.Length);
    }

    /** All bindings move to a table with empty flags. */
    method Rebuild(newFlags: array<Flag>)
      requires Apart() && (newFlags as object) != (keys as object) && (newFlags as object) != (vals as object)
          && newFlags != flags
      requires flags.Length == buckets && 0 < newFlags.Length <= keys.Length == vals.Length && IsPow2(newFlags.Length)
      requires Represents(hash, flags[..], keys[..], vals[..], contents)
      requires size == |LiveSet(flags[..])| <= newFlags.Length
      requires forall j: nat | j < newFlags.Length :: newFlags[..][j] == Empty
      modifies flags, newFlags, keys, vals
      ensures Represents(hash, newFlags[..], keys[..], vals[..], contents)
      ensures |LiveSet(newFlags[..])| == size && |OccupiedSet(newFlags[..])| == size
    {
      MovingStarts(hash, flags[..], newFlags[..], keys[..], vals[..], contents);
      Rehash(newFlags);
      MovingEnds(hash, flags[..], newFlags[..], keys[..], vals[..], contents);
      NoneDeletedCounts(newFlags[..]);
    }

    method GrowArrays(n: nat)
      requires Apart() && flags.Length == keys.Length == vals.Length < n
      requires Represents(hash, flags[..], keys[..], vals[..], contents)
      modifies this`keys, this`vals
      ensures fresh(keys) && fresh(vals) && Apart() && keys.Length == vals.Length == n
      ensures Represents(hash, flags[..], keys[..], vals[..], contents)
    {
      ghost var ks, vs := keys[..], vals[..];
      keys := Realloc(keys, n);
      vals := Realloc(vals, n);
      ReallocKeeps(hash, flags[..], ks, vs, keys[..], vals[..], contents);
    }

    /** Shrinking cuts the arrays off after the last new bucket. */
    method CutArrays(newFlags: array<Flag>)
      requires keys.Length == vals.Length >= newFlags.Length
      requires Represents(hash, newFlags[..], keys[..], vals[..], contents)
      modifies this`keys, this`vals
      ensures (keys == old(keys) || fresh(keys)) && (vals == old(vals) || fresh(vals))
      ensures keys.Length == vals.Length == newFlags.Length
      ensures old((keys as object) != (vals as object)) ==> (keys as object) != (vals as object)
      ensures Represents(hash, newFlags[..], keys[..], vals[..], contents)
    {
      if keys.Length > newFlags.Length {
        ghost var ks, vs := keys[..], vals[..];
        keys := Realloc(keys, newFlags.Length);
        vals := Realloc(vals, newFlags.Length);
        ReallocKeeps(hash, newFlags[..], ks, vs, keys[..], vals[..], contents);
      }
    }

    /** Make room: rebuild at the same size when most buckets are deleted ones, larger otherwise. */
    method MakeRoom()
      requires Valid()
      modifies this, flags, keys, vals
      ensures Valid() && contents == old(contents) && size == old(size) && occupied < upper
      ensures (flags == old(flags) || fresh(flags)) && (keys == old(keys) || fresh(keys))
      ensures vals == old(vals) || fresh(vals)
      ensures if flags == old(flags) then flags[..] == old(flags[..]) else NoneDeleted(flags[..])
    {
      if occupied >= upper {
        LiveBelowOccupied(flags[..]);
        if buckets > 2 * size {
          RoomInSame(buckets, size);
          Resize(buckets - 1);
        } else {
          RoomInLarger(buckets, size);
          Resize(buckets + 1);
        }
      }
    }

    /** Make a key present. `ret` is 0 if it already was, 1 if it took an empty bucket, 2 if a deleted one; its value
        is then whatever the bucket held. */
    method Put(key: Key) returns (x: nat, ret: nat)
      requires Valid()
      modifies this, flags, keys, vals
      ensures Valid() && x < buckets && flags[x] == Live && keys[x] == key
      ensures contents == old(contents)[key := vals[x]]
      ensures ret == 0 <==> key in old(contents)
      ensures key in old(contents) ==> contents == old(contents)
      ensures size == old(size) + if key in old(contents) then 0 else 1
      ensures ret <= 2
      ensures ret == 2 <==> key !in old(contents) && flags == old(flags) && old(flags[..])[x] == Deleted
      ensures (flags == old(flags) || fresh(flags)) && (keys == old(keys) || fresh(keys))
      ensures vals == old(vals) || fresh(vals)
    {
      MakeRoom();
      x, ret := Place(key);
    }

    /** With room to spare, the key takes the bucket its search ends at. */
    method Place(key: Key) returns (x: nat, ret: nat)
      requires Valid() && occupied < upper
      modifies this, flags, keys
      ensures Valid() && unchanged(`flags, `keys, `vals, `buckets)
      ensures x < buckets && flags[x] == Live && keys[x] == key
      ensures contents == old(contents)[key := vals[x]]
      ensures ret == match old(flags[..])[x] { case Live => 0 case Empty => 1 case Deleted => 2 }
      ensures old(flags[..])[x] == Live <==> key in old(contents)
      ensures size == if ret == 0 then old(size) else old(size) + 1
      ensures ret == 0 ==> contents == old(contents)
    {
      RoomMeansSpare(flags[..]);
      x := FindPlace(key);
      if flags[x] == Live {
        ret := 0;
      } else {
        ret := if flags[x] == Empty then 1 else 2;
        Fill(x, key);
      }
    }

    /** The bucket of a key, or the one to put it in. */
    method FindPlace(key: Key) returns (x: nat)
      requires Valid() && |LiveSet(flags[..])| < buckets
      ensures x < buckets
      ensures flags[x] == Live ==> keys[x] == key && key in contents && contents[key := vals[x]] == contents
      ensures flags[x] != Live ==> key !in contents && Placed(flags[..], hash(key), x)
    {
      ghost var s;
      x, s := FindSite(key);
      if flags[x] == Live {
        assert IsLive(flags[..], x);
      } else {
        ExhaustedMeansAbsent(hash, flags[..], keys[..], vals[..], contents, key, s);
      }
    }

    method Fill(x: nat, key: Key)
      requires Valid() && key !in contents && occupied < upper
      requires x < buckets && flags[x] != Live && Placed(flags[..], hash(key), x)
      modifies this, flags, keys
      ensures Valid() && unchanged(`flags, `keys, `vals, `buckets)
      ensures flags[x] == Live && keys[x] == key && contents == old(contents)[key := vals[x]] && size == old(size) + 1
    {
      ghost var fs, ks := flags[..], keys[..];
      InsertKeeps(hash, fs, ks, vals[..], contents, x, key);
      InsertCounts(fs, x);
      if flags[x] == Empty { occupied := occupied + 1; }
      size := size + 1;
      keys[x] := key;
      flags[x] := Live;
      contents := contents[key := vals[x]];
      assert flags[..] == fs[x := Live] && keys[..] == ks[x := key];
    }

    /** Store a value in a live bucket. */
    method SetValue(x: nat, v: V)
      requires Valid() && x < buckets && flags[x] == Live
      modifies this`contents, vals
      ensures Valid() && contents == old(contents)[keys[x] := v]
    {
      ghost var vs := vals[..];
      assert IsLive(flags[..], x);
      SetKeeps(hash, flags[..], keys[..], vs, contents, x, v);
      vals[x] := v;
      contents := contents[keys[x] := v];
      assert vals[..] == vs[x := v];
    }

    /** Delete what a live bucket holds; anything else is left alone. */
    method Delete(x: nat)
      requires Valid() && x <= buckets
      modifies this`size, this`contents, flags
      ensures Valid()
      ensures contents == if x < buckets && old(flags[x]) == Live then old(contents) - {keys[x]} else old(contents)
    {
      if x != buckets && flags[x] == Live { Remove(x); }
    }

    method Remove(x: nat)
      requires Valid() && x < buckets && flags[x] == Live
      modifies this`size, this`contents, flags
      ensures Valid() && contents == old(contents) - {keys[x]}
      ensures LiveSet(flags[..]) == old(LiveSet(flags[..])) - {x}
    {
      ghost var fs := flags[..];
      LiveSetUpdate(fs, x, Deleted);
      DeleteKeeps(hash, fs, keys[..], vals[..], contents, x);
      DeletedCounts(fs, x);
      flags[x] := Deleted;
      size := size - 1;
      contents := contents - {keys[x]};
      assert flags[..] == fs[x := Deleted];
    }

    /** Look the key of a live bucket up and delete what is found: that bucket. */
    method CloseAt(x: nat)
      requires Valid() && x < buckets && flags[x] == Live
      modifies this`size, this`contents, flags
      ensures Valid() && contents == old(contents) - {keys[x]}
      ensures LiveSet(flags[..]) == old(LiveSet(flags[..])) - {x}
    {
      assert IsLive(flags[..], x);
      var y := Get(keys[x]);
      if y != x { LiveDiffer(hash, flags[..], keys[..], vals[..], contents, x, y); }
      Remove(y);
    }
  }

  // ---------------------------------------------------------------- any sequence of operations

  /** Bind a key to a value. */
  method Bind<V(0)>(t: Table<V>, k: Key, v: V)
    requires t.Valid()
    modifies t, t.flags, t.keys, t.vals
    ensures t.Valid() && t.contents == old(t.contents)[k := v]
    ensures (t.flags == old(t.flags) || fresh(t.flags)) && (t.keys == old(t.keys) || fresh(t.keys))
        && (t.vals == old(t.vals) || fresh(t.vals))
  {
    var x, ret := t.Put(k);
    t.SetValue(x, v);
  }

  /** Remove the binding of a key, if there is one. */
  method Unbind<V(0)>(t: Table<V>, k: Key)
    requires t.Valid()
    modifies t`size, t`contents, t.flags
    ensures t.Valid() && t.contents == old(t.contents) - {k}
  {
    var x := t.Get(k);
    if x == t.buckets {
      NothingToRemove(t.contents, k);
      return;
    }
    t.Delete(x);
  }

  /** In the first x buckets nothing below the cut-off is left, and nothing else is gone from m. */
  ghost predicate ClosedUpTo<V>(flags: seq<Flag>, keys: seq<Key>, now: map<Key, V>, m: map<Key, V>, x: nat,
        cutoff: nat)
  {
    && |flags| <= |keys|
    && (forall k | k in now :: k in m && now[k] == m[k])
    && (forall k | k in m && k >= cutoff :: k in now)
    && (forall j: nat | j < x && j in LiveSet(flags) :: keys[j] >= cutoff)
  }

  lemma CloseStep<V>(flags: seq<Flag>, flags': seq<Flag>, keys: seq<Key>, now: map<Key, V>, m: map<Key, V>, x: nat,
        cutoff: nat)
    requires ClosedUpTo(flags, keys, now, m, x, cutoff) && x < |flags'| == |flags|
    requires LiveSet(flags') == LiveSet(flags) - {x} && keys[x] < cutoff
    ensures ClosedUpTo(flags', keys, now - {keys[x]}, m, x + 1, cutoff)
  {}

  lemma CloseSkip<V>(flags: seq<Flag>, keys: seq<Key>, now: map<Key, V>, m: map<Key, V>, x: nat, cutoff: nat)
    requires ClosedUpTo(flags, keys, now, m, x, cutoff) && x < |flags| && (flags[x] != Live || keys[x] >= cutoff)
    ensures ClosedUpTo(flags, keys, now, m, x + 1, cutoff)
  {}

  lemma CloseEnd<V>(hash: Key -> nat, flags: seq<Flag>, keys: seq<Key>, vals: seq<V>, now: map<Key, V>,
        m: map<Key, V>, cutoff: nat)
    requires Represents(hash, flags, keys, vals, now) && ClosedUpTo(flags, keys, now, m, |flags|, cutoff)
    ensures now == map k | k in m && k >= cutoff :: m[k]
  {
    forall k | k in now ensures k >= cutoff {
      var j: nat :| IsLive(flags, j) && keys[j] == k;
      assert j in LiveSet(flags);
    }
  }

  /** Visit every bucket and delete the bindings of the keys below a cut-off. */
  method CloseBelow<V(0)>(t: Table<V>, cutoff: nat)
    requires t.Valid()
    modifies t`size, t`contents, t.flags
    ensures t.Valid()
    ensures t.contents == map k | k in old(t.contents) && k >= cutoff :: old(t.contents)[k]
  {
    ghost var m := t.contents;
    for x := 0 to t.buckets
      invariant t.Valid() && ClosedUpTo(t.flags[..], t.keys[..], t.contents, m, x, cutoff)
    {
      CloseBucket(t, m, x, cutoff);
    }
    CloseEnd(t.hash, t.flags[..], t.keys[..], t.vals[..], t.contents, m, cutoff);
  }

  method CloseBucket<V(0)>(t: Table<V>, ghost m: map<Key, V>, x: nat, cutoff: nat)
    requires t.Valid() && x < t.buckets && ClosedUpTo(t.flags[..], t.keys[..], t.contents, m, x, cutoff)
    modifies t`size, t`contents, t.flags
    ensures t.Valid() && ClosedUpTo(t.flags[..], t.keys[..], t.contents, m, x + 1, cutoff)
  {
    ghost var flags, keys, now := t.flags[..], t.keys[..], t.contents;
    if t.flags[x] == Live && t.keys[x] < cutoff {
      t.CloseAt(x);
      CloseStep(flags, t.flags[..], keys, now, m, x, cutoff);
    } else {
      CloseSkip(flags, keys, now, m, x, cutoff);
    }
  }

  /** What the live buckets hold, in bucket order. */
  method Entries<V(0)>(t: Table<V>) returns (s: seq<(Key, V)>)
    requires t.Valid()
    ensures forall k | 0 <= k < |s| :: s[k].0 in t.contents && t.contents[s[k].0] == s[k].1
    ensures forall i | i in t.contents :: (i, t.contents[i]) in s
  {
    s := [];
    for x := 0 to t.buckets
      invariant forall k | 0 <= k < |s| :: s[k].0 in t.contents && t.contents[s[k].0] == s[k].1
      invariant forall j: nat | j < x && IsLive(t.flags[..], j) :: (t.keys[j], t.vals[j]) in s
    {
      if t.flags[x] == Live {
        assert IsLive(t.flags[..], x);
        s := s + [(t.keys[x], t.vals[x])];
      }
    }
    forall i | i in t.contents ensures (i, t.contents[i]) in s {
      var j: nat :| IsLive(t.flags[..], j) && t.keys[..][j] == i;
      assert (t.keys[j], t.vals[j]) in s;
    }
  }

  lemma PutBack<V>(m: map<Key, V>, k: Key)
    requires k in m
    ensures (m - {k})[k := m[k]] == m
  {}

  lemma NothingToRemove<V>(m: map<Key, V>, k: Key)
    requires k !in m
    ensures m - {k} == m
  {}

  datatype Op<V> = OpPut(key: Key, value: V) | OpDelete(key: Key) | OpResize(wanted: nat)

  /** What the operations mean for a finite map. */
  function Meaning<V>(m: map<Key, V>, ops: seq<Op<V>>): map<Key, V> {
    if ops == [] then m
    else
      var m' := Meaning(m, ops[..|ops| - 1]);
      match ops[|ops| - 1]
      case OpPut(k, v) => m'[k := v]
      case OpDelete(k) => m' - {k}
      case OpResize(_) => m'
  }

  method Perform<V(0)>(t: Table<V>, op: Op<V>)
    requires t.Valid()
    modifies t, t.flags, t.keys, t.vals
    ensures t.Valid() && t.contents == Meaning(old(t.contents), [op])
    ensures (t.flags == old(t.flags) || fresh(t.flags)) && (t.keys == old(t.keys) || fresh(t.keys))
        && (t.vals == old(t.vals) || fresh(t.vals))
  {
    assert [op][..0] == [];
    match op
    case OpPut(k, v) =>
      Bind(t, k, v);
    case OpDelete(k) =>
      Unbind(t, k);
    case OpResize(n) => t.Resize(n);
  }

  lemma MeaningStep<V>(m: map<Key, V>, ops: seq<Op<V>>, k: nat)
    requires k < |ops|
    ensures Meaning(m, ops[..k + 1]) == Meaning(Meaning(m, ops[..k]), [ops[k]])
  {
    assert ops[..k + 1][..k] == ops[..k];
    assert [ops[k]][..0] == [];
  }

  method PerformAll<V(0)>(t: Table<V>, ops: seq<Op<V>>)
    requires t.Valid()
    modifies t, t.flags, t.keys, t.vals
    ensures t.Valid() && t.contents == Meaning(old(t.contents), ops)
  {
    ghost var m := t.contents;
    for k := 0 to |ops|
      invariant t.Valid() && t.contents == Meaning(m, ops[..k])
      invariant (t.flags == old(t.flags) || fresh(t.flags)) && (t.keys == old(t.keys) || fresh(t.keys))
          && (t.vals == old(t.vals) || fresh(t.vals))
    {
      MeaningStep(m, ops, k);
      Perform(t, ops[k]);
    }
    assert ops[..|ops|] == ops;
  }

  /** After any sequence of puts, deletes and resizes a look-up finds exactly the live bindings. */
  method Replay<V(0)>(t: Table<V>, ops: seq<Op<V>>, key: Key) returns (x: nat)
    requires t.Valid()
    modifies t, t.flags, t.keys, t.vals
    ensures t.Valid() && t.contents == Meaning(old(t.contents), ops)
    ensures x < t.buckets <==> key in Meaning(old(t.contents), ops)
    ensures x < t.buckets ==> t.keys[x] == key && t.vals[x] == Meaning(old(t.contents), ops)[key]
  {
    PerformAll(t, ops);
    x := t.Get(key);
  }

  // ---------------------------------------------------------------- counting

  lemma NoneDeletedCounts(flags: seq<Flag>)
    requires NoneDeleted(flags)
    ensures OccupiedSet(flags) == LiveSet(flags)
  {}

  lemma SameCounts(flags: seq<Flag>)
    requires |OccupiedSet(flags)| == |LiveSet(flags)|
    ensures NoneDeleted(flags)
  {
    SubsetOfSameSize(LiveSet(flags), OccupiedSet(flags));
    assert forall j: nat | j < |flags| && flags[j] == Deleted :: j in OccupiedSet(flags);
  }

  lemma DeletedCounts(flags: seq<Flag>, x: nat)
    requires IsLive(flags, x)
    ensures |LiveSet(flags[x := Deleted])| + 1 == |LiveSet(flags)|
    ensures OccupiedSet(flags[x := Deleted]) == OccupiedSet(flags)
  {
    LiveSetUpdate(flags, x, Deleted);
    assert x in LiveSet(flags);
  }

  lemma InsertCounts(flags: seq<Flag>, x: nat)
    requires x < |flags| && flags[x] != Live
    ensures |LiveSet(flags[x := Live])| == |LiveSet(flags)| + 1
    ensures |OccupiedSet(flags[x := Live])| == |OccupiedSet(flags)| + if flags[x] == Empty then 1 else 0
  {
    LiveSetUpdate(flags, x, Live);
    assert x !in LiveSet(flags);
    if flags[x] == Empty { assert x !in OccupiedSet(flags); } else { assert x in OccupiedSet(flags)
        && OccupiedSet(flags) + {x} == OccupiedSet(flags); }
  }

  lemma LiveBelowOccupied(flags: seq<Flag>)
    ensures |LiveSet(flags)| <= |OccupiedSet(flags)|
  {
    SubsetSize(LiveSet(flags), OccupiedSet(flags));
  }

  /** Below the upper bound there is a bucket to spare. */
  lemma RoomMeansSpare(flags: seq<Flag>)
    requires |OccupiedSet(flags)| < UpperBound(|flags|)
    ensures |LiveSet(flags)| < |flags|
  {
    LiveBelowOccupied(flags);
  }

  lemma EvenPow2(p: nat)
    requires IsPow2(p) && p > 1
    ensures p % 2 == 0
  {}

  /** Few bindings fit a table of the same size. */
  lemma RoomInSame(buckets: nat, size: nat)
    requires buckets >= 4 && IsPow2(buckets) && buckets > 2 * size
    ensures size < UpperBound(NewSize(buckets - 1))
  {
    var n := NewSize(buckets - 1);
    EvenPow2(n);
    EvenPow2(buckets);
    assert n >= buckets;
  }

  /** What fits a table fits the next larger one with room to spare. */
  lemma RoomInLarger(buckets: nat, size: nat)
    requires (buckets == 0 || (buckets >= 4 && IsPow2(buckets))) && size <= UpperBound(buckets)
    ensures size < UpperBound(NewSize(buckets + 1))
  {
    var n := NewSize(buckets + 1);
    EvenPow2(n);
    assert buckets % 2 == 0;
    assert n >= buckets + 2;
  }

  function NewSize(wanted: nat): (n: nat)
    ensures n >= 4 && n >= wanted && IsPow2(n)
  {
    assert IsPow2(4) by { assert IsPow2(2); }
    var p := RoundUp(wanted);
    if p < 4 then 4 else p
  }

  /** The size as the 32-bit code computes it. */
  function NewSizeBits(wanted: bv32): bv32 {
    var p := RoundUpBits(wanted);
    if p < 4 then 4 else p
  }

  /** It is the intended size exactly up to 2^31; above, the rounding overflows and four buckets are asked for. */
  lemma NewSizeBitsIff(wanted: bv32)
    ensures Number(NewSizeBits(wanted)) == NewSize(Number(wanted)) <==> wanted <= 0x8000_0000
  {
    var p := RoundUpBits(wanted);
    NumberAtLeastFour(p);
    NumberOfFour();
    if 1 <= wanted <= 0x8000_0000 {
      RoundUpBitsRounds(wanted);
    } else {
      RoundUpBitsEdges(wanted);
      if wanted != 0 { NumberAboveFour(wanted, wanted >> 1); }
    }
  }

  method Realloc<T(0)>(a: array<T>, n: nat) returns (b: array<T>)
    ensures fresh(b) && b.Length == n
    ensures forall j: nat | j < n && j < a.Length :: b[j] == a[j]
  {
    b := new T[n];
    var m := if n < a.Length then n else a.Length;
    for j := 0 to m
      invariant forall i: nat | i < j :: b[i] == a[i]
    {
      b[j] := a[j];
    }
  }
}
