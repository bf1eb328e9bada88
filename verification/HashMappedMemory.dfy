/** The acceptors' in-memory store of paxos/hash_mapped_memory.c as an object over three hash tables. */
module HashMappedMemory {
  import opened Types
  import opened IidTable
  import M = Memory

  class HashMappedMemory {
    const promises: IidTable<Ballot>
    const accepts: IidTable<(Ballot, Value)>
    const chosen: IidTable<bool>
    var minChosen: nat
    ghost var view: M.Memory
    ghost var Repr: set<object>

    /** The tables are sound, write nothing of one another's, and hold what is seen. */
    ghost predicate Tables()
      reads this, Repr
    {
      && promises in Repr && promises.Repr <= Repr && this !in promises.Repr
      && accepts in Repr && accepts.Repr <= Repr && this !in accepts.Repr
      && chosen in Repr && chosen.Repr <= Repr && this !in chosen.Repr
      && promises.Repr !! accepts.Repr && promises.Repr !! chosen.Repr && accepts.Repr !! chosen.Repr
      && promises.Valid() && accepts.Valid() && chosen.Valid()
      && (forall i | i in chosen.bindings :: chosen.bindings[i])
      && (view.promises, view.accepts, view.chosen) == (promises.bindings, accepts.bindings, chosen.bindings.Keys)
    }

    ghost predicate Inside() { true }

    /** The user of a store need not know how its tables work: only a proof that mentions Inside() sees them. */
    ghost predicate Valid()
      reads this, Repr
    {
      && this in Repr && view.minChosen == minChosen
      && forall m {:trigger m.Inside()} | m == this && m.Inside() :: m.Tables()
    }

    constructor (p: IidTable<Ballot>, a: IidTable<(Ballot, Value)>, c: IidTable<bool>)
      requires p.Valid() && a.Valid() && c.Valid()
      requires p.Repr !! a.Repr && p.Repr !! c.Repr && a.Repr !! c.Repr
      requires p.bindings == map[] && a.bindings == map[] && c.bindings == map[]
      ensures Valid() && view == M.Memory(map[], map[], {}, 0) && Repr == {this} + p.Repr + a.Repr + c.Repr
    {
      promises, accepts, chosen, minChosen := p, a, c, 0;
      view := M.Memory(map[], map[], {}, 0);
      Repr := {this} + p.Repr + a.Repr + c.Repr;
      new;
      assert chosen.bindings.Keys == {} && Tables();
    }

    method GetPromise(i: Iid) returns (b: Ballot)
      requires Valid()
      ensures b == M.LastPromise(view, i)
    {
      assert Inside();
      var p := promises.Lookup(i);
      b := if p.Some? then p.value else INVALID_BALLOT;
    }

    method GetAccept(i: Iid) returns (v: Option<(Ballot, Value)>)
      requires Valid()
      ensures v == if i in view.accepts then Some(view.accepts[i]) else None
    {
      assert Inside();
      v := accepts.Lookup(i);
    }

    method GetInfo(i: Iid) returns (r: M.Record)
      requires Valid()
      ensures r == M.Info(view, i)
    {
      var b := GetPromise(i);
      var v := GetAccept(i);
      r := if v.Some? then M.Record(b, v.value.0, v.value.1) else M.Record(b, INVALID_BALLOT, []);
    }

    method StorePromise(i: Iid, b: Ballot)
      requires Valid()
      modifies Repr
      ensures Valid() && view == M.StorePromise(old(view), i, b) && fresh(Repr - old(Repr))
    {
      assert Inside();
      promises.Bind(i, b);
      view := view.(promises := promises.bindings);
      Repr := Repr + promises.Repr;
    }

    method StoreAccept(i: Iid, b: Ballot, v: Value)
      requires Valid()
      modifies Repr
      ensures Valid() && fresh(Repr - old(Repr))
      ensures view == old(view).(accepts := old(view).accepts[i := (b, v)])
    {
      assert Inside();
      accepts.Bind(i, (b, v));
      view := view.(accepts := accepts.bindings);
      Repr := Repr + accepts.Repr;
    }

    /** The record is split into its promise and its vote. */
    method StoreInfo(i: Iid, r: M.Record)
      requires Valid()
      modifies Repr
      ensures Valid() && view == M.Store(old(view), i, r) && fresh(Repr - old(Repr))
    {
      StorePromise(i, r.promise);
      StoreAccept(i, r.valueBallot, r.value);
    }

    method IsChosen(i: Iid) returns (r: bool)
      requires Valid()
      ensures r <==> i in view.chosen
    {
      assert Inside();
      var flag := chosen.Lookup(i);
      r := flag.Some? && flag.value;
    }

    method Flag(i: Iid)
      requires Valid()
      modifies Repr
      ensures Valid() && fresh(Repr - old(Repr))
      ensures view == old(view).(chosen := old(view).chosen + {i})
    {
      assert Inside();
      BindKeys(chosen.bindings, i, true);
      chosen.Bind(i, true);
      view := view.(chosen := chosen.bindings.Keys);
      Repr := Repr + chosen.Repr;
    }

    /** Flag an instance, then push the chosen prefix as far as flags follow one another, up to this instance. */
    method SetChosen(i: Iid)
      requires Valid()
      modifies Repr
      ensures Valid() && view == M.SetChosen(old(view), i) && fresh(Repr - old(Repr))
    {
      Flag(i);
      AdvancePrefix(i);
    }

    method AdvancePrefix(i: Iid)
      requires Valid()
      modifies this`minChosen, this`view
      ensures Valid()
      ensures view == old(view).(minChosen := M.Advance(old(view).chosen, old(minChosen), i))
    {
      ghost var was := view;
      var k := minChosen + 1;
      while k <= i
        invariant Valid() && view == was.(minChosen := k - 1)
        invariant M.Advance(was.chosen, k - 1, i) == M.Advance(was.chosen, was.minChosen, i)
      {
        var isChosen := IsChosen(k);
        if !isChosen { break; }
        SetMin(k);
        k := k + 1;
      }
    }

    method SetMin(k: Iid)
      requires Valid()
      modifies this`minChosen, this`view
      ensures Valid() && view == old(view).(minChosen := k)
    {
      minChosen := k;
      view := view.(minChosen := k);
    }

    /** Forget every instance below the cut-off, table by table. */
    method TrimBelow(cutoff: nat)
      requires Valid()
      modifies Repr
      ensures Valid() && view == M.DropBelow(old(view), cutoff) && Repr == old(Repr)
    {
      assert Inside();
      promises.CloseBelow(cutoff);
      accepts.CloseBelow(cutoff);
      chosen.CloseBelow(cutoff);
      view := M.DropBelow(view, cutoff);
    }
  }

  /** Three empty tables. */
  method New() returns (m: HashMappedMemory)
    ensures m.Valid() && fresh(m.Repr) && m.view == M.Memory(map[], map[], {}, 0)
  {
    var p := new IidTable<Ballot>();
    var a := new IidTable<(Ballot, Value)>();
    var c := new IidTable<bool>();
    m := new HashMappedMemory(p, a, c);
  }

  /** A store holding the stable records above the trim point. */
  method FromRecords(disk: map<Iid, M.Record>, trim: Iid) returns (m: HashMappedMemory)
    ensures m.Valid() && fresh(m.Repr) && m.view == M.Rebuild(disk, trim)
  {
    m := New();
    var all := set i | i in disk && i > trim;
    NoneYet(disk, trim, all);
    NoneLeft(disk, trim);
    PutRecords(m, disk, trim, all);
  }

  /** The missing records are put in one by one. */
  method PutRecords(m: HashMappedMemory, disk: map<Iid, M.Record>, ghost trim: Iid, missing: set<Iid>)
    requires m.Valid() && m.view == PartlyRebuilt(disk, trim, missing)
    requires forall i | i in missing :: i in disk && i > trim
    modifies m.Repr
    ensures m.Valid() && m.view == PartlyRebuilt(disk, trim, {}) && fresh(m.Repr - old(m.Repr))
  {
    var todo := missing;
    while todo != {}
      invariant m.Valid() && fresh(m.Repr - old(m.Repr)) && todo <= missing
      invariant m.view == PartlyRebuilt(disk, trim, todo)
      decreases |todo|
    {
      var i :| i in todo;
      PutRecord(m, disk, trim, todo, i);
      todo := todo - {i};
    }
  }

  method PutRecord(m: HashMappedMemory, disk: map<Iid, M.Record>, ghost trim: Iid, ghost todo: set<Iid>, i: Iid)
    requires m.Valid() && m.view == PartlyRebuilt(disk, trim, todo) && i in todo && i in disk && i > trim
    modifies m.Repr
    ensures m.Valid() && m.view == PartlyRebuilt(disk, trim, todo - {i}) && fresh(m.Repr - old(m.Repr))
  {
    PutOne(disk, trim, todo, i);
    m.StoreInfo(i, disk[i]);
  }

  lemma BindKeys<V>(m: map<Iid, V>, i: Iid, v: V)
    ensures m[i := v].Keys == m.Keys + {i}
  {}

  /** What has been put in when `todo` is still missing. */
  ghost function PartlyRebuilt(disk: map<Iid, M.Record>, trim: Iid, todo: set<Iid>): M.Memory {
    M.Memory(map i | i in disk && i > trim && i !in todo :: disk[i].promise,
             map i | i in disk && i > trim && i !in todo :: (disk[i].valueBallot, disk[i].value),
             {}, 0)
  }

  lemma PutOne(disk: map<Iid, M.Record>, trim: Iid, todo: set<Iid>, i: Iid)
    requires i in todo && i in disk && i > trim
    ensures M.Store(PartlyRebuilt(disk, trim, todo), i, disk[i]) == PartlyRebuilt(disk, trim, todo - {i})
  {}

  lemma NoneYet(disk: map<Iid, M.Record>, trim: Iid, all: set<Iid>)
    requires all == set i | i in disk && i > trim
    ensures PartlyRebuilt(disk, trim, all) == M.Memory(map[], map[], {}, 0)
  {}

  lemma NoneLeft(disk: map<Iid, M.Record>, trim: Iid)
    ensures PartlyRebuilt(disk, trim, {}) == M.Rebuild(disk, trim)
  {}
}
