/** The three tables of a proposer (paxos/standard_proposer.c:74-76, paxos/epoch_proposer.c): instances waiting for
    promises, instances waiting for acceptances, and instances known to be chosen. */
module PhaseTables {
  import opened Types
  import opened IidTable
  import SP = StandardProposer

  class PhaseTables<I(0)> {
    const prepare: IidTable<I>
    const accept: IidTable<I>
    const chosens: IidTable<bool>
    ghost var preparing: map<Iid, I>
    ghost var accepting: map<Iid, I>
    ghost var chosen: set<Iid>
    ghost var Repr: set<object>

    /** The tables are sound, write nothing of one another's, and hold what is seen. */
    ghost predicate Tables()
      reads this, Repr
    {
      && prepare in Repr && prepare.Repr <= Repr && this !in prepare.Repr
      && accept in Repr && accept.Repr <= Repr && this !in accept.Repr
      && chosens in Repr && chosens.Repr <= Repr && this !in chosens.Repr
      && prepare.Repr !! accept.Repr && prepare.Repr !! chosens.Repr && accept.Repr !! chosens.Repr
      && prepare.Valid() && accept.Valid() && chosens.Valid()
      && (forall i | i in chosens.bindings :: chosens.bindings[i])
      && (preparing, accepting, chosen) == (prepare.bindings, accept.bindings, chosens.bindings.Keys)
    }

    ghost predicate Inside() { true }

    /** Only a proof that mentions Inside() sees the tables. */
    ghost predicate Valid()
      reads this, Repr
    {
      this in Repr && forall t {:trigger t.Inside()} | t == this && t.Inside() :: t.Tables()
    }

    constructor (p: IidTable<I>, a: IidTable<I>, c: IidTable<bool>)
      requires p.Valid() && a.Valid() && c.Valid()
      requires p.Repr !! a.Repr && p.Repr !! c.Repr && a.Repr !! c.Repr
      requires p.bindings == map[] && a.bindings == map[] && c.bindings == map[]
      ensures Valid() && Repr == {this} + p.Repr + a.Repr + c.Repr
      ensures preparing == map[] && accepting == map[] && chosen == {}
    {
      prepare, accept, chosens := p, a, c;
      preparing, accepting, chosen := map[], map[], {};
      Repr := {this} + p.Repr + a.Repr + c.Repr;
      new;
      assert chosens.bindings.Keys == {} && Tables();
    }

    method GetPreparing(i: Iid) returns (inst: Option<I>)
      requires Valid()
      ensures inst == if i in preparing then Some(preparing[i]) else None
    {
      assert Inside();
      inst := prepare.Lookup(i);
    }

    method GetAccepting(i: Iid) returns (inst: Option<I>)
      requires Valid()
      ensures inst == if i in accepting then Some(accepting[i]) else None
    {
      assert Inside();
      inst := accept.Lookup(i);
    }

    method IsChosen(i: Iid) returns (r: bool)
      requires Valid()
      ensures r <==> i in chosen
    {
      assert Inside();
      var flag := chosens.Lookup(i);
      r := flag.Some? && flag.value;
    }

    method PutPreparing(i: Iid, inst: I)
      requires Valid()
      modifies Repr
      ensures Valid() && fresh(Repr - old(Repr))
      ensures preparing == old(preparing)[i := inst] && accepting == old(accepting) && chosen == old(chosen)
    {
      assert Inside();
      prepare.Bind(i, inst);
      preparing := prepare.bindings;
      Repr := Repr + prepare.Repr;
    }

    method PutAccepting(i: Iid, inst: I)
      requires Valid()
      modifies Repr
      ensures Valid() && fresh(Repr - old(Repr))
      ensures preparing == old(preparing) && accepting == old(accepting)[i := inst] && chosen == old(chosen)
    {
      assert Inside();
      accept.Bind(i, inst);
      accepting := accept.bindings;
      Repr := Repr + accept.Repr;
    }

    method SetChosen(i: Iid)
      requires Valid()
      modifies Repr
      ensures Valid() && fresh(Repr - old(Repr))
      ensures preparing == old(preparing) && accepting == old(accepting) && chosen == old(chosen) + {i}
    {
      assert Inside();
      chosens.Bind(i, true);
      chosen := chosens.bindings.Keys;
      Repr := Repr + chosens.Repr;
      assert chosen == old(chosen) + {i};
    }

    method RemovePreparing(i: Iid)
      requires Valid()
      modifies Repr
      ensures Valid() && fresh(Repr - old(Repr))
      ensures preparing == old(preparing) - {i} && accepting == old(accepting) && chosen == old(chosen)
    {
      assert Inside();
      prepare.Unbind(i);
      preparing := prepare.bindings;
    }

    method RemoveAccepting(i: Iid)
      requires Valid()
      modifies Repr
      ensures Valid() && fresh(Repr - old(Repr))
      ensures preparing == old(preparing) && accepting == old(accepting) - {i} && chosen == old(chosen)
    {
      assert Inside();
      accept.Unbind(i);
      accepting := accept.bindings;
    }

    /** Neither phase has the instance any more. */
    method RemoveBoth(i: Iid)
      requires Valid()
      modifies Repr
      ensures Valid() && fresh(Repr - old(Repr))
      ensures preparing == old(preparing) - {i} && accepting == old(accepting) - {i} && chosen == old(chosen)
    {
      RemoveAccepting(i);
      RemovePreparing(i);
    }

    /** The first phase drops the instances up to t. */
    method ClosePreparing(t: Iid)
      requires Valid()
      modifies Repr
      ensures Valid() && fresh(Repr - old(Repr)) && accepting == old(accepting) && chosen == old(chosen)
      ensures preparing == map i | i in old(preparing) && i > t :: old(preparing)[i]
    {
      assert Inside();
      prepare.CloseBelow(t + 1);
      preparing := prepare.bindings;
    }

    method CloseAccepting(t: Iid)
      requires Valid()
      modifies Repr
      ensures Valid() && fresh(Repr - old(Repr)) && preparing == old(preparing) && chosen == old(chosen)
      ensures accepting == map i | i in old(accepting) && i > t :: old(accepting)[i]
    {
      assert Inside();
      accept.CloseBelow(t + 1);
      accepting := accept.bindings;
    }

    /** The first instance from a given one on that is not in the chosen table. */
    method MinUnchosen(from: Iid) returns (n: Iid)
      requires Valid()
      ensures n == SP.MinUnchosen(chosen, from)
    {
      n := from;
      var isChosen := IsChosen(n);
      while isChosen
        invariant isChosen <==> n in chosen
        invariant SP.MinUnchosen(chosen, n) == SP.MinUnchosen(chosen, from)
        decreases SP.MinUnchosen(chosen, from) - n
      {
        n := n + 1;
        isChosen := IsChosen(n);
      }
    }

    /** Scan the prepare table for the smallest instance with a quorum that is not chosen. */
    method MinReady(reached: I -> bool) returns (found: Option<Iid>)
      requires Valid()
      ensures found.None? ==> forall i | i in preparing && reached(preparing[i]) :: i in chosen
      ensures found.Some? ==> found.value in preparing && reached(preparing[found.value]) && found.value !in chosen
      ensures found.Some? ==> forall i | i in preparing && reached(preparing[i]) && i !in chosen :: found.value <= i
    {
      found := None;
      var todo := Pending();
      for k := 0 to |todo|
        invariant found.Some? ==> found.value in preparing && reached(preparing[found.value]) && found.value !in chosen
        invariant forall j | 0 <= j < k && reached(todo[j].1) && todo[j].0 !in chosen ::
          found.Some? && found.value <= todo[j].0
      {
        var isChosen := IsChosen(todo[k].0);
        if reached(todo[k].1) && !isChosen && (found.None? || found.value > todo[k].0) {
          found := Some(todo[k].0);
        }
      }
      forall i | i in preparing && reached(preparing[i]) && i !in chosen ensures found.Some? && found.value <= i {
        var j :| 0 <= j < |todo| && todo[j] == (i, preparing[i]);
      }
    }

    method Pending() returns (s: seq<(Iid, I)>)
      requires Valid()
      ensures forall k | 0 <= k < |s| :: s[k].0 in preparing && preparing[s[k].0] == s[k].1
      ensures forall i | i in preparing :: (i, preparing[i]) in s
    {
      assert Inside();
      s := prepare.Entries();
    }
  }

  /** Three empty tables. */
  method New<I(0)>() returns (t: PhaseTables<I>)
    ensures t.Valid() && fresh(t.Repr) && t.preparing == map[] && t.accepting == map[] && t.chosen == {}
  {
    var p := new IidTable<I>();
    var a := new IidTable<I>();
    var c := new IidTable<bool>();
    t := new PhaseTables<I>(p, a, c);
  }
}
