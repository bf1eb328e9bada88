/** The quorum counter of paxos/quorum.c: one cell per acceptor and a running count. */
module Quorum {
  import opened Types
  import opened Sets

  ghost function MarkedSet(ids: seq<int>): set<nat> { set a: nat | a < |ids| && ids[a] == 1 }

  lemma MarkGrows(ids: seq<int>, a: nat)
    requires a < |ids|
    ensures MarkedSet(ids[a := 1]) == MarkedSet(ids) + {a}
  {}

  class Quorum {
    const acceptors: nat
    const ids: array<int>
    var size: nat
    var count: nat

    /** The acceptors heard from. */
    ghost function Members(): set<nat>
      reads ids
    {
      MarkedSet(ids[..])
    }

    /** The count is the number of distinct acceptors heard from. */
    ghost predicate Valid()
      reads this, ids
    {
      && ids.Length == acceptors
      && (forall a | 0 <= a < acceptors :: ids[a] == 0 || ids[a] == 1)
      && count == |Members()|
    }

    constructor (acceptors: nat, size: nat)
      ensures Valid() && Members() == {} && this.size == size && this.acceptors == acceptors && fresh(ids)
    {
      this.acceptors := acceptors;
      this.size := size;
      ids := new int[acceptors];
      count := 0;
      new;
      Clear();
    }

    method Clear()
      requires ids.Length == acceptors
      modifies this`count, ids
      ensures Valid() && Members() == {}
    {
      count := 0;
      for a := 0 to acceptors
        invariant count == 0 && forall b | 0 <= b < a :: ids[b] == 0
      {
        ids[a] := 0;
      }
      assert MarkedSet(ids[..]) == {};
    }

    method ResizeAndReset(size: nat)
      requires Valid()
      modifies this, ids
      ensures Valid() && Members() == {} && this.size == size
    {
      this.size := size;
      Clear();
    }

    /** Count an acceptor once. */
    method Add(a: nat) returns (isNew: bool)
      requires Valid() && a < acceptors
      modifies this`count, ids
      ensures Valid() && Members() == old(Members()) + {a}
      ensures isNew <==> a !in old(Members())
    {
      ghost var before := ids[..];
      isNew := ids[a] == 0;
      if isNew {
        MarkGrows(before, a);
        ids[a] := 1;
        count := count + 1;
        assert ids[..] == before[a := 1];
      } else {
        assert a in Members() && Members() + {a} == Members();
      }
    }

    /** Enough distinct acceptors. */
    method Reached() returns (r: bool)
      requires Valid()
      ensures r <==> |Members()| >= size
    {
      r := count >= size;
    }
  }
}
