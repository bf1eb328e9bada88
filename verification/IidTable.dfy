/** A khash table keyed by instance, as every store of the library keeps one (KHASH_MAP_INIT_INT): the hash of an
    instance identifier is the identifier itself. `bindings` is what a caller sees, `Repr` what the table may write. */
module IidTable {
  import opened Types
  import opened KHashSpec
  import KHash

  class IidTable<V(0)> {
    const table: KHash.Table<V>
    ghost var bindings: map<Iid, V>
    ghost var Repr: set<object>

    ghost predicate Inside() { true }

    /** Only a proof that mentions Inside() sees how the table works. */
    ghost predicate Valid()
      reads this, Repr
    {
      && this in Repr && table in Repr && table.flags in Repr && table.keys in Repr && table.vals in Repr
      && forall t {:trigger t.Inside()} | t == this && t.Inside() :: t.table.Valid() && t.bindings == t.table.contents
    }

    constructor ()
      ensures Valid() && bindings == map[] && fresh(Repr)
    {
      table := new KHash.Table<V>((k: Key) => k);
      bindings := map[];
      new;
      Repr := {this, table, table.flags, table.keys, table.vals};
    }

    method Lookup(i: Iid) returns (v: Option<V>)
      requires Valid()
      ensures v == if i in bindings then Some(bindings[i]) else None
    {
      assert Inside();
      var x := table.Get(i);
      if x < table.buckets { v := Some(table.vals[x]); } else { v := None; }
    }

    /** Every binding, in the order of the buckets. */
    method Entries() returns (s: seq<(Iid, V)>)
      requires Valid()
      ensures forall k | 0 <= k < |s| :: s[k].0 in bindings && bindings[s[k].0] == s[k].1
      ensures forall i | i in bindings :: (i, bindings[i]) in s
    {
      assert Inside();
      s := KHash.Entries(table);
    }

    method Bind(i: Iid, v: V)
      requires Valid()
      modifies Repr
      ensures Valid() && bindings == old(bindings)[i := v] && fresh(Repr - old(Repr))
    {
      assert Inside();
      KHash.Bind(table, i, v);
      bindings := table.contents;
      Repr := Repr + {table.flags} + {table.keys} + {table.vals};
    }

    method Unbind(i: Iid)
      requires Valid()
      modifies Repr
      ensures Valid() && bindings == old(bindings) - {i} && Repr == old(Repr)
    {
      assert Inside();
      KHash.Unbind(table, i);
      bindings := table.contents;
    }

    /** Visit every bucket and close the instances below the cut-off. */
    method CloseBelow(cutoff: nat)
      requires Valid()
      modifies Repr
      ensures Valid() && Repr == old(Repr)
      ensures bindings == map i | i in old(bindings) && i >= cutoff :: old(bindings)[i]
    {
      assert Inside();
      KHash.CloseBelow(table, cutoff);
      bindings := table.contents;
    }
  }
}
