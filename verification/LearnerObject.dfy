/** paxos/learner.c as an object. */
module LearnerObject {
  import opened Types
  import opened IidTable
  import S = Learner

  lemma PutTwice(l: S.Learner, i: Iid, x: S.Inst, y: S.Inst)
    ensures S.PutInst(S.PutInst(l, i, x), i, y) == S.PutInst(l, i, y)
  {
    assert l.instances[i := x][i := y] == l.instances[i := y];
  }

  class Learner {
    const q2: nat
    var min: Iid
    var highest: Iid
    var trim: Iid
    const instances: IidTable<S.Inst>
    var delivered: seq<Value>

    ghost predicate Valid()
      reads this, instances, instances.Repr
    {
      instances.Valid() && this !in instances.Repr
    }

    ghost function View(): S.Learner
      reads this, instances
    {
      S.Learner(q2, min, highest, trim, instances.bindings, delivered)
    }

    constructor (q2: nat)
      ensures Valid() && View() == S.Boot(q2) && fresh(instances.Repr)
    {
      this.q2 := q2;
      min, highest, trim, delivered := 1, 0, 0, [];
      instances := new IidTable<S.Inst>();
    }

    /** The record of an instance, created on first use. */
    method GetOrCreate(i: Iid) returns (inst: S.Inst)
      requires Valid()
      modifies instances.Repr
      ensures Valid() && fresh(instances.Repr - old(instances.Repr))
      ensures inst == S.GetInst(old(View()), i) && View() == S.PutInst(old(View()), i, inst)
    {
      var found := instances.Lookup(i);
      if found.Some? {
        inst := found.value;
        assert instances.bindings[i := inst] == instances.bindings;
      } else {
        inst := S.Inst(INVALID_BALLOT, [], {}, false);
        instances.Bind(i, inst);
      }
    }

    /** The record of an instance is replaced. */
    method Put(i: Iid, inst: S.Inst)
      requires Valid() && i in View().instances
      modifies instances.Repr
      ensures Valid() && fresh(instances.Repr - old(instances.Repr))
      ensures View() == S.PutInst(old(View()), i, inst)
    {
      instances.Bind(i, inst);
    }

    method ReceiveAccepted(a: Aid, i: Iid, b: Ballot, v: Value) returns (out: Option<Msg>)
      requires Valid()
      modifies this`highest, instances.Repr
      ensures Valid() && fresh(instances.Repr - old(instances.Repr))
      ensures (View(), out) == S.OnAccepted(old(View()), a, i, b, v)
    {
      if i < min { return None; }
      var inst := GetOrCreate(i);
      if inst.chosen || BallotGt(inst.ballot, b) { return None; }
      if BallotGt(b, inst.ballot) { inst := inst.(ballot := b, value := v, quorum := {}); }
      out := None;
      if a !in inst.quorum {
        inst := inst.(quorum := inst.quorum + {a});
        if |inst.quorum| >= q2 {
          inst := inst.(chosen := true);
          if i > highest { highest := i; }
          out := Some(Chosen(i, Classic(b), v));
        }
      }
      PutTwice(old(View()), i, S.GetInst(old(View()), i), inst);
      Put(i, inst);
    }

    method ReceiveChosen(i: Iid, b: Ballot, v: Value)
      requires Valid()
      modifies this`highest, instances.Repr
      ensures Valid() && fresh(instances.Repr - old(instances.Repr))
      ensures View() == S.OnChosen(old(View()), i, b, v)
    {
      if i < min { return; }
      var inst := GetOrCreate(i);
      if inst.chosen { return; }
      instances.Bind(i, inst.(ballot := b, value := v, chosen := true));
      if i > highest { highest := i; }
    }

    method DeliverNext() returns (v: Option<Value>)
      requires Valid()
      modifies this`min, this`delivered, instances.Repr
      ensures Valid() && fresh(instances.Repr - old(instances.Repr))
      ensures View() == S.Deliver(old(View()))
      ensures v == if |delivered| > old(|delivered|) then Some(delivered[|delivered| - 1]) else None
    {
      var found := instances.Lookup(min);
      if found.Some? && found.value.chosen {
        v := Some(found.value.value);
        delivered := delivered + [v.value];
        instances.Unbind(min);
        min := min + 1;
      } else {
        v := None;
      }
    }

    method CheckHoles() returns (out: Option<Msg>)
      requires Valid()
      modifies this`trim
      ensures Valid()
      ensures (View(), out) == S.Announce(old(View()))
    {
      out := None;
      if highest <= min && min - 1 > trim {
        trim := min - 1;
        out := Some(Trim(trim));
      }
    }

    /** Every message: the object takes the step that the system takes. */
    method Handle(m: Msg) returns (out: Option<Msg>)
      requires Valid()
      modifies this`highest, this`trim, instances.Repr
      ensures Valid() && fresh(instances.Repr - old(instances.Repr))
      ensures (View(), out) == S.Step(old(View()), m)
    {
      out := None;
      match m
      case Accepted(a, i, r, v) => out := ReceiveAccepted(a, i, r.ballot, v);
      case Chosen(i, r, v) => ReceiveChosen(i, r.ballot, v);
      case Trim(t) => trim := t;
      case _ =>
    }
  }
}
