/** paxos/epoch_learner.c as an object: a growing list of ballot records per instance. */
module EpochLearnerObject {
  import opened Types
  import opened IidTable
  import S = EpochLearner

  /** Scan all records for a round, keeping the last match. */
  method FindRecord(records: seq<S.BallotRecord>, r: Round) returns (k: nat)
    ensures k == S.IndexOf(records, r)
  {
    k := |records|;
    for j := 0 to |records|
      invariant k == if S.IndexOf(records[..j], r) < j then S.IndexOf(records[..j], r) else |records|
    {
      assert records[..j + 1][..j] == records[..j];
      if records[j].round == r { k := j; }
    }
    assert records[..|records|] == records;
  }

  /** Count the acceptor in the record of its epoch ballot, which is created on first use. */
  method AddVote(inst0: S.Inst, a: Aid, r: Round, v: Value) returns (k: nat, isNew: bool, inst: S.Inst)
    ensures inst == S.AddVote(inst0, a, r, v) && k == S.IndexOf(inst0.records, r) < |inst.records|
    ensures isNew <==> a !in S.WithRecord(inst0.records, r)[k].quorum
  {
    k := FindRecord(inst0.records, r);
    var records := if k < |inst0.records| then inst0.records else inst0.records + [S.BallotRecord(r, [], {})];
    isNew := a !in records[k].quorum;
    inst := inst0.(records := records[k := S.AddValue(records[k].(quorum := records[k].quorum + {a}), v)]);
  }

  lemma PutTwice(l: S.Learner, i: Iid, x: S.Inst, y: S.Inst)
    ensures S.PutInst(S.PutInst(l, i, x), i, y) == S.PutInst(l, i, y)
  {
    assert l.instances[i := x][i := y] == l.instances[i := y];
  }

  class Learner {
    const q2: nat
    var min: Iid
    var highest: Iid
    var trim: Iid
    const instances: IidTable<S.Inst>
    var delivered: seq<Value>

    ghost predicate Valid()
      reads this, instances, instances.Repr
    {
      instances.Valid() && this !in instances.Repr
    }

    ghost function View(): S.Learner
      reads this, instances
    {
      S.Learner(q2, min, highest, trim, instances.bindings, delivered)
    }

    constructor (q2: nat)
      ensures Valid() && View() == S.Boot(q2) && fresh(instances.Repr)
    {
      this.q2 := q2;
      min, highest, trim, delivered := 1, 0, 0, [];
      instances := new IidTable<S.Inst>();
    }

    method GetOrCreate(i: Iid) returns (inst: S.Inst)
      requires Valid()
      modifies instances.Repr
      ensures Valid() && fresh(instances.Repr - old(instances.Repr))
      ensures inst == S.GetInst(old(View()), i) && View() == S.PutInst(old(View()), i, inst)
    {
      var found := instances.Lookup(i);
      if found.Some? {
        inst := found.value;
        assert instances.bindings[i := inst] == instances.bindings;
      } else {
        inst := S.Inst([], None);
        instances.Bind(i, inst);
      }
    }

    method Mark(i: Iid)
      requires Valid()
      modifies this`highest
      ensures Valid()
      ensures View() == S.MarkChosen(old(View()), i)
    {
      if i > highest { highest := i; }
    }

    /** The record of an instance is replaced. */
    method Put(i: Iid, inst: S.Inst)
      requires Valid() && i in View().instances
      modifies instances.Repr
      ensures Valid() && fresh(instances.Repr - old(instances.Repr))
      ensures View() == S.PutInst(old(View()), i, inst)
    {
      instances.Bind(i, inst);
    }

    method ReceiveAccepted(a: Aid, i: Iid, r: Round, v: Value) returns (out: Option<Msg>)
      requires Valid()
      modifies this`highest, instances.Repr
      ensures Valid() && fresh(instances.Repr - old(instances.Repr))
      ensures (View(), out) == S.OnAccepted(old(View()), a, i, r, v)
    {
      if i < min { return None; }
      var inst := GetOrCreate(i);
      if inst.chosen.Some? { return None; }
      var k, isNew;
      k, isNew, inst := AddVote(inst, a, r, v);
      out := None;
      if isNew && |inst.records[k].quorum| >= q2 {
        inst := inst.(chosen := Some(k));
        Mark(i);
        out := Some(Chosen(i, r, v));
      }
      PutTwice(old(View()), i, S.GetInst(old(View()), i), inst);
      Put(i, inst);
    }

    method ReceiveChosen(i: Iid, r: Round, v: Value)
      requires Valid()
      modifies this`highest, instances.Repr
      ensures Valid() && fresh(instances.Repr - old(instances.Repr))
      ensures View() == S.OnChosen(old(View()), i, r, v)
    {
      if i < min { return; }
      var inst := GetOrCreate(i);
      if inst.chosen.Some? { return; }
      var k := FindRecord(inst.records, r);
      var records := if k < |inst.records| then inst.records else inst.records + [S.BallotRecord(r, [], {})];
      assert records == S.WithRecord(inst.records, r);
      inst := S.Inst(records[k := S.AddValue(records[k], v)], Some(k));
      Mark(i);
      PutTwice(old(View()), i, S.GetInst(old(View()), i), inst);
      Put(i, inst);
    }

    method DeliverNext() returns (v: Option<Value>)
      requires Valid()
      modifies this`min, this`delivered, instances.Repr
      ensures Valid() && fresh(instances.Repr - old(instances.Repr))
      ensures View() == S.Deliver(old(View()))
      ensures v == if |delivered| > old(|delivered|) then Some(delivered[|delivered| - 1]) else None
    {
      v := None;
      var found := instances.Lookup(min);
      if found.Some? { v := S.ChosenValue(found.value); }
      if v.Some? {
        delivered := delivered + [v.value];
        instances.Unbind(min);
        min := min + 1;
      }
    }

    method CheckHoles() returns (out: Option<Msg>)
      requires Valid()
      modifies this`trim
      ensures Valid()
      ensures (View(), out) == S.Announce(old(View()))
    {
      out := None;
      if highest <= min && min - 1 > trim {
        trim := min - 1;
        out := Some(Trim(trim));
      }
    }

    /** Every message: the object takes the step that the system takes. */
    method Handle(m: Msg) returns (out: Option<Msg>)
      requires Valid()
      modifies this`highest, this`trim, instances.Repr
      ensures Valid() && fresh(instances.Repr - old(instances.Repr))
      ensures (View(), out) == S.Step(old(View()), m)
    {
      out := None;
      match m
      case Accepted(a, i, r, v) => out := ReceiveAccepted(a, i, r, v);
      case Chosen(i, r, v) => ReceiveChosen(i, r, v);
      case Trim(t) => trim := t;
      case _ =>
    }
  }
}
