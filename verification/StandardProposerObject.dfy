/** paxos/standard_proposer.c as an object: the prepare, accept and chosen tables and the counters. */
module StandardProposerObject {
  import opened Types
  import opened PhaseTables
  import S = StandardProposer

  class Proposer {
    const id: Pid
    const q1: nat
    const q2: nat
    const jump: nat
    const tables: PhaseTables<S.Inst>
    var maxChosen: Iid
    var trim: Iid
    var next: Iid

    ghost predicate Valid()
      reads this, tables, tables.Repr
    {
      tables.Valid() && this !in tables.Repr
    }

    ghost function View(): S.Proposer
      reads this, tables
    {
      S.Proposer(id, q1, q2, tables.preparing, tables.accepting, tables.chosen, maxChosen, trim, next, jump)
    }

    constructor (id: Pid, q1: nat, q2: nat, jump: nat)
      ensures Valid() && View() == S.Boot(id, q1, q2, jump) && fresh(tables.Repr)
    {
      this.id, this.q1, this.q2, this.jump := id, q1, q2, jump;
      maxChosen, trim, next := 0, 0, 1;
      var empty := New<S.Inst>();
      tables := empty;
    }

    method MinUnchosen() returns (n: Iid)
      requires Valid()
      ensures n == S.MinUnchosen(View().chosens, trim + 1)
    {
      n := tables.MinUnchosen(trim + 1);
    }

    method SkipIf(closed: bool)
      requires Valid()
      modifies this`next
      ensures Valid() && next == old(next) + if closed then 1 else 0
    {
      if closed { next := next + 1; }
    }

    method TryStart(i: Iid, b: Ballot) returns (out: Option<Msg>)
      requires Valid()
      modifies this`next, tables.Repr
      ensures Valid() && fresh(tables.Repr - old(tables.Repr))
      ensures (View(), out) == S.TryStart(old(View()), i, b)
    {
      var isChosen := tables.IsChosen(i);
      var accepting := tables.GetAccepting(i);
      var preparing := tables.GetPreparing(i);
      SkipIf(i <= trim);
      SkipIf(isChosen);
      SkipIf(accepting.Some?);
      SkipIf(preparing.Some?);
      if preparing.Some? {
        out := None;
      } else {
        tables.PutPreparing(i, S.NewInst(b, q1));
        out := Some(Prepare(i, Classic(b)));
      }
    }

    /** Trimmed or known to be chosen: nothing more to do for the instance. */
    method IsClosed(i: Iid) returns (r: bool)
      requires Valid()
      ensures r <==> i <= trim || i in View().chosens
    {
      r := tables.IsChosen(i);
      r := r || i <= trim;
    }

    method ReceivePromise(a: Aid, i: Iid, b: Ballot, vb: Ballot, v: Value)
      requires Valid()
      modifies tables.Repr
      ensures Valid() && fresh(tables.Repr - old(tables.Repr))
      ensures View() == S.OnPromise(old(View()), a, i, b, vb, v)
    {
      var closed := IsClosed(i);
      var found := tables.GetPreparing(i);
      if closed || found.None? { return; }
      var inst := found.value;
      if BallotGt(inst.ballot, b) || a in inst.quorum { return; }
      inst := inst.(quorum := inst.quorum + {a});
      if BallotGt(vb, inst.lastBallot) { inst := inst.(lastBallot := vb, lastValue := Some(v)); }
      tables.PutPreparing(i, inst);
    }

    /** Scan the prepare table for the smallest instance with a promise quorum that is not chosen. */
    method GetMinReady() returns (found: Option<Iid>)
      requires Valid()
      ensures found.None? ==> forall i | i in View().prepare :: !S.ReadyToAccept(View(), i)
      ensures found.Some? ==> S.IsMinReady(View(), found.value)
    {
      found := tables.MinReady((inst: S.Inst) => S.QuorumReached(inst));
    }

    /** Begin the accept phase of the smallest ready instance, if there is one and it has something to propose.
        `client` is what the value manager would hand out. */
    method TryAccept(client: Option<Value>) returns (i: Option<Iid>, out: Option<Msg>)
      requires Valid()
      modifies tables.Repr
      ensures Valid() && fresh(tables.Repr - old(tables.Repr))
      ensures i.Some? ==>
        S.IsMinReady(old(View()), i.value) && (View(), out) == S.BeginAccept(old(View()), i.value, client)
      ensures i.None? ==>
        View() == old(View()) && out.None? && forall j | j in View().prepare :: !S.ReadyToAccept(View(), j)
    {
      i := GetMinReady();
      out := None;
      if i.None? { return; }
      var found := tables.GetPreparing(i.value);
      var inst := found.value;
      inst := inst.(proposing := if inst.lastValue.Some? then inst.lastValue else client);
      if inst.proposing.None? { return; }
      inst := inst.(lastValue := None, quorum := {}, size := q2);
      tables.RemovePreparing(i.value);
      tables.PutAccepting(i.value, inst);
      out := Some(Accept(i.value, Classic(inst.ballot), inst.proposing.value));
    }

    method ReceiveTrim(t: Iid)
      requires Valid()
      modifies this`trim, this`next, tables.Repr
      ensures Valid() && fresh(tables.Repr - old(tables.Repr))
      ensures View() == S.OnTrim(old(View()), t)
    {
      if t <= trim { return; }
      trim := t;
      tables.ClosePreparing(t);
      tables.CloseAccepting(t);
      if t >= next { next := t + 1 + jump; }
    }

    method ReceiveChosen(i: Iid)
      requires Valid()
      modifies this`maxChosen, this`trim, this`next, tables.Repr
      ensures Valid() && fresh(tables.Repr - old(tables.Repr))
      ensures View() == S.OnChosen(old(View()), i)
    {
      var isChosen := tables.IsChosen(i);
      if isChosen { return; }
      tables.SetChosen(i);
      if maxChosen < i { maxChosen := i; }
      tables.RemoveBoth(i);
      var n := MinUnchosen();
      if n >= i { ReceiveTrim(i); }
    }

    method ReceiveAccepted(a: Aid, i: Iid, vb: Ballot, v: Value) returns (out: Option<Msg>)
      requires Valid()
      modifies this`maxChosen, this`trim, this`next, tables.Repr
      ensures Valid() && fresh(tables.Repr - old(tables.Repr))
      ensures (View(), out) == S.OnAccepted(old(View()), a, i, vb, v)
    {
      out := None;
      var closed := IsClosed(i);
      var found := tables.GetAccepting(i);
      if closed || found.None? { return; }
      var inst := found.value;
      if vb != inst.ballot || a in inst.quorum { return; }
      inst := inst.(quorum := inst.quorum + {a});
      tables.PutAccepting(i, inst);
      if |inst.quorum| >= inst.size {
        out := Some(Chosen(i, Classic(vb), v));
        ReceiveChosen(i);
      }
    }

    method ReceivePreempted(i: Iid, attempted: Ballot, b: Ballot) returns (out: Option<Msg>)
      requires Valid()
      modifies tables.Repr
      ensures Valid() && fresh(tables.Repr - old(tables.Repr))
      ensures (View(), out) == S.OnPreempted(old(View()), i, attempted, b)
    {
      out := None;
      var closed := IsClosed(i);
      if closed { return; }
      var preparing := tables.GetPreparing(i);
      if preparing.Some? && preparing.value.ballot == attempted {
        tables.PutPreparing(i, S.Preempt(preparing.value, b, preparing.value.size));
        out := Some(Prepare(i, Classic(b)));
      }
      var accepting := tables.GetAccepting(i);
      if accepting.Some? && accepting.value.ballot == attempted {
        tables.RemoveAccepting(i);
        tables.PutPreparing(i, S.Preempt(accepting.value, b, q1));
        out := Some(Prepare(i, Classic(b)));
      }
    }

    /** Every message: the object takes the step that the system takes. `b` is the next ballot of the ballot giver. */
    method Handle(m: Msg, b: Ballot) returns (out: Option<Msg>)
      requires Valid()
      modifies this`maxChosen, this`trim, this`next, tables.Repr
      ensures Valid() && fresh(tables.Repr - old(tables.Repr))
      ensures (View(), out) == S.Step(old(View()), m, b)
    {
      out := None;
      match m
      case Promise(a, i, r, lr, lv) =>
        if r.ballot.proposer == id { ReceivePromise(a, i, r.ballot, lr.ballot, lv); }
      case Accepted(a, i, r, v) =>
        if r.ballot.proposer == id { out := ReceiveAccepted(a, i, r.ballot, v); }
      case Preempted(_, i, attempted, _) =>
        if attempted.ballot.proposer == id { out := ReceivePreempted(i, attempted.ballot, b); }
      case Chosen(i, _, _) => ReceiveChosen(i);
      case Trim(t) => ReceiveTrim(t);
      case _ =>
    }
  }
}
