/** paxos/epoch_proposer.c as an object. */
module EpochProposerObject {
  import opened Types
  import opened PhaseTables
  import S = EpochProposer

  class Proposer {
    const id: Pid
    const q1: nat
    const q2: nat
    const jump: nat
    const tables: PhaseTables<S.Inst>
    var maxChosen: Iid
    var trim: Iid
    var next: Iid
    var highestEpoch: nat

    ghost predicate Valid()
      reads this, tables, tables.Repr
    {
      tables.Valid() && this !in tables.Repr
    }

    ghost function View(): S.Proposer
      reads this, tables
    {
      S.Proposer(id, q1, q2, tables.preparing, tables.accepting, tables.chosen,
                 maxChosen, trim, next, jump, highestEpoch)
    }

    constructor (id: Pid, q1: nat, q2: nat, jump: nat)
      ensures Valid() && View() == S.Boot(id, q1, q2, jump) && fresh(tables.Repr)
    {
      this.id, this.q1, this.q2, this.jump := id, q1, q2, jump;
      maxChosen, trim, next, highestEpoch := 0, 0, 1, 0;
      var empty := New<S.Inst>();
      tables := empty;
    }

    method SeeEpoch(e: nat)
      requires Valid()
      modifies this`highestEpoch
      ensures Valid() && highestEpoch == Max(e, old(highestEpoch))
    {
      if e > highestEpoch { highestEpoch := e; }
    }

    method SkipIf(closed: bool)
      requires Valid()
      modifies this`next
      ensures Valid() && next == old(next) + if closed then 1 else 0
    {
      if closed { next := next + 1; }
    }

    method TryStart(i: Iid, b: Ballot) returns (out: Option<Msg>)
      requires Valid()
      modifies this`next, tables.Repr
      ensures Valid() && fresh(tables.Repr - old(tables.Repr))
      ensures (View(), out) == S.TryStart(old(View()), i, b)
    {
      out := None;
      var closed := IsClosed(i);
      SkipIf(closed);
      if closed { return; }
      var accepting := tables.GetAccepting(i);
      var preparing := tables.GetPreparing(i);
      SkipIf(accepting.Some?);
      SkipIf(preparing.Some?);
      if preparing.None? {
        var inst := S.NewInst(b, highestEpoch, q1);
        tables.PutPreparing(i, inst);
        out := Some(S.PrepareMsg(i, inst));
      }
    }

    /** Trimmed or known to be chosen: nothing more to do for the instance. */
    method IsClosed(i: Iid) returns (r: bool)
      requires Valid()
      ensures r <==> i <= trim || i in View().chosens
    {
      r := tables.IsChosen(i);
      r := r || i <= trim;
    }

    method ReceiveTrim(t: Iid)
      requires Valid()
      modifies this`trim, this`next, tables.Repr
      ensures Valid() && fresh(tables.Repr - old(tables.Repr))
      ensures View() == S.OnTrim(old(View()), t)
    {
      if t <= trim { return; }
      trim := t;
      tables.ClosePreparing(t);
      tables.CloseAccepting(t);
      if t > next { next := t + 1 + jump; }
    }

    method NoteChosen(i: Iid, e: nat)
      requires Valid()
      modifies this`maxChosen, this`highestEpoch, tables.Repr
      ensures Valid() && fresh(tables.Repr - old(tables.Repr))
      ensures View() == old(View()).(chosens := old(View()).chosens + {i}, maxChosen := Max(i, old(maxChosen)),
                                     highestEpoch := Max(e, old(highestEpoch)))
    {
      tables.SetChosen(i);
      if maxChosen < i { maxChosen := i; }
      SeeEpoch(e);
    }

    method ReceiveChosen(i: Iid, r: Round)
      requires Valid()
      modifies this`maxChosen, this`trim, this`next, this`highestEpoch, tables.Repr
      ensures Valid() && fresh(tables.Repr - old(tables.Repr))
      ensures View() == S.OnChosen(old(View()), i, r)
    {
      var isChosen := tables.IsChosen(i);
      if isChosen { return; }
      NoteChosen(i, r.epoch);
      var preparing := tables.GetPreparing(i);
      var accepting := tables.GetAccepting(i);
      if preparing.None? && accepting.None? { return; }
      tables.RemoveBoth(i);
      var n := tables.MinUnchosen(trim + 1);
      if n >= i { ReceiveTrim(i); }
    }

    /** Keep the highest report, and how many of the quorum gave it. */
    method CheckReport(inst0: S.Inst, lr: Round, lv: Value) returns (inst: S.Inst)
      ensures inst == S.HandleReport(inst0, lr, lv)
    {
      inst := inst0;
      if RoundGt(lr, inst.lastRound) {
        inst := inst.(lastRound := lr, lastValue := Some(lv), same := 1);
      } else if lr == inst.lastRound && RoundGt(lr, ZERO) {
        inst := inst.(same := inst.same + 1);
      }
    }

    method CountPromise(a: Aid, i: Iid, r: Round, lr: Round, lv: Value) returns (out: Option<Msg>)
      requires Valid() && i in View().prepare
      modifies this`maxChosen, this`trim, this`next, this`highestEpoch, tables.Repr
      ensures Valid() && fresh(tables.Repr - old(tables.Repr))
      ensures (View(), out) == S.Count(old(View()), a, i, r, lr, lv)
    {
      out := None;
      var found := tables.GetPreparing(i);
      var inst := found.value;
      if inst.epoch == 0 { inst := inst.(epoch := r.epoch); }
      if a in inst.quorum {
        tables.PutPreparing(i, inst);
        return;
      }
      SeeEpoch(r.epoch);
      inst := CheckReport(inst.(quorum := inst.quorum + {a}), lr, lv);
      tables.PutPreparing(i, inst);
      if inst.same >= q2 && inst.lastValue.Some? {
        out := Some(Chosen(i, inst.lastRound, inst.lastValue.value));
        ReceiveChosen(i, inst.lastRound);
      }
    }

    method ReceivePromise(a: Aid, i: Iid, r: Round, lr: Round, lv: Value) returns (out: Option<Msg>)
      requires Valid()
      modifies this`maxChosen, this`trim, this`next, this`highestEpoch, tables.Repr
      ensures Valid() && fresh(tables.Repr - old(tables.Repr))
      ensures (View(), out) == S.OnPromise(old(View()), a, i, r, lr, lv)
    {
      out := None;
      var closed := IsClosed(i);
      var found := tables.GetPreparing(i);
      if closed || found.None? { return; }
      var inst := found.value;
      if S.IsOutdated(inst, r) { return; }
      if S.IsCurrent(inst, r) {
        out := CountPromise(a, i, r, lr, lv);
      } else {
        SeeEpoch(r.epoch);
        tables.PutPreparing(i, S.AdoptEpoch(inst, r.epoch));
        var early := CountPromise(a, i, r, lr, lv);
        out := Some(Prepare(i, r));
      }
    }

    method GetMinReady() returns (found: Option<Iid>)
      requires Valid()
      ensures found.None? ==> forall i | i in View().prepare :: !S.ReadyToAccept(View(), i)
      ensures found.Some? ==> S.IsMinReady(View(), found.value)
    {
      found := tables.MinReady((inst: S.Inst) => S.QuorumReached(inst));
    }

    method TryAccept(client: Option<Value>) returns (i: Option<Iid>, out: Option<Msg>)
      requires Valid()
      modifies tables.Repr
      ensures Valid() && fresh(tables.Repr - old(tables.Repr))
      ensures i.Some? ==>
        S.IsMinReady(old(View()), i.value) && (View(), out) == S.BeginAccept(old(View()), i.value, client)
      ensures i.None? ==>
        View() == old(View()) && out.None? && forall j | j in View().prepare :: !S.ReadyToAccept(View(), j)
    {
      i := GetMinReady();
      out := None;
      if i.None? { return; }
      var found := tables.GetPreparing(i.value);
      var inst := found.value;
      inst := inst.(proposing := if inst.lastValue.Some? then inst.lastValue else client);
      if inst.proposing.None? { return; }
      inst := inst.(lastValue := None, quorum := {}, size := q2);
      tables.RemovePreparing(i.value);
      tables.PutAccepting(i.value, inst);
      out := Some(Accept(i.value, S.Current(inst), inst.proposing.value));
    }

    method ReceiveAccepted(a: Aid, i: Iid, r: Round, v: Value) returns (out: Option<Msg>)
      requires Valid()
      modifies this`maxChosen, this`trim, this`next, this`highestEpoch, tables.Repr
      ensures Valid() && fresh(tables.Repr - old(tables.Repr))
      ensures (View(), out) == S.OnAccepted(old(View()), a, i, r, v)
    {
      out := None;
      var closed := IsClosed(i);
      var found := tables.GetAccepting(i);
      if closed || found.None? { return; }
      var inst := found.value;
      if r != S.Current(inst) || a in inst.quorum { return; }
      inst := inst.(quorum := inst.quorum + {a});
      tables.PutAccepting(i, inst);
      if |inst.quorum| >= inst.size {
        out := Some(Chosen(i, r, v));
        ReceiveChosen(i, r);
      }
    }

    method ReceivePreempted(i: Iid, attempted: Round, current: Round, b: Ballot) returns (out: Option<Msg>)
      requires Valid()
      modifies this`highestEpoch, tables.Repr
      ensures Valid() && fresh(tables.Repr - old(tables.Repr))
      ensures (View(), out) == S.OnPreempted(old(View()), i, attempted, current, b)
    {
      out := None;
      var closed := IsClosed(i);
      if closed { return; }
      var preparing := tables.GetPreparing(i);
      var accepting := tables.GetAccepting(i);
      if preparing.Some? && S.IsCurrent(preparing.value, attempted) && S.Preempts(preparing.value, current) {
        var inst := S.PreemptPreparing(preparing.value, current, b);
        SeeEpoch(current.epoch);
        tables.PutPreparing(i, inst);
        out := Some(Prepare(i, S.Current(inst)));
      } else if accepting.Some? && attempted == S.Current(accepting.value) && S.Preempts(accepting.value, current) {
        var inst := S.PreemptAccepting(accepting.value, current, b, q1);
        SeeEpoch(current.epoch);
        tables.RemoveAccepting(i);
        tables.PutPreparing(i, inst);
        out := Some(Prepare(i, S.Current(inst)));
      }
    }

    /** Every message: the object takes the step that the system takes. `b` is the next ballot of the ballot giver. */
    method Handle(m: Msg, b: Ballot) returns (out: Option<Msg>)
      requires Valid()
      modifies this`maxChosen, this`trim, this`next, this`highestEpoch, tables.Repr
      ensures Valid() && fresh(tables.Repr - old(tables.Repr))
      ensures (View(), out) == S.Step(old(View()), m, b)
    {
      out := None;
      match m
      case Promise(a, i, r, lr, lv) =>
        if r.ballot.proposer == id { out := ReceivePromise(a, i, r, lr, lv); }
      case Accepted(a, i, r, v) =>
        if r.ballot.proposer == id { out := ReceiveAccepted(a, i, r, v); }
      case Preempted(_, i, attempted, current) =>
        if attempted.ballot.proposer == id { out := ReceivePreempted(i, attempted, current, b); }
      case Chosen(i, r, _) => ReceiveChosen(i, r);
      case Trim(t) => ReceiveTrim(t);
      case NewEpoch(e) => SeeEpoch(e);
      case _ =>
    }
  }
}
