/** An epoch acceptor never votes below a promise it made, even when a crash erased the promise. */
module EpochAcceptorProof {
  import opened Types
  import M = Memory
  import opened Voting
  import opened EpochNet
  import opened EpochAcceptor

  /** The disk holds the highest vote cast for each instance. */
  ghost predicate DiskOK(net: set<Msg>, a: EpAcceptor) {
    && (forall i | i in a.disk.votes :: Accepted(a.id, i, a.disk.votes[i].0, a.disk.votes[i].1) in net)
    && (forall m | m in net && m.Accepted? && m.aid == a.id ::
          m.iid in a.disk.votes && RoundGe(a.disk.votes[m.iid].0, m.round))
  }

  /** Everything promised or voted lies at or below the stored epoch. */
  ghost predicate EpochCovers(net: set<Msg>, a: EpAcceptor) {
    forall m | m in net && (m.Promise? || m.Accepted?) && m.aid == a.id :: m.round.epoch <= a.disk.epoch
  }

  ghost predicate Open(a: EpAcceptor, i: Iid) { i > a.trim && i !in a.mem.base.chosen }

  /** Promises and votes of open instances lie at or below the floor. */
  ghost predicate FloorCovers(net: set<Msg>, a: EpAcceptor) {
    forall m | m in net && (m.Promise? || m.Accepted?) && m.aid == a.id && Open(a, m.iid) ::
      RoundGe(Floor(a, m.iid), m.round)
  }

  ghost predicate Agrees(a: EpAcceptor, i: Iid) {
    i !in a.mem.base.chosen ==>
      GetVote(a.mem, i) == DiskVote(a, i) || (i <= a.trim && GetVote(a.mem, i).None?)
  }

  ghost predicate FlagOK(c: Config, net: set<Msg>, a: EpAcceptor, i: Iid) {
    i in a.mem.base.chosen ==>
      GetVote(a.mem, i).Some? && ChosenAt(c, net, i, GetVote(a.mem, i).value.0, GetVote(a.mem, i).value.1)
  }

  ghost predicate EpOK(c: Config, net: set<Msg>, a: EpAcceptor) {
    && a.id in c.acceptors && a.disk.epoch == a.epoch > 0
    && DiskOK(net, a) && EpochCovers(net, a) && FloorCovers(net, a)
    && (forall i :: Agrees(a, i))
    && (forall i :: FlagOK(c, net, a, i))
    && a.trim <= a.mem.base.minChosen
    && TrimOK(c, net, a.mem.base.minChosen)
  }

  /** What the rest of the system needs of an answer. */
  ghost predicate AnswerOK(c: Config, net: set<Msg>, id: Aid, out: Option<Msg>) {
    out.Some? ==>
      && MayAdd(c, net, out.value) && MsgOK(c, net, out.value)
      && (out.value.Promise? || out.value.Accepted? ==> out.value.aid == id)
      && !out.value.Prepare? && !out.value.StandardPrepare? && !out.value.Accept?
  }

  ghost predicate StepFine(c: Config, net: set<Msg>, id: Aid, r: (EpAcceptor, Option<Msg>)) {
    AnswerOK(c, net, id, r.1) && EpOK(c, net + ToSet(r.1), r.0)
  }

  lemma SilentFine(c: Config, net: set<Msg>, a: EpAcceptor, id: Aid)
    requires EpOK(c, net, a)
    ensures StepFine(c, net, id, (a, None))
  {
    assert net + {} == net;
  }

  lemma BootOK(c: Config, id: Aid)
    requires id in c.acceptors
    ensures EpOK(c, {}, Boot(id))
  {}

  lemma FlagsGrow(c: Config, net: set<Msg>, a: EpAcceptor, n: Msg)
    requires forall i :: FlagOK(c, net, a, i)
    requires TrimOK(c, net, a.mem.base.minChosen)
    ensures forall i :: FlagOK(c, net + {n}, a, i)
    ensures TrimOK(c, net + {n}, a.mem.base.minChosen)
  {
    forall i ensures FlagOK(c, net + {n}, a, i) {
      assert FlagOK(c, net, a, i);
      if i in a.mem.base.chosen {
        ChosenGrows(c, net, net + {n}, i, GetVote(a.mem, i).value.0, GetVote(a.mem, i).value.1);
      }
    }
    TrimGrows(c, net, net + {n}, a.mem.base.minChosen);
  }

  /** Messages of others change nothing. */
  lemma Grows(c: Config, net: set<Msg>, a: EpAcceptor, n: Msg)
    requires EpOK(c, net, a)
    requires n.Promise? || n.Accepted? ==> n.aid != a.id
    ensures EpOK(c, net + {n}, a)
  {
    FlagsGrow(c, net, a, n);
  }

  lemma ClosedOK(c: Config, net: set<Msg>, a: EpAcceptor, i: Iid)
    requires EpOK(c, net, a) && Closed(a, i).Some?
    ensures StepFine(c, net, a.id, (a, Closed(a, i)))
  {
    assert FlagOK(c, net, a, i);
    TrimBelow(c, net, a.trim, a.mem.base.minChosen);
    Grows(c, net, a, Closed(a, i).value);
  }

  lemma TrimBelow(c: Config, net: set<Msg>, t: Iid, u: Iid)
    requires TrimOK(c, net, u) && t <= u
    ensures TrimOK(c, net, t)
  {}

  lemma PreemptedOK(c: Config, net: set<Msg>, a: EpAcceptor, i: Iid, r: Round)
    requires EpOK(c, net, a) && !RoundGe(r, Floor(a, i))
    ensures StepFine(c, net, a.id, (a, Some(Preempted(a.id, i, r, Floor(a, i)))))
  {
    Grows(c, net, a, Preempted(a.id, i, r, Floor(a, i)));
  }

  /** A new floor at or above the old ones, no other change to open instances. */
  lemma PromisedOK(c: Config, net: set<Msg>, a: EpAcceptor, i: Iid, r: Round)
    requires EpOK(c, net, a) && Open(a, i) && RoundGe(r, Floor(a, i))
    ensures EpOK(c, net + {GivePromise(a, i, r).1.value}, GivePromise(a, i, r).0)
  {
    var (a', out) := GivePromise(a, i, r);
    var n := out.value;
    FlagsGrow(c, net, a, n);
    forall j ensures Agrees(a', j) && FlagOK(c, net + {n}, a', j) {
      assert Agrees(a, j) && FlagOK(c, net + {n}, a, j);
    }
  }

  /** A promise reports every vote of its acceptor below it. */
  lemma PromiseMayAdd(c: Config, net: set<Msg>, a: EpAcceptor, i: Iid, r: Round)
    requires NetInv(c, net) && EpOK(c, net, a) && Open(a, i) && RoundGe(r, Floor(a, i))
    requires Prepare(i, r) in net || StandardPrepare(i, r.ballot) in net
    ensures AnswerOK(c, net, a.id, GivePromise(a, i, r).1)
  {
    assert Agrees(a, i);
    var n := GivePromise(a, i, r).1.value;
    assert ReportsAllVotes(net, n);
    if DiskVote(a, i).Some? {
      var m := Accepted(a.id, i, a.disk.votes[i].0, a.disk.votes[i].1);
      assert m in net && Accept(m.iid, m.round, m.value) in net;
    }
  }

  lemma PrepareOK(c: Config, net: set<Msg>, a: EpAcceptor, m: Msg)
    requires NetInv(c, net) && EpOK(c, net, a) && m in net && (m.Prepare? || m.StandardPrepare?)
    ensures StepFine(c, net, a.id, Step(a, m))
  {
    var i := m.iid;
    var r := if m.Prepare? then m.round else Round(a.epoch, m.ballot);
    if Closed(a, i).Some? {
      ClosedOK(c, net, a, i);
    } else if RoundGe(r, Floor(a, i)) {
      PromisedOK(c, net, a, i, r);
      PromiseMayAdd(c, net, a, i, r);
    } else {
      PreemptedOK(c, net, a, i, r);
    }
  }

  /** The vote goes to disk and memory together. */
  lemma VotedOK(c: Config, net: set<Msg>, a: EpAcceptor, i: Iid, r: Round, v: Value)
    requires EpOK(c, net, a) && Open(a, i) && RoundGe(r, Floor(a, i))
    ensures EpOK(c, net + {Accepted(a.id, i, r, v)}, OnAccept(a, i, r, v).0)
  {
    var a' := OnAccept(a, i, r, v).0;
    var n := Accepted(a.id, i, r, v);
    FlagsGrow(c, net, a, n);
    forall j ensures Agrees(a', j) && FlagOK(c, net + {n}, a', j) {
      assert Agrees(a, j) && FlagOK(c, net + {n}, a, j);
    }
    assert DiskOK(net + {n}, a') by { DiskVoteOK(net, a, a', i, r, v); }
  }

  lemma DiskVoteOK(net: set<Msg>, a: EpAcceptor, a': EpAcceptor, i: Iid, r: Round, v: Value)
    requires DiskOK(net, a) && FloorCovers(net, a) && Open(a, i) && RoundGe(r, Floor(a, i))
    requires a'.id == a.id && a'.disk.votes == a.disk.votes[i := (r, v)]
    ensures DiskOK(net + {Accepted(a.id, i, r, v)}, a')
  {}

  lemma AcceptOK(c: Config, net: set<Msg>, a: EpAcceptor, m: Msg)
    requires NetInv(c, net) && EpOK(c, net, a) && m in net && m.Accept?
    ensures StepFine(c, net, a.id, OnAccept(a, m.iid, m.round, m.value))
  {
    var i, r, v := m.iid, m.round, m.value;
    if Closed(a, i).Some? {
      ClosedOK(c, net, a, i);
    } else if RoundGe(r, Floor(a, i)) {
      VotedOK(c, net, a, i, r, v);
      assert m == Accept(i, r, v);
    } else {
      PreemptedOK(c, net, a, i, r);
    }
  }

  lemma TrimStepOK(c: Config, net: set<Msg>, a: EpAcceptor, t: Iid)
    requires EpOK(c, net, a)
    ensures EpOK(c, net, OnTrim(a, t))
  {
    var a' := OnTrim(a, t);
    forall i ensures Agrees(a', i) && FlagOK(c, net, a', i) {
      assert Agrees(a, i) && FlagOK(c, net, a, i);
    }
  }

  lemma ChosenStepOK(c: Config, net: set<Msg>, a: EpAcceptor, m: Msg)
    requires NetInv(c, net) && EpOK(c, net, a) && m in net && m.Chosen?
    ensures EpOK(c, net, OnChosen(a, m.iid, m.round, m.value))
  {
    var i, r, v := m.iid, m.round, m.value;
    if i !in a.mem.base.chosen {
      assert MsgOK(c, net, m);
      var flagged := a.mem.(base := M.SetChosen(a.mem.base, i));
      var a' := Propose(a, i).(mem := StoreVote(StorePromise(flagged, i, r.ballot), i, (r, v)));
      forall j ensures Agrees(a', j) && FlagOK(c, net, a', j) {
        assert Agrees(a, j) && FlagOK(c, net, a, j);
      }
      FlaggedPrefix(c, net, a, a');
      assert EpOK(c, net, a');
      TrimStepOK(c, net, a', a'.mem.base.minChosen);
    } else {
      forall j ensures Agrees(Propose(a, i), j) && FlagOK(c, net, Propose(a, i), j) {
        assert Agrees(a, j) && FlagOK(c, net, a, j);
      }
    }
  }

  /** A prefix extended by flagged instances is decided. */
  lemma FlaggedPrefix(c: Config, net: set<Msg>, a: EpAcceptor, a': EpAcceptor)
    requires TrimOK(c, net, a.mem.base.minChosen) && forall i :: FlagOK(c, net, a', i)
    requires forall i: Iid | a.mem.base.minChosen < i <= a'.mem.base.minChosen :: i in a'.mem.base.chosen
    ensures TrimOK(c, net, a'.mem.base.minChosen)
  {
    forall i | 0 < i <= a'.mem.base.minChosen ensures IsDecided(c, net, i) {
      assert FlagOK(c, net, a', i);
      if i > a.mem.base.minChosen {
        ChosenIsDecided(c, net, i, GetVote(a'.mem, i).value.0, GetVote(a'.mem, i).value.1);
      }
    }
  }

  lemma RaiseOK(c: Config, net: set<Msg>, a: EpAcceptor, e: nat)
    requires EpOK(c, net, a)
    ensures EpOK(c, net, RaiseEpoch(a, e))
  {
    forall j ensures Agrees(RaiseEpoch(a, e), j) && FlagOK(c, net, RaiseEpoch(a, e), j) {
      assert Agrees(a, j) && FlagOK(c, net, a, j);
    }
  }

  lemma StepOK(c: Config, net: set<Msg>, a: EpAcceptor, m: Msg)
    requires NetInv(c, net) && EpOK(c, net, a) && m in net
    ensures StepFine(c, net, a.id, Step(a, m))
  {
    match m
    case StandardPrepare(_, _) => PrepareOK(c, net, a, m);
    case Prepare(_, _) => PrepareOK(c, net, a, m);
    case Accept(_, _, _) => AcceptOK(c, net, a, m);
    case Chosen(i, r, v) => ChosenStepOK(c, net, a, m); SilentFine(c, net, OnChosen(a, i, r, v), a.id);
    case Trim(t) => TrimStepOK(c, net, a, t); SilentFine(c, net, OnTrim(a, t), a.id);
    case NewEpoch(e) => RaiseOK(c, net, a, e); SilentFine(c, net, RaiseEpoch(a, e), a.id);
    case _ => SilentFine(c, net, a, a.id);
  }

  lemma StepKeepsId(a: EpAcceptor, m: Msg)
    ensures Step(a, m).0.id == a.id
  {}

  lemma RepeatOK(c: Config, net: set<Msg>, a: EpAcceptor, i: Iid)
    requires NetInv(c, net) && EpOK(c, net, a)
    ensures StepFine(c, net, a.id, (a, OnRepeat(a, i)))
  {
    var out := OnRepeat(a, i);
    SilentFine(c, net, a, a.id);
    assert Agrees(a, i) && FlagOK(c, net, a, i);
    if out.Some? {
      if out.value.Accepted? {
        assert out.value in net && net + {out.value} == net;
        assert VotesProposed(c, net) && PromisesKept(c, net);
      } else {
        Grows(c, net, a, out.value);
      }
    }
  }

  lemma AnnounceOK(c: Config, net: set<Msg>, a: EpAcceptor)
    requires EpOK(c, net, a)
    ensures StepFine(c, net, a.id, (a, Some(Trim(a.trim)))) && StepFine(c, net, a.id, (a, Some(NewEpoch(a.epoch))))
  {
    TrimBelow(c, net, a.trim, a.mem.base.minChosen);
    Grows(c, net, a, Trim(a.trim));
    Grows(c, net, a, NewEpoch(a.epoch));
  }

  /** Every forgotten promise lies below the new epoch. */
  lemma CrashOK(c: Config, net: set<Msg>, a: EpAcceptor)
    requires EpOK(c, net, a)
    ensures StepFine(c, net, a.id, Crash(a))
  {
    var (a', out) := Crash(a);
    forall i ensures Agrees(a', i) { RecoveryRoundTrip(a.disk.votes, i); }
    assert EpOK(c, net, a');
    Grows(c, net, a', out.value);
  }

  /** A vote is cast only at or above every promise its acceptor ever made for the instance. */
  lemma VotesRespectPromises(c: Config, net: set<Msg>, a: EpAcceptor, i: Iid, r: Round, v: Value, p: Msg)
    requires EpOK(c, net, a) && OnAccept(a, i, r, v).1 == Some(Accepted(a.id, i, r, v))
    requires p in net && p.Promise? && p.aid == a.id && p.iid == i
    ensures RoundGe(r, p.round)
  {}
}
