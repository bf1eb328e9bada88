/** Why neither the crashes nor the lowered promises of a write-ahead acceptor endanger agreement: a promise is
    forgotten only for an instance that was settled before. */
module WriteAheadAcceptorProof {
  import opened Types
  import opened Memory
  import opened Voting
  import opened ClassicNet
  import opened WriteAheadAcceptor
  import opened WriteAheadWindow
  import SAP = StandardAcceptorProof

  /** Every promise sent is still covered, unless its instance was settled at or below the present promise. */
  ghost predicate PromisesCovered(c: Config, net: set<Msg>, a: WaAcceptor) {
    forall m | m in net && m.Promise? && m.aid == a.id && m.iid > a.trim ::
      || BallotGe(LastPromise(a.vol, m.iid), m.round.ballot)
      || Excused(c, net, m.iid, Classic(LastPromise(a.vol, m.iid)))
  }

  ghost predicate VotesCovered(net: set<Msg>, a: WaAcceptor) {
    forall m | m in net && m.Accepted? && m.aid == a.id && m.iid > a.trim ::
      BallotGe(LastAccept(a.vol, m.iid).0, m.round.ballot)
  }

  /** A stored vote is a vote cast, or a chosen value taken over from a chosen message. */
  ghost predicate VoteOK(c: Config, net: set<Msg>, id: Aid, i: Iid, vote: (Ballot, Value)) {
    vote == (INVALID_BALLOT, []) ||
    (&& Accept(i, Classic(vote.0), vote.1) in net
     && (Accepted(id, i, Classic(vote.0), vote.1) in net || Settled(c, net, i, Classic(vote.0), vote.1)))
  }

  ghost predicate FlagOK(c: Config, net: set<Msg>, a: WaAcceptor, i: Iid) {
    i in a.vol.chosen ==> ChosenOK(c, net, i, Classic(LastAccept(a.vol, i).0), LastAccept(a.vol, i).1)
  }

  ghost predicate WaOK(c: Config, net: set<Msg>, a: WaAcceptor) {
    && a.id in c.acceptors
    && Local(a)
    && PromisesCovered(c, net, a)
    && VotesCovered(net, a)
    && (forall i :: VoteOK(c, net, a.id, i, LastAccept(a.vol, i)))
    && (forall i :: FlagOK(c, net, a, i))
    && TrimOK(c, net, a.trim)
  }

  lemma BootOK(c: Config, id: Aid, window: nat, catchup: nat)
    requires id in c.acceptors
    ensures WaOK(c, {}, Boot(id, window, catchup))
  {}

  lemma VoteOKGrows(c: Config, net: set<Msg>, n: Msg, id: Aid, i: Iid, vote: (Ballot, Value))
    requires ReportsAllVotes(net, n) && VoteOK(c, net, id, i, vote)
    ensures VoteOK(c, net + {n}, id, i, vote)
  {
    if Settled(c, net, i, Classic(vote.0), vote.1) { SettledGrows(c, net, n, i, Classic(vote.0), vote.1); }
  }

  /** The parts of WaOK that a message from anyone leaves alone. */
  lemma StoredGrows(c: Config, net: set<Msg>, a: WaAcceptor, n: Msg)
    requires WaOK(c, net, a) && ReportsAllVotes(net, n)
    ensures forall i :: VoteOK(c, net + {n}, a.id, i, LastAccept(a.vol, i))
    ensures forall i :: FlagOK(c, net + {n}, a, i)
    ensures TrimOK(c, net + {n}, a.trim)
  {
    forall i ensures VoteOK(c, net + {n}, a.id, i, LastAccept(a.vol, i)) {
      VoteOKGrows(c, net, n, a.id, i, LastAccept(a.vol, i));
    }
    forall i ensures FlagOK(c, net + {n}, a, i) {
      assert FlagOK(c, net, a, i);
      if i in a.vol.chosen { ChosenOKGrows(c, net, n, i, Classic(LastAccept(a.vol, i).0), LastAccept(a.vol, i).1); }
    }
    TrimGrows(c, net, net + {n}, a.trim);
  }

  lemma PromisesGrow(c: Config, net: set<Msg>, a: WaAcceptor, n: Msg)
    requires PromisesCovered(c, net, a) && ReportsAllVotes(net, n)
    requires n.Promise? && n.aid == a.id && n.iid > a.trim ==> BallotGe(LastPromise(a.vol, n.iid), n.round.ballot)
    ensures PromisesCovered(c, net + {n}, a)
  {
    forall m | m in net + {n} && m.Promise? && m.aid == a.id && m.iid > a.trim
      ensures BallotGe(LastPromise(a.vol, m.iid), m.round.ballot)
          || Excused(c, net + {n}, m.iid, Classic(LastPromise(a.vol, m.iid)))
    {
      if !BallotGe(LastPromise(a.vol, m.iid), m.round.ballot) {
        ExcusedGrows(c, net, n, m.iid, Classic(LastPromise(a.vol, m.iid)));
      }
    }
  }

  lemma Grows(c: Config, net: set<Msg>, a: WaAcceptor, n: Msg)
    requires WaOK(c, net, a) && ReportsAllVotes(net, n)
    requires n.Promise? || n.Accepted? ==> n.aid != a.id
    ensures WaOK(c, net + {n}, a)
  {
    StoredGrows(c, net, a, n);
    PromisesGrow(c, net, a, n);
  }

  lemma ExcusedAbove(c: Config, net: set<Msg>, i: Iid, r: Round, r': Round)
    requires Excused(c, net, i, r) && RoundGe(r', r)
    ensures Excused(c, net, i, r')
  {
    var v :| Settled(c, net, i, r, v);
    var r0, q :| RoundGe(r, r0) && CleanChosen(c, net, i, r0, v, q);
    assert RoundGe(r', r0);
    assert Settled(c, net, i, r', v);
  }

  /** Raising one volatile promise keeps every promise covered. */
  lemma RaiseCovered(c: Config, net: set<Msg>, a: WaAcceptor, a': WaAcceptor)
    requires PromisesCovered(c, net, a) && a'.id == a.id && a'.trim >= a.trim
    requires forall i: Iid | i > a'.trim :: BallotGe(LastPromise(a'.vol, i), LastPromise(a.vol, i))
    ensures PromisesCovered(c, net, a')
  {
    forall m | m in net && m.Promise? && m.aid == a'.id && m.iid > a'.trim
      ensures BallotGe(LastPromise(a'.vol, m.iid), m.round.ballot)
          || Excused(c, net, m.iid, Classic(LastPromise(a'.vol, m.iid)))
    {
      assert BallotGe(LastPromise(a'.vol, m.iid), LastPromise(a.vol, m.iid));
      if !BallotGe(LastPromise(a.vol, m.iid), m.round.ballot) {
        ExcusedAbove(c, net, m.iid, Classic(LastPromise(a.vol, m.iid)), Classic(LastPromise(a'.vol, m.iid)));
      }
    }
  }

  /** Steps that only touch the stable side or the flags. */
  lemma SameVolatile(c: Config, net: set<Msg>, a: WaAcceptor, a': WaAcceptor)
    requires WaOK(c, net, a) && Local(a') && a'.id == a.id && a'.vol == a.vol && a'.trim == a.trim
    ensures WaOK(c, net, a')
  {
    forall i ensures VoteOK(c, net, a'.id, i, LastAccept(a'.vol, i)) && FlagOK(c, net, a', i) {
      assert VoteOK(c, net, a.id, i, LastAccept(a.vol, i)) && FlagOK(c, net, a, i);
    }
  }

  ghost predicate StepFine(c: Config, net: set<Msg>, id: Aid, r: (WaAcceptor, Option<Msg>)) {
    SAP.AnswerOK(c, net, id, r.1) && WaOK(c, net + ToSet(r.1), r.0)
  }

  lemma SilentFine(c: Config, net: set<Msg>, a: WaAcceptor, id: Aid)
    requires WaOK(c, net, a)
    ensures StepFine(c, net, id, (a, None))
  {
    assert net + {} == net;
  }

  /** The volatile promise rises and the vote either stays or becomes the one just sent. */
  lemma RaisedOK(c: Config, net: set<Msg>, a: WaAcceptor, a': WaAcceptor, n: Msg)
    requires WaOK(c, net, a) && Local(a') && a'.id == a.id && a'.trim == a.trim && a'.vol.chosen == a.vol.chosen
    requires ReportsAllVotes(net, n) && (n.Promise? || n.Accepted?) && n.aid == a.id
    requires n.iid !in a.vol.chosen && n.round == Classic(LastPromise(a'.vol, n.iid))
    requires BallotGe(n.round.ballot, LastPromise(a.vol, n.iid))
    requires forall i: Iid | i != n.iid :: Info(a'.vol, i) == Info(a.vol, i)
    requires n.Promise? ==> LastAccept(a'.vol, n.iid) == LastAccept(a.vol, n.iid)
    requires n.Accepted? ==>
      LastAccept(a'.vol, n.iid) == (n.round.ballot, n.value) && Accept(n.iid, n.round, n.value) in net
    ensures WaOK(c, net + {n}, a')
  {
    assert StoresAgree(a, n.iid);
    forall i: Iid ensures BallotGe(LastPromise(a'.vol, i), LastPromise(a.vol, i))
        && BallotGe(LastAccept(a'.vol, i).0, LastAccept(a.vol, i).0) {
      assert i != n.iid ==> Info(a'.vol, i) == Info(a.vol, i);
    }
    RaiseCovered(c, net, a, a');
    PromisesGrow(c, net, a', n);
    StoredGrows(c, net, a, n);
    forall j: Iid ensures VoteOK(c, net + {n}, a'.id, j, LastAccept(a'.vol, j)) && FlagOK(c, net + {n}, a', j) {
      assert VoteOK(c, net + {n}, a.id, j, LastAccept(a.vol, j)) && FlagOK(c, net + {n}, a, j);
      assert j != n.iid ==> Info(a'.vol, j) == Info(a.vol, j);
    }
  }

  /** A promise reports every vote below it. */
  lemma PromiseMayAdd(c: Config, net: set<Msg>, a: WaAcceptor, m: Msg)
    requires NetInv(c, net) && WaOK(c, net, a) && m in net && m.Prepare?
    requires m.iid > a.trim && BallotGe(m.round.ballot, LastPromise(a.vol, m.iid))
    ensures m.round == Classic(m.round.ballot)
    ensures var info := Info(a.vol, m.iid);
      var n := Promise(a.id, m.iid, m.round, Classic(info.valueBallot), info.value);
      MayAdd(c, net, n) && MsgOK(c, net, n)
  {
    assert MsgOK(c, net, m);
    assert VoteOK(c, net, a.id, m.iid, LastAccept(a.vol, m.iid));
    assert StoresAgree(a, m.iid);
  }

  lemma PrepareOK(c: Config, net: set<Msg>, a: WaAcceptor, m: Msg)
    requires NetInv(c, net) && WaOK(c, net, a) && m in net && m.Prepare?
    ensures StepFine(c, net, a.id, OnPrepare(a, m.iid, m.round.ballot))
  {
    var i, b := m.iid, m.round.ballot;
    var (a', out) := OnPrepare(a, i, b);
    if i > a.trim && i !in a.vol.chosen && BallotGe(b, LastPromise(a.vol, i)) {
      PromiseMayAdd(c, net, a, m);
      PrepareLocal(a, i, b);
      RaisedOK(c, net, a, a', out.value);
    } else {
      assert MsgOK(c, net, m) && m.round == Classic(b);
      RefusalOK(c, net, a, i, b);
      Grows(c, net, a, out.value);
    }
  }

  /** Refusals: trim, chosen and preempted answers. */
  lemma RefusalOK(c: Config, net: set<Msg>, a: WaAcceptor, i: Iid, b: Ballot)
    requires NetInv(c, net) && WaOK(c, net, a)
    requires !(i > a.trim && i !in a.vol.chosen && BallotGe(b, LastPromise(a.vol, i)))
    requires Requested(net, i, Classic(b))
    ensures SAP.AnswerOK(c, net, a.id, OnPrepare(a, i, b).1)
    ensures forall v :: SAP.AnswerOK(c, net, a.id, OnAccept(a, i, b, v).1)
  {
    assert FlagOK(c, net, a, i) && StoresAgree(a, i);
  }

  /** A vote below an earlier promise is excused. */
  lemma VoteMayAdd(c: Config, net: set<Msg>, a: WaAcceptor, m: Msg)
    requires NetInv(c, net) && WaOK(c, net, a) && m in net && m.Accept?
    requires m.iid > a.trim && BallotGe(m.round.ballot, LastPromise(a.vol, m.iid))
    ensures m.round == Classic(m.round.ballot)
    ensures var n := Accepted(a.id, m.iid, m.round, m.value); MayAdd(c, net, n) && MsgOK(c, net, n)
  {
    assert MsgOK(c, net, m);
    forall p | p in net && p.Promise? && p.aid == a.id && p.iid == m.iid && RoundGt(p.round, m.round)
      ensures Excused(c, net, m.iid, m.round)
    {
      assert MsgOK(c, net, p);
      ExcusedAbove(c, net, m.iid, Classic(LastPromise(a.vol, m.iid)), m.round);
    }
  }

  lemma AcceptOK(c: Config, net: set<Msg>, a: WaAcceptor, m: Msg)
    requires NetInv(c, net) && WaOK(c, net, a) && m in net && m.Accept?
    ensures StepFine(c, net, a.id, OnAccept(a, m.iid, m.round.ballot, m.value))
  {
    var i, b, v := m.iid, m.round.ballot, m.value;
    var (a', out) := OnAccept(a, i, b, v);
    if i > a.trim && i !in a.vol.chosen && BallotGe(b, LastPromise(a.vol, i)) {
      VoteMayAdd(c, net, a, m);
      AcceptLocal(a, i, b, v);
      RaisedOK(c, net, a, a', out.value);
    } else {
      assert MsgOK(c, net, m) && m.round == Classic(b);
      RefusalOK(c, net, a, i, b);
      Grows(c, net, a, out.value);
    }
  }

  /** The chosen message: the promise may drop to the chosen ballot, whose instance is settled. */
  lemma LoweredCovered(c: Config, net: set<Msg>, a: WaAcceptor, i: Iid, b: Ballot, v: Value)
    requires PromisesCovered(c, net, a) && VotesCovered(net, a) && Excused(c, net, i, Classic(b))
    requires StoresAgree(a, i)
    ensures PromisesCovered(c, net, OnChosen(a, i, b, v)) && VotesCovered(net, OnChosen(a, i, b, v))
  {}

  lemma ChosenStepOK(c: Config, net: set<Msg>, a: WaAcceptor, m: Msg)
    requires ValidConfig(c) && NetInv(c, net) && WaOK(c, net, a) && m in net && m.Chosen?
    ensures WaOK(c, net, OnChosen(a, m.iid, m.round.ballot, m.value))
  {
    var i, b, v := m.iid, m.round.ballot, m.value;
    var a' := OnChosen(a, i, b, v);
    assert MsgOK(c, net, m) && m.round == Classic(b);
    ChosenLocal(a, i, b, v);
    assert StoresAgree(a, i);
    LoweredCovered(c, net, a, i, b, v);
    if !BallotGt(b, LastAccept(a.dup, i).0) {
      assert VoteOK(c, net, a.id, i, LastAccept(a.vol, i));
      VoteAboveChosen(c, net, a.id, i, LastAccept(a.vol, i), b, v);
    }
    StoredChosenOK(c, net, a, i, b, v);
  }

  lemma StoredChosenOK(c: Config, net: set<Msg>, a: WaAcceptor, i: Iid, b: Ballot, v: Value)
    requires (forall j :: VoteOK(c, net, a.id, j, LastAccept(a.vol, j))) && (forall j :: FlagOK(c, net, a, j))
    requires StoresAgree(a, i) && ChosenOK(c, net, i, Classic(b), v)
    requires BallotGt(b, LastAccept(a.dup, i).0) ||
             ChosenOK(c, net, i, Classic(LastAccept(a.vol, i).0), LastAccept(a.vol, i).1)
    ensures var a' := OnChosen(a, i, b, v);
      (forall j :: VoteOK(c, net, a'.id, j, LastAccept(a'.vol, j))) && (forall j :: FlagOK(c, net, a', j))
  {
    var a' := OnChosen(a, i, b, v);
    forall j ensures VoteOK(c, net, a'.id, j, LastAccept(a'.vol, j)) && FlagOK(c, net, a', j) {
      assert VoteOK(c, net, a.id, j, LastAccept(a.vol, j)) && FlagOK(c, net, a, j);
    }
  }

  /** A vote at or above a chosen ballot carries the chosen value. */
  lemma VoteAboveChosen(c: Config, net: set<Msg>, id: Aid, i: Iid, vote: (Ballot, Value), b: Ballot, v: Value)
    requires ValidConfig(c) && NetInv(c, net) && VoteOK(c, net, id, i, vote)
    requires ChosenOK(c, net, i, Classic(b), v) && BallotGe(vote.0, b)
    ensures ChosenOK(c, net, i, Classic(vote.0), vote.1)
  {
    ProposalsAboveZero(c, net, i, Classic(b), v);
    SettledForcesProposals(c, net, i, Classic(b), v, Classic(vote.0), vote.1);
    var r0, q :| RoundGe(Classic(b), r0) && CleanChosen(c, net, i, r0, v, q);
    assert RoundGe(Classic(vote.0), r0);
  }

  lemma TrimStepOK(c: Config, net: set<Msg>, a: WaAcceptor, m: Msg)
    requires NetInv(c, net) && WaOK(c, net, a) && m in net && m.Trim?
    ensures WaOK(c, net, OnTrim(a, m.iid))
  {
    assert MsgOK(c, net, m);
    TrimLocal(a, m.iid);
    var a' := OnTrim(a, m.iid);
    forall i ensures VoteOK(c, net, a'.id, i, LastAccept(a'.vol, i)) && FlagOK(c, net, a', i) {
      assert VoteOK(c, net, a.id, i, LastAccept(a.vol, i)) && FlagOK(c, net, a, i);
    }
  }

  lemma StepOK(c: Config, net: set<Msg>, a: WaAcceptor, m: Msg)
    requires ValidConfig(c) && NetInv(c, net) && WaOK(c, net, a) && m in net
    ensures StepFine(c, net, a.id, Step(a, m))
  {
    match m
    case Prepare(_, _) => PrepareOK(c, net, a, m);
    case Accept(_, _, _) => AcceptOK(c, net, a, m);
    case Chosen(i, r, v) => ChosenStepOK(c, net, a, m); SilentFine(c, net, OnChosen(a, i, r.ballot, v), a.id);
    case Trim(t) => TrimStepOK(c, net, a, m); SilentFine(c, net, OnTrim(a, t), a.id);
    case _ => SilentFine(c, net, a, a.id);
  }

  lemma StepKeepsId(a: WaAcceptor, m: Msg)
    ensures Step(a, m).0.id == a.id
  {}

  /** Repeating a vote is a vote: for a value taken over from a chosen message it may come after a higher
      promise, and is excused because the instance was settled. */
  lemma RepeatedVoteOK(c: Config, net: set<Msg>, id: Aid, i: Iid, vote: (Ballot, Value))
    requires NetInv(c, net) && id in c.acceptors && VoteOK(c, net, id, i, vote) && |vote.1| > 0
    ensures var n := Accepted(id, i, Classic(vote.0), vote.1); MayAdd(c, net, n) && MsgOK(c, net, n)
  {
    var n := Accepted(id, i, Classic(vote.0), vote.1);
    if n in net {
      assert VotesProposed(c, net) && PromisesKept(c, net) && MsgOK(c, net, n);
    } else {
      assert Excused(c, net, i, n.round);
    }
  }

  lemma RepeatOK(c: Config, net: set<Msg>, a: WaAcceptor, i: Iid)
    requires NetInv(c, net) && WaOK(c, net, a)
    ensures SAP.AnswerOK(c, net, a.id, OnRepeat(a, i)) && WaOK(c, net + ToSet(OnRepeat(a, i)), a)
  {
    var out := OnRepeat(a, i);
    assert net + {} == net;
    assert FlagOK(c, net, a, i) && StoresAgree(a, i) && VoteOK(c, net, a.id, i, LastAccept(a.vol, i));
    if out.Some? {
      var n := out.value;
      if n.Accepted? {
        RepeatedVoteOK(c, net, a.id, i, LastAccept(a.vol, i));
        StoredGrows(c, net, a, n);
        PromisesGrow(c, net, a, n);
      } else {
        Grows(c, net, a, n);
      }
    }
  }

  lemma CrashOK(c: Config, net: set<Msg>, a: WaAcceptor, n: Iid)
    requires WaOK(c, net, a)
    ensures WaOK(c, net, Crash(a, n))
  {
    var a' := Crash(a, n);
    CrashLocal(a, n);
    forall i: Iid | i > a'.trim ensures BallotGe(LastPromise(a'.vol, i), LastPromise(a.vol, i)) {
      assert WindowOK(a, i);
    }
    RaiseCovered(c, net, a, a');
    forall i ensures VoteOK(c, net, a'.id, i, LastAccept(a'.vol, i)) && FlagOK(c, net, a', i) {
      assert VoteOK(c, net, a.id, i, LastAccept(a.vol, i));
    }
  }

  lemma FlushOK(c: Config, net: set<Msg>, a: WaAcceptor)
    requires WaOK(c, net, a)
    ensures WaOK(c, net, Flush(a))
  {
    FlushLocal(a);
    SameVolatile(c, net, a, Flush(a));
  }
}
