/** What holds of every set of messages the epoch-less protocol sends. */
module ClassicNet {
  import opened Types
  import opened Voting

  /** A chosen message may name a ballot above the one that was chosen, but only with the chosen value. */
  ghost predicate ChosenOK(c: Config, net: set<Msg>, i: Iid, r: Round, v: Value) {
    Accept(i, r, v) in net && Settled(c, net, i, r, v)
  }

  /** v is the value of the highest accepted ballot that a phase 1 quorum reported for r; any value if the
      quorum reported none. */
  ghost predicate HighestBy(c: Config, net: set<Msg>, i: Iid, r: Round, v: Value, q: set<Aid>, top: Round) {
    && SafeBy(c, net, i, r, v, q, top)
    && (top == ZERO || exists a :: a in q && Promise(a, i, r, top, v) in net)
  }

  ghost predicate HighestReported(c: Config, net: set<Msg>, i: Iid, r: Round, v: Value) {
    exists q, top :: HighestBy(c, net, i, r, v, q, top)
  }

  lemma HighestGrows(c: Config, net: set<Msg>, net': set<Msg>, i: Iid, r: Round, v: Value)
    requires net <= net' && HighestReported(c, net, i, r, v)
    ensures HighestReported(c, net', i, r, v)
  {
    var q, top :| HighestBy(c, net, i, r, v, q, top);
    SafeByGrows(c, net, net', i, r, v, q, top);
    if top != ZERO {
      var a :| a in q && Promise(a, i, r, top, v) in net;
      assert Promise(a, i, r, top, v) in net';
    }
    assert HighestBy(c, net', i, r, v, q, top);
  }

  /** Every proposal carries the value its promise quorum obliges it to carry. */
  ghost predicate Justified(c: Config, net: set<Msg>) {
    forall m | m in net && m.Accept? :: HighestReported(c, net, m.iid, m.round, m.value)
  }

  lemma AddKeepsJustified(c: Config, net: set<Msg>, n: Msg)
    requires Justified(c, net)
    requires n.Accept? && n !in net ==> HighestReported(c, net, n.iid, n.round, n.value)
    ensures Justified(c, net + {n})
  {
    forall m | m in net + {n} && m.Accept? ensures HighestReported(c, net + {n}, m.iid, m.round, m.value) {
      HighestGrows(c, net, net + {n}, m.iid, m.round, m.value);
    }
  }

  /** Someone asked for the round, in a prepare or in a proposal. */
  ghost predicate Requested(net: set<Msg>, i: Iid, r: Round) {
    Prepare(i, r) in net || exists v :: Accept(i, r, v) in net
  }

  lemma RequestedGrows(net: set<Msg>, n: Msg, i: Iid, r: Round)
    requires Requested(net, i, r)
    ensures Requested(net + {n}, i, r)
  {
    if Prepare(i, r) !in net {
      var v :| Accept(i, r, v) in net;
      assert Accept(i, r, v) in net + {n};
    }
  }

  ghost predicate MsgOK(c: Config, net: set<Msg>, m: Msg) {
    match m
    case Prepare(i, r) => r.epoch == 0
    case Promise(a, i, r, lr, lv) =>
      && r.epoch == 0 && lr.epoch == 0 && a in c.acceptors
      && Prepare(i, r) in net && RoundGe(r, lr)
    case Accept(i, r, v) => r.epoch == 0
    case Accepted(a, i, r, v) => r.epoch == 0
    case Preempted(a, i, attempted, current) =>
      BallotGt(current.ballot, attempted.ballot) && attempted.epoch == 0 && Requested(net, i, attempted)
    case Chosen(i, r, v) => r.epoch == 0 && ChosenOK(c, net, i, r, v)
    case Trim(t) => TrimOK(c, net, t)
    case _ => true
  }

  ghost predicate NetInv(c: Config, net: set<Msg>) {
    && VotingInv(c, net)
    && forall m | m in net :: MsgOK(c, net, m)
  }

  lemma ChosenOKGrows(c: Config, net: set<Msg>, n: Msg, i: Iid, r: Round, v: Value)
    requires ReportsAllVotes(net, n) && ChosenOK(c, net, i, r, v)
    ensures ChosenOK(c, net + {n}, i, r, v)
  {
    SettledGrows(c, net, n, i, r, v);
  }

  lemma MsgOKGrows(c: Config, net: set<Msg>, n: Msg, m: Msg)
    requires ReportsAllVotes(net, n) && MsgOK(c, net, m)
    ensures MsgOK(c, net + {n}, m)
  {
    match m
    case Chosen(i, r, v) => ChosenOKGrows(c, net, n, i, r, v);
    case Preempted(_, i, attempted, _) => RequestedGrows(net, n, i, attempted);
    case Trim(t) => TrimGrows(c, net, net + {n}, t);
    case _ =>
  }

  lemma AddKeepsNet(c: Config, net: set<Msg>, n: Msg)
    requires NetInv(c, net) && MayAdd(c, net, n) && MsgOK(c, net, n)
    ensures NetInv(c, net + {n})
    ensures ReportsAllVotes(net, n)
  {
    AddKeepsVoting(c, net, n);
    forall m | m in net + {n} ensures MsgOK(c, net + {n}, m) { MsgOKGrows(c, net, n, m); }
  }

  /** A quorum of votes justifies a chosen message and decides the instance. */
  lemma QuorumIsChosenOK(c: Config, net: set<Msg>, i: Iid, r: Round, v: Value, q: set<Aid>)
    requires ValidConfig(c) && VotingInv(c, net) && ChosenBy(c, net, i, r, v, q)
    ensures ChosenOK(c, net, i, r, v) && Decided(c, net, i, v) && IsDecided(c, net, i)
  {
    assert ChosenAt(c, net, i, r, v);
    ChosenIsSettled(c, net, i, r, v);
  }

  lemma ChosenOKIsDecided(c: Config, net: set<Msg>, i: Iid, r: Round, v: Value)
    requires ChosenOK(c, net, i, r, v)
    ensures Decided(c, net, i, v) && IsDecided(c, net, i)
  {
    SettledIsDecided(c, net, i, r, v);
  }
}
