/** What holds of every set of messages the epoch protocol sends. */
module EpochNet {
  import opened Types
  import opened Voting

  ghost predicate MsgOK(c: Config, net: set<Msg>, m: Msg) {
    match m
    case Promise(a, i, r, lr, lv) =>
      && a in c.acceptors && r.epoch > 0
      && (Prepare(i, r) in net || StandardPrepare(i, r.ballot) in net)
      && RoundGe(r, lr)
      && (lr == ZERO || Accepted(a, i, lr, lv) in net)
    case Accept(i, r, v) => r.ballot.number > 0
    case Accepted(a, i, r, v) => r.epoch > 0
    case Preempted(a, i, attempted, current) => RoundGt(current, attempted) && current.epoch > 0
    case NewEpoch(e) => e > 0
    case Chosen(i, r, v) => ChosenAt(c, net, i, r, v)
    case Trim(t) => TrimOK(c, net, t)
    case _ => true
  }

  ghost predicate NetInv(c: Config, net: set<Msg>) {
    && VotingInv(c, net)
    && forall m | m in net :: MsgOK(c, net, m)
  }

  lemma ChosenGrows(c: Config, net: set<Msg>, net': set<Msg>, i: Iid, r: Round, v: Value)
    requires net <= net' && ChosenAt(c, net, i, r, v)
    ensures ChosenAt(c, net', i, r, v)
  {
    var q :| ChosenBy(c, net, i, r, v, q);
    assert ChosenBy(c, net', i, r, v, q);
  }

  lemma MsgOKGrows(c: Config, net: set<Msg>, n: Msg, m: Msg)
    requires MsgOK(c, net, m)
    ensures MsgOK(c, net + {n}, m)
  {
    match m
    case Chosen(i, r, v) => ChosenGrows(c, net, net + {n}, i, r, v);
    case Trim(t) => TrimGrows(c, net, net + {n}, t);
    case _ =>
  }

  lemma AddKeepsNet(c: Config, net: set<Msg>, n: Msg)
    requires NetInv(c, net) && MayAdd(c, net, n) && MsgOK(c, net, n)
    ensures NetInv(c, net + {n})
  {
    AddKeepsVoting(c, net, n);
    forall m | m in net + {n} ensures MsgOK(c, net + {n}, m) { MsgOKGrows(c, net, n, m); }
  }

  lemma ChosenIsDecided(c: Config, net: set<Msg>, i: Iid, r: Round, v: Value)
    requires ChosenAt(c, net, i, r, v)
    ensures Decided(c, net, i, v) && IsDecided(c, net, i)
  {
    assert Decided(c, net, i, v);
  }
}
