/** The argument for agreement, stated once over the set of messages ever sent.
    Every protocol variant shows that its messages satisfy VotingInv; agreement then follows. */
module Voting {
  import opened Types
  import opened Sets

  /** Value v is chosen for instance i at round r by the acceptors Q. */
  ghost predicate ChosenBy(c: Config, net: set<Msg>, i: Iid, r: Round, v: Value, q: set<Aid>) {
    && q <= c.acceptors
    && |q| >= c.q2
    && forall a | a in q :: Accepted(a, i, r, v) in net
  }

  ghost predicate ChosenAt(c: Config, net: set<Msg>, i: Iid, r: Round, v: Value) {
    exists q :: ChosenBy(c, net, i, r, v, q)
  }

  /** Instance i is decided as v. */
  ghost predicate Decided(c: Config, net: set<Msg>, i: Iid, v: Value) {
    exists r :: ChosenAt(c, net, i, r, v)
  }

  ghost predicate IsDecided(c: Config, net: set<Msg>, i: Iid) {
    exists v :: Decided(c, net, i, v)
  }

  /** Every instance up to t is decided. */
  ghost predicate TrimOK(c: Config, net: set<Msg>, t: Iid) {
    forall i | 0 < i <= t :: IsDecided(c, net, i)
  }

  /** Every promise of acceptor a above round r reported a vote at r or later. */
  ghost predicate CleanVote(net: set<Msg>, a: Aid, i: Iid, r: Round) {
    forall m | m in net && m.Promise? && m.aid == a && m.iid == i && RoundGt(m.round, r) :: RoundGe(m.lastRound, r)
  }

  ghost predicate CleanChosen(c: Config, net: set<Msg>, i: Iid, r: Round, v: Value, q: set<Aid>) {
    ChosenBy(c, net, i, r, v, q) && forall a | a in q :: CleanVote(net, a, i, r)
  }

  /** v was chosen cleanly at r or below. */
  ghost predicate Settled(c: Config, net: set<Msg>, i: Iid, r: Round, v: Value) {
    exists r0, q :: RoundGe(r, r0) && CleanChosen(c, net, i, r0, v, q)
  }

  ghost predicate Excused(c: Config, net: set<Msg>, i: Iid, r: Round) {
    exists v :: Settled(c, net, i, r, v)
  }

  ghost predicate Promised(net: set<Msg>, a: Aid, i: Iid, r: Round, top: Round) {
    exists lr, lv :: Promise(a, i, r, lr, lv) in net && RoundGe(top, lr)
  }

  /** A phase 1 quorum promised r, none of its reports lies above top, and v is the value proposed at top
      (any value when nothing was reported). */
  ghost predicate SafeBy(c: Config, net: set<Msg>, i: Iid, r: Round, v: Value, q: set<Aid>, top: Round) {
    && q <= c.acceptors
    && |q| >= c.q1
    && RoundGt(r, top)
    && (forall a | a in q :: Promised(net, a, i, r, top))
    && (top == ZERO || Accept(i, top, v) in net)
  }

  ghost predicate Safe(c: Config, net: set<Msg>, i: Iid, r: Round, v: Value) {
    exists q, top :: SafeBy(c, net, i, r, v, q, top)
  }

  /** One value per instance and round. */
  ghost predicate UniqueProposals(net: set<Msg>) {
    forall m, n | m in net && n in net && m.Accept? && n.Accept? && m.iid == n.iid && m.round == n.round ::
      m.value == n.value
  }

  ghost predicate SafeProposals(c: Config, net: set<Msg>) {
    forall m | m in net && m.Accept? :: Safe(c, net, m.iid, m.round, m.value)
  }

  ghost predicate VotesProposed(c: Config, net: set<Msg>) {
    forall m | m in net && m.Accepted? :: m.aid in c.acceptors && Accept(m.iid, m.round, m.value) in net
  }

  ghost predicate ReportsProposed(net: set<Msg>) {
    forall m | m in net && m.Promise? :: m.lastRound == ZERO || Accept(m.iid, m.lastRound, m.lastValue) in net
  }

  /** A vote of a between the report and the round of one of a's promises is excused only
      when its instance was already settled. */
  ghost predicate PromisesKept(c: Config, net: set<Msg>) {
    forall p, m | p in net && m in net && p.Promise? && m.Accepted? && p.aid == m.aid && p.iid == m.iid
      && RoundGt(p.round, m.round) && RoundGt(m.round, p.lastRound) ::
      Excused(c, net, m.iid, m.round)
  }

  ghost predicate VotingInv(c: Config, net: set<Msg>) {
    && UniqueProposals(net)
    && SafeProposals(c, net)
    && VotesProposed(c, net)
    && ReportsProposed(net)
    && PromisesKept(c, net)
  }

  // ---------------------------------------------------------------- agreement

  lemma QuorumsMeet(c: Config, q1: set<Aid>, q2: set<Aid>) returns (a: Aid)
    requires ValidConfig(c) && q1 <= c.acceptors && q2 <= c.acceptors
    requires |q1| >= c.q1 && |q2| >= c.q2
    ensures a in q1 && a in q2
  {
    if q1 * q2 == {} {
      assert |q1 + q2| == |q1| + |q2|;
      SubsetSize(q1 + q2, c.acceptors);
    }
    a :| a in q1 * q2;
  }

  /** Above a cleanly chosen round only the chosen value is ever proposed. */
  lemma {:induction false} CleanChosenForcesProposals(c: Config, net: set<Msg>, i: Iid, r: Round, v: Value,
        q: set<Aid>, r': Round, v': Value)
    requires ValidConfig(c) && VotingInv(c, net)
    requires CleanChosen(c, net, i, r, v, q)
    requires RoundGe(r', r) && Accept(i, r', v') in net
    ensures v' == v
    decreases r'.epoch, r'.ballot.number, r'.ballot.proposer
  {
    if r' == r {
      var a :| a in q;
      assert Accepted(a, i, r, v) in net;
    } else {
      var p := Accept(i, r', v');
      assert Safe(c, net, p.iid, p.round, p.value);
      var q1, top :| SafeBy(c, net, i, r', v', q1, top);
      var a := QuorumsMeet(c, q1, q);
      assert Promised(net, a, i, r', top);
      var lr, lv :| Promise(a, i, r', lr, lv) in net && RoundGe(top, lr);
      assert CleanVote(net, a, i, r);
      var m := Promise(a, i, r', lr, lv);
      assert RoundGe(m.lastRound, r);
      if top == ZERO {
        assert Accepted(a, i, r, v) in net;
        ProposalsAboveZero(c, net, i, r, v);
      } else {
        CleanChosenForcesProposals(c, net, i, r, v, q, top, v');
      }
    }
  }

  lemma ProposalsAboveZero(c: Config, net: set<Msg>, i: Iid, r: Round, v: Value)
    requires VotingInv(c, net) && Accept(i, r, v) in net
    ensures RoundGt(r, ZERO)
  {
    var p := Accept(i, r, v);
    assert Safe(c, net, p.iid, p.round, p.value);
    var q, top :| SafeBy(c, net, i, r, v, q, top);
  }

  /** Whatever is chosen was chosen cleanly no later. */
  lemma ChosenIsSettled(c: Config, net: set<Msg>, i: Iid, r: Round, v: Value)
    requires ValidConfig(c) && VotingInv(c, net)
    requires ChosenAt(c, net, i, r, v)
    ensures Settled(c, net, i, r, v)
    ensures Accept(i, r, v) in net
  {
    var q :| ChosenBy(c, net, i, r, v, q);
    var b :| b in q;
    var vb := Accepted(b, i, r, v);
    assert vb in net;
    if forall a | a in q :: CleanVote(net, a, i, r) {
      assert CleanChosen(c, net, i, r, v, q);
    } else {
      var a :| a in q && !CleanVote(net, a, i, r);
      var p :| p in net && p.Promise? && p.aid == a && p.iid == i && RoundGt(p.round, r) && !RoundGe(p.lastRound, r);
      var m := Accepted(a, i, r, v);
      assert m in net;
      assert Excused(c, net, m.iid, m.round);
      var w :| Settled(c, net, i, r, w);
      var r0, q0 :| RoundGe(r, r0) && CleanChosen(c, net, i, r0, w, q0);
      CleanChosenForcesProposals(c, net, i, r0, w, q0, r, v);
    }
  }

  /** Above a settled round only the settled value is ever proposed. */
  lemma SettledForcesProposals(c: Config, net: set<Msg>, i: Iid, r: Round, v: Value, r': Round, v': Value)
    requires ValidConfig(c) && VotingInv(c, net)
    requires Settled(c, net, i, r, v)
    requires RoundGe(r', r) && Accept(i, r', v') in net
    ensures v' == v
  {
    var r0, q :| RoundGe(r, r0) && CleanChosen(c, net, i, r0, v, q);
    CleanChosenForcesProposals(c, net, i, r0, v, q, r', v');
  }

  /** Agreement: an instance is never decided in two ways. */
  lemma Agreement(c: Config, net: set<Msg>, i: Iid, v1: Value, v2: Value)
    requires ValidConfig(c) && VotingInv(c, net)
    requires Decided(c, net, i, v1) && Decided(c, net, i, v2)
    ensures v1 == v2
  {
    var r1 :| ChosenAt(c, net, i, r1, v1);
    var r2 :| ChosenAt(c, net, i, r2, v2);
    ChosenIsSettled(c, net, i, r1, v1);
    ChosenIsSettled(c, net, i, r2, v2);
    if RoundGe(r2, r1) {
      SettledForcesProposals(c, net, i, r1, v1, r2, v2);
    } else {
      SettledForcesProposals(c, net, i, r2, v2, r1, v1);
    }
  }

  lemma SettledIsDecided(c: Config, net: set<Msg>, i: Iid, r: Round, v: Value)
    requires Settled(c, net, i, r, v)
    ensures Decided(c, net, i, v)
  {
    var r0, q :| RoundGe(r, r0) && CleanChosen(c, net, i, r0, v, q);
    assert ChosenBy(c, net, i, r0, v, q);
    assert ChosenAt(c, net, i, r0, v);
  }

  // ---------------------------------------------------------------- sending one more message

  lemma DecidedGrows(c: Config, net: set<Msg>, net': set<Msg>, i: Iid, v: Value)
    requires net <= net' && Decided(c, net, i, v)
    ensures Decided(c, net', i, v)
  {
    var r :| ChosenAt(c, net, i, r, v);
    var q :| ChosenBy(c, net, i, r, v, q);
    assert ChosenBy(c, net', i, r, v, q);
    assert ChosenAt(c, net', i, r, v);
  }

  lemma IsDecidedGrows(c: Config, net: set<Msg>, net': set<Msg>, i: Iid)
    requires net <= net' && IsDecided(c, net, i)
    ensures IsDecided(c, net', i)
  {
    var v :| Decided(c, net, i, v);
    DecidedGrows(c, net, net', i, v);
  }

  lemma TrimGrows(c: Config, net: set<Msg>, net': set<Msg>, t: Iid)
    requires net <= net' && TrimOK(c, net, t)
    ensures TrimOK(c, net', t)
  {
    forall i | 0 < i <= t ensures IsDecided(c, net', i) { IsDecidedGrows(c, net, net', i); }
  }

  lemma SafeByGrows(c: Config, net: set<Msg>, net': set<Msg>, i: Iid, r: Round, v: Value, q: set<Aid>, top: Round)
    requires net <= net' && SafeBy(c, net, i, r, v, q, top)
    ensures SafeBy(c, net', i, r, v, q, top)
  {
    forall a | a in q ensures Promised(net', a, i, r, top) {
      assert Promised(net, a, i, r, top);
      var lr, lv :| Promise(a, i, r, lr, lv) in net && RoundGe(top, lr);
      assert Promise(a, i, r, lr, lv) in net';
    }
  }

  lemma SafeGrows(c: Config, net: set<Msg>, net': set<Msg>, i: Iid, r: Round, v: Value)
    requires net <= net' && Safe(c, net, i, r, v)
    ensures Safe(c, net', i, r, v)
  {
    var q, top :| SafeBy(c, net, i, r, v, q, top);
    SafeByGrows(c, net, net', i, r, v, q, top);
  }

  /** The new message is no promise, or a promise that reports every lower vote of its acceptor. */
  ghost predicate ReportsAllVotes(net: set<Msg>, n: Msg) {
    n.Promise? ==>
      forall m | m in net && m.Accepted? && m.aid == n.aid && m.iid == n.iid && RoundGt(n.round, m.round) ::
        RoundGe(n.lastRound, m.round)
  }

  lemma SettledGrows(c: Config, net: set<Msg>, n: Msg, i: Iid, r: Round, v: Value)
    requires ReportsAllVotes(net, n)
    requires Settled(c, net, i, r, v)
    ensures Settled(c, net + {n}, i, r, v)
  {
    var r0, q :| RoundGe(r, r0) && CleanChosen(c, net, i, r0, v, q);
    forall a | a in q ensures CleanVote(net + {n}, a, i, r0) && Accepted(a, i, r0, v) in net + {n} {
      assert CleanVote(net, a, i, r0);
      var m := Accepted(a, i, r0, v);
      assert m in net;
    }
    assert CleanChosen(c, net + {n}, i, r0, v, q);
  }

  lemma ExcusedGrows(c: Config, net: set<Msg>, n: Msg, i: Iid, r: Round)
    requires ReportsAllVotes(net, n)
    requires Excused(c, net, i, r)
    ensures Excused(c, net + {n}, i, r)
  {
    var v :| Settled(c, net, i, r, v);
    SettledGrows(c, net, n, i, r, v);
  }

  /** What a new message must satisfy so that the voting invariant carries over. */
  ghost predicate MayAdd(c: Config, net: set<Msg>, n: Msg) {
    match n
    case Promise(a, i, r, lr, lv) =>
      && ReportsAllVotes(net, n)
      && (lr == ZERO || Accept(i, lr, lv) in net)
    case Accept(i, r, v) =>
      && Safe(c, net, i, r, v)
      && (forall m | m in net && m.Accept? && m.iid == i && m.round == r :: m.value == v)
    case Accepted(a, i, r, v) =>
      && a in c.acceptors
      && Accept(i, r, v) in net
      && (forall p | p in net && p.Promise? && p.aid == a && p.iid == i
            && RoundGt(p.round, r) && RoundGt(r, p.lastRound) ::
            Excused(c, net, i, r))
    case _ => true
  }

  lemma AddKeepsVoting(c: Config, net: set<Msg>, n: Msg)
    requires VotingInv(c, net) && MayAdd(c, net, n)
    ensures VotingInv(c, net + {n})
    ensures ReportsAllVotes(net, n)
  {
    var net' := net + {n};
    forall m | m in net' && m.Accept? ensures Safe(c, net', m.iid, m.round, m.value) {
      SafeGrows(c, net, net', m.iid, m.round, m.value);
    }
    forall p, m | p in net' && m in net' && p.Promise? && m.Accepted? && p.aid == m.aid && p.iid == m.iid
      && RoundGt(p.round, m.round) && RoundGt(m.round, p.lastRound)
      ensures Excused(c, net', m.iid, m.round)
    {
      assert Excused(c, net, m.iid, m.round);
      ExcusedGrows(c, net, n, m.iid, m.round);
    }
  }
}
