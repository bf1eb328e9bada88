/** When preemptions as written do no harm. */
module PreemptionSafety {
  import opened Types
  import opened Sets
  import opened Voting
  import opened ClassicSystem
  import opened ClassicNet
  import opened ClassicSafety
  import opened PreemptionAsWritten
  import SP = StandardProposer
  import SPP = StandardProposerProof
  import D = Departures

  // ---------------------------------------------------------------- no phase 1 quorum

  /** Without a phase 1 quorum nobody gets as far as phase 2. */
  lemma NobodyProposes(c: Config, s: Sys, p: Pid)
    requires Inv(c, s) && c.q1 > |c.acceptors| && p in s.proposers
    ensures s.proposers[p].accept == map[]
  {
    var x := s.proposers[p];
    if i :| i in x.accept {
      var m := Accept(i, Classic(x.accept[i].ballot), x.accept[i].proposing.value);
      assert SPP.AcceptingOK(c, s.net, x.id, i, x.accept[i]);
      assert m in s.net && Safe(c, s.net, m.iid, m.round, m.value);
      var q, top :| SafeBy(c, s.net, m.iid, m.round, m.value, q, top);
      SubsetSize(q, c.acceptors);
    }
  }

  /** In phase 1 a preemption as written is the intended one. */
  lemma SameInPhaseOne(d: Return, c: Config, s: Sys, e: Event)
    requires Inv(c, s) && Enabled(s, e) && IsPreemption(s, e) && s.proposers[e.p].accept == map[]
    ensures ApplyIn(d, s, e) == Apply(s, e)
  {
    var x := s.proposers[e.p];
    assert e.m.iid in x.prepare ==> SPP.PreparingOK(c, s.net, x.id, e.m.iid, x.prepare[e.m.iid]);
    SameHandler(d, x, e.m.iid, e.m.attempted.ballot, e.b);
  }

  lemma SameHandler(d: Return, p: SP.Proposer, i: Iid, attempted: Ballot, b: Ballot)
    requires p.accept == map[]
    requires i in p.prepare && p.prepare[i].lastValue.None? ==> p.prepare[i].lastBallot == INVALID_BALLOT
    ensures OnPreemptedIn(d, p, i, attempted, b) == SP.OnPreempted(p, i, attempted, b)
  {}

  lemma {:induction false} SameRun(d: Return, c: Config, s: Sys, es: seq<Event>)
    requires ValidConfig(c) && Init(c, s) && c.q1 > |c.acceptors|
    ensures RunIn(d, s, es) == Run(s, es)
    decreases |es|
  {
    if es != [] {
      var es', e := es[..|es| - 1], es[|es| - 1];
      SameRun(d, c, s, es');
      InitOK(c, s);
      RunKeepsInv(c, s, es');
      var s' := Run(s, es');
      if Enabled(s', e) && IsPreemption(s', e) {
        NobodyProposes(c, s', e.p);
        SameInPhaseOne(d, c, s', e);
      }
    }
  }

  // ---------------------------------------------------------------- q2 is a phase 1 quorum

  function Smaller(c: Config): Config { c.(q1 := if c.q1 < c.q2 then c.q1 else c.q2) }

  lemma PreemptionWithQ2(c: Config, s: Sys, e: Event)
    requires c.q2 >= c.q1 && Inv(c, s) && Enabled(s, e) && IsPreemption(s, e)
    ensures Inv(c, ApplyIn(WithQ2, s, e))
  {
    var p, m := s.proposers[e.p], e.m;
    assert MsgOK(c, s.net, m);
    SPP.PreemptedToOK(c, s.net, p, m.iid, m.attempted.ballot, e.b, p.q2);
    var (p', out) := SP.OnPreemptedTo(p, m.iid, m.attempted.ballot, e.b, p.q2);
    ProposerMoves(c, s, e.p, p', out);
  }

  lemma StepWithQ2(c: Config, s: Sys, e: Event)
    requires ValidConfig(c) && c.q2 >= c.q1 && Inv(c, s) && Enabled(s, e)
    ensures Inv(c, ApplyIn(WithQ2, s, e))
  {
    if IsPreemption(s, e) { PreemptionWithQ2(c, s, e); } else { StepKeepsInv(c, s, e); }
  }

  lemma {:induction false} RunWithQ2(c: Config, s: Sys, es: seq<Event>)
    requires ValidConfig(c) && c.q2 >= c.q1 && Inv(c, s)
    ensures Inv(c, RunIn(WithQ2, s, es))
    decreases |es|
  {
    if es != [] {
      var es', e := es[..|es| - 1], es[|es| - 1];
      RunWithQ2(c, s, es');
      var s' := RunIn(WithQ2, s, es');
      if Enabled(s', e) { StepWithQ2(c, s', e); }
    }
  }

  // ---------------------------------------------------------------- agreement

  /** Decisions do not depend on q1. */
  lemma SameDecisions(c: Config, q1: nat, net: set<Msg>, i: Iid, v: Value)
    requires Decided(c, net, i, v)
    ensures Decided(c.(q1 := q1), net, i, v)
  {
    var r :| ChosenAt(c, net, i, r, v);
    var q :| ChosenBy(c, net, i, r, v, q);
    assert ChosenBy(c.(q1 := q1), net, i, r, v, q);
    assert ChosenAt(c.(q1 := q1), net, i, r, v);
  }

  lemma NothingDecided(c: Config, net: set<Msg>, i: Iid, v: Value)
    requires c.q2 > |c.acceptors|
    ensures !Decided(c, net, i, v)
  {
    if Decided(c, net, i, v) {
      var r :| ChosenAt(c, net, i, r, v);
      var q :| ChosenBy(c, net, i, r, v, q);
      SubsetSize(q, c.acceptors);
    }
  }

  /** Where no quorum exists for one of the phases, nothing can go wrong. */
  lemma AgreesWithoutQuorums(d: Return, c: Config)
    requires ValidConfig(c) && (c.q1 > |c.acceptors| || c.q2 > |c.acceptors|)
    ensures Agrees(d, c)
  {
    forall s, es, i, v1, v2 | Init(c, s) && Decided(c, RunIn(d, s, es).net, i, v1)
        && Decided(c, RunIn(d, s, es).net, i, v2)
      ensures v1 == v2
    {
      if c.q2 > |c.acceptors| {
        NothingDecided(c, RunIn(d, s, es).net, i, v1);
      } else {
        SameRun(d, c, s, es);
        AgreementInEveryRun(c, s, es, i, v1, v2);
      }
    }
  }

  /** Where any two phase 2 quorums meet, a return with q2 is safe. */
  lemma AgreesWithQ2(c: Config)
    requires ValidConfig(c) && 2 * c.q2 > |c.acceptors|
    ensures Agrees(WithQ2, c)
  {
    var c' := Smaller(c);
    forall s, es, i, v1, v2 | Init(c, s) && Decided(c, RunIn(WithQ2, s, es).net, i, v1)
        && Decided(c, RunIn(WithQ2, s, es).net, i, v2)
      ensures v1 == v2
    {
      InitFits(c, c'.q1, s);
      RunWithQ2(c', s, es);
      var net := RunIn(WithQ2, s, es).net;
      SameDecisions(c, c'.q1, net, i, v1);
      SameDecisions(c, c'.q1, net, i, v2);
      Agreement(c', net, i, v1, v2);
    }
  }
}
