/** Safety of every run of the epoch protocol. */
module EpochSafety {
  import opened Types
  import opened Voting
  import opened EpochNet
  import opened EpochSystem
  import EA = EpochAcceptor
  import EAP = EpochAcceptorProof
  import EP = EpochProposer
  import EPP = EpochProposerProof
  import EL = EpochLearner
  import ELP = EpochLearnerProof
  import LP = LearnerProof

  ghost predicate AcceptorOK(c: Config, net: set<Msg>, id: Aid, a: EA.EpAcceptor) { a.id == id && EAP.EpOK(c, net, a) }

  ghost predicate Inv(c: Config, s: Sys) {
    && NetInv(c, s.net)
    && (forall a | a in s.acceptors :: AcceptorOK(c, s.net, a, s.acceptors[a]))
    && (forall p | p in s.proposers :: s.proposers[p].id == p && EPP.ProposerOK(c, s.net, s.proposers[p]))
    && (forall l | l in s.learners :: ELP.LearnerInv(c, s.net, s.learners[l]))
  }

  lemma InitOK(c: Config, s: Sys)
    requires Init(c, s)
    ensures Inv(c, s)
  {
    forall a | a in s.acceptors ensures AcceptorOK(c, s.net, a, s.acceptors[a]) { EAP.BootOK(c, a); }
    forall p | p in s.proposers ensures s.proposers[p].id == p && EPP.ProposerOK(c, s.net, s.proposers[p]) {
      var j :| s.proposers[p] == EP.Boot(p, c.q1, c.q2, j);
      EPP.BootOK(c, p, j);
    }
  }

  // ---------------------------------------------------------------- everyone else is unaffected

  lemma AcceptorsGrow(c: Config, s: Sys, n: Msg, except: Option<Aid>)
    requires Inv(c, s)
    requires n.Promise? || n.Accepted? ==> except == Some(n.aid)
    ensures forall a | a in s.acceptors && except != Some(a) :: AcceptorOK(c, s.net + {n}, a, s.acceptors[a])
  {
    forall a | a in s.acceptors && except != Some(a) ensures AcceptorOK(c, s.net + {n}, a, s.acceptors[a]) {
      EAP.Grows(c, s.net, s.acceptors[a], n);
    }
  }

  lemma ProposersGrow(c: Config, s: Sys, n: Msg, except: Option<Pid>)
    requires Inv(c, s)
    requires forall p: Pid | EPP.IsOwn(p, n) :: except == Some(p)
    ensures forall p | p in s.proposers && except != Some(p) :: EPP.ProposerOK(c, s.net + {n}, s.proposers[p])
  {
    forall p | p in s.proposers && except != Some(p) ensures EPP.ProposerOK(c, s.net + {n}, s.proposers[p]) {
      assert !EPP.IsOwn(p, n);
      EPP.Grows(c, s.net, s.proposers[p], n);
    }
  }

  lemma LearnersGrow(c: Config, s: Sys, n: Msg)
    requires Inv(c, s)
    ensures forall l | l in s.learners :: ELP.LearnerInv(c, s.net + {n}, s.learners[l])
  {
    forall l | l in s.learners ensures ELP.LearnerInv(c, s.net + {n}, s.learners[l]) {
      ELP.Grows(c, s.net, s.learners[l], n);
    }
  }

  lemma AcceptorMoves(c: Config, s: Sys, a: Aid, r: (EA.EpAcceptor, Option<Msg>))
    requires Inv(c, s) && a in s.acceptors && r.0.id == a && EAP.StepFine(c, s.net, a, r)
    ensures Inv(c, SetAcceptor(s, a, r))
  {
    assert s.net + {} == s.net;
    if r.1.Some? {
      AddKeepsNet(c, s.net, r.1.value);
      AcceptorsGrow(c, s, r.1.value, Some(a));
      ProposersGrow(c, s, r.1.value, None);
      LearnersGrow(c, s, r.1.value);
    }
  }

  lemma ProposerMoves(c: Config, s: Sys, p: Pid, r: (EP.Proposer, Option<Msg>))
    requires Inv(c, s) && p in s.proposers && r.0.id == p && EPP.StepFine(c, s.net, s.proposers[p], r)
    ensures Inv(c, SetProposer(s, p, r))
  {
    assert s.net + {} == s.net;
    if r.1.Some? {
      AddKeepsNet(c, s.net, r.1.value);
      AcceptorsGrow(c, s, r.1.value, None);
      ProposersGrow(c, s, r.1.value, Some(p));
      LearnersGrow(c, s, r.1.value);
    }
  }

  lemma LearnerMoves(c: Config, s: Sys, l: nat, r: (EL.Learner, Option<Msg>))
    requires Inv(c, s) && l in s.learners && ELP.StepFine(c, s.net, r)
    requires forall i | i in r.0.instances :: ELP.NoStrayValues(r.0.instances[i])
    ensures Inv(c, SetLearner(s, l, r))
  {
    assert s.net + {} == s.net;
    if r.1.Some? {
      AddKeepsNet(c, s.net, r.1.value);
      AcceptorsGrow(c, s, r.1.value, None);
      ProposersGrow(c, s, r.1.value, None);
      LearnersGrow(c, s, r.1.value);
    }
  }

  // ---------------------------------------------------------------- every step

  lemma AcceptorStepOK(c: Config, s: Sys, a: Aid, m: Msg)
    requires Inv(c, s) && a in s.acceptors && m in s.net
    ensures Inv(c, SetAcceptor(s, a, EA.Step(s.acceptors[a], m)))
  {
    EAP.StepOK(c, s.net, s.acceptors[a], m);
    EAP.StepKeepsId(s.acceptors[a], m);
    AcceptorMoves(c, s, a, EA.Step(s.acceptors[a], m));
  }

  lemma AcceptorInternalOK(c: Config, s: Sys, a: Aid, i: Iid)
    requires Inv(c, s) && a in s.acceptors
    ensures Inv(c, SetAcceptor(s, a, (s.acceptors[a], EA.OnRepeat(s.acceptors[a], i))))
    ensures Inv(c, SetAcceptor(s, a, EA.Crash(s.acceptors[a])))
  {
    var x := s.acceptors[a];
    EAP.RepeatOK(c, s.net, x, i);
    AcceptorMoves(c, s, a, (x, EA.OnRepeat(x, i)));
    EAP.CrashOK(c, s.net, x);
    AcceptorMoves(c, s, a, EA.Crash(x));
  }

  /** Periodic state: the trim point and the epoch. */
  lemma AcceptorAnnounceOK(c: Config, s: Sys, a: Aid)
    requires Inv(c, s) && a in s.acceptors
    ensures Inv(c, SetAcceptor(s, a, (s.acceptors[a], Some(Trim(s.acceptors[a].trim)))))
    ensures Inv(c, SetAcceptor(s, a, (s.acceptors[a], Some(NewEpoch(s.acceptors[a].epoch)))))
  {
    var x := s.acceptors[a];
    EAP.AnnounceOK(c, s.net, x);
    AcceptorMoves(c, s, a, (x, Some(Trim(x.trim))));
    AcceptorMoves(c, s, a, (x, Some(NewEpoch(x.epoch))));
  }

  lemma ProposerStepOK(c: Config, s: Sys, p: Pid, m: Msg, b: Ballot)
    requires ValidConfig(c) && Inv(c, s) && Enabled(s, ProposerGets(p, m, b))
    ensures Inv(c, SetProposer(s, p, EP.Step(s.proposers[p], m, b)))
  {
    EPP.StepOK(c, s.net, s.proposers[p], m, b);
    EPP.StepKeepsId(s.proposers[p], m, b);
    ProposerMoves(c, s, p, EP.Step(s.proposers[p], m, b));
  }

  lemma ProposerStartOK(c: Config, s: Sys, p: Pid, b: Ballot)
    requires Inv(c, s) && Enabled(s, ProposerStarts(p, b))
    ensures Inv(c, SetProposer(s, p, EP.Preexecute(s.proposers[p], b)))
  {
    EPP.StartOK(c, s.net, s.proposers[p], b);
    ProposerMoves(c, s, p, EP.Preexecute(s.proposers[p], b));
  }

  lemma ProposerAcceptOK(c: Config, s: Sys, p: Pid, i: Iid, client: Option<Value>)
    requires Inv(c, s) && Enabled(s, ProposerAccepts(p, i, client))
    ensures Inv(c, SetProposer(s, p, EP.BeginAccept(s.proposers[p], i, client)))
  {
    EPP.BeginAcceptOK(c, s.net, s.proposers[p], i, client);
    ProposerMoves(c, s, p, EP.BeginAccept(s.proposers[p], i, client));
  }

  lemma ProposerRepeatOK(c: Config, s: Sys, p: Pid, i: Iid)
    requires Inv(c, s) && p in s.proposers
    ensures Inv(c, SetProposer(s, p, (s.proposers[p], EP.Resend(s.proposers[p], i))))
    ensures Inv(c, SetProposer(s, p, (s.proposers[p], Some(Trim(s.proposers[p].trim)))))
  {
    var x := s.proposers[p];
    EPP.ResendOK(c, s.net, x, i);
    ProposerMoves(c, s, p, (x, EP.Resend(x, i)));
    EPP.Grows(c, s.net, x, Trim(x.trim));
    ProposerMoves(c, s, p, (x, Some(Trim(x.trim))));
  }

  lemma LearnerStepOK(c: Config, s: Sys, l: nat, m: Msg)
    requires ValidConfig(c) && Inv(c, s) && l in s.learners && m in s.net
    ensures Inv(c, SetLearner(s, l, EL.Step(s.learners[l], m)))
  {
    ELP.StepOK(c, s.net, s.learners[l], m);
    ELP.StepKeepsVoters(s.learners[l], m);
    LearnerMoves(c, s, l, EL.Step(s.learners[l], m));
  }

  lemma LearnerInternalOK(c: Config, s: Sys, l: nat)
    requires Inv(c, s) && l in s.learners
    ensures Inv(c, SetLearner(s, l, (EL.Deliver(s.learners[l]), None)))
    ensures Inv(c, SetLearner(s, l, EL.Announce(s.learners[l])))
  {
    ELP.DeliverOK(c, s.net, s.learners[l]);
    ELP.SilentFine(c, s.net, EL.Deliver(s.learners[l]));
    LearnerMoves(c, s, l, (EL.Deliver(s.learners[l]), None));
    ELP.AnnounceOK(c, s.net, s.learners[l]);
    LearnerMoves(c, s, l, EL.Announce(s.learners[l]));
  }

  /** Every step of every role keeps the invariant. */
  lemma StepKeepsInv(c: Config, s: Sys, e: Event)
    requires ValidConfig(c) && Inv(c, s) && Enabled(s, e)
    ensures Inv(c, Apply(s, e))
  {
    match e
    case AcceptorGets(a, m) => AcceptorStepOK(c, s, a, m);
    case AcceptorRepeats(a, i) => AcceptorInternalOK(c, s, a, i);
    case AcceptorCrashes(a) => AcceptorInternalOK(c, s, a, 0);
    case AcceptorAnnounces(a) => AcceptorAnnounceOK(c, s, a);
    case AcceptorNotifies(a) => AcceptorAnnounceOK(c, s, a);
    case ProposerStarts(p, b) => ProposerStartOK(c, s, p, b);
    case ProposerGets(p, m, b) => ProposerStepOK(c, s, p, m, b);
    case ProposerAccepts(p, i, client) => ProposerAcceptOK(c, s, p, i, client);
    case ProposerResends(p, i) => ProposerRepeatOK(c, s, p, i);
    case ProposerAnnounces(p) => ProposerRepeatOK(c, s, p, 0);
    case LearnerGets(l, m) => LearnerStepOK(c, s, l, m);
    case LearnerDelivers(l) => LearnerInternalOK(c, s, l);
    case LearnerAnnounces(l) => LearnerInternalOK(c, s, l);
  }

  lemma {:induction false} RunKeepsInv(c: Config, s: Sys, es: seq<Event>)
    requires ValidConfig(c) && Inv(c, s)
    ensures Inv(c, Run(s, es))
  {
    if es != [] {
      RunKeepsInv(c, s, es[..|es| - 1]);
      var s' := Run(s, es[..|es| - 1]);
      if Enabled(s', es[|es| - 1]) { StepKeepsInv(c, s', es[|es| - 1]); }
    }
  }

  lemma RunIsFine(c: Config, s: Sys, es: seq<Event>)
    requires ValidConfig(c) && Init(c, s)
    ensures Inv(c, Run(s, es))
  {
    InitOK(c, s);
    RunKeepsInv(c, s, es);
  }

  // ---------------------------------------------------------------- theorems about every run

  /** Someone reports instance i as chosen with value v: a chosen message, a learner's decision or delivery. */
  ghost predicate ReportsChosen(c: Config, s: Sys, i: Iid, v: Value) {
    || (exists r :: Chosen(i, r, v) in s.net)
    || (exists l ::
          l in s.learners && i in s.learners[l].instances && EL.ChosenValue(s.learners[l].instances[i]) == Some(v))
    || (exists l :: l in s.learners && 0 < i <= |s.learners[l].delivered| && s.learners[l].delivered[i - 1] == v)
    || Decided(c, s.net, i, v)
  }

  lemma ReportsAreDecisions(c: Config, s: Sys, i: Iid, v: Value)
    requires Inv(c, s) && ReportsChosen(c, s, i, v)
    ensures Decided(c, s.net, i, v)
  {
    if r :| Chosen(i, r, v) in s.net {
      var m := Chosen(i, r, v);
      assert MsgOK(c, s.net, m);
      ChosenIsDecided(c, s.net, i, r, v);
    } else if l :| l in s.learners && 0 < i <= |s.learners[l].delivered| && s.learners[l].delivered[i - 1] == v {
      assert ELP.LearnerOK(c, s.net, s.learners[l]);
      assert Decided(c, s.net, (i - 1) + 1, s.learners[l].delivered[i - 1]);
    }
  }

  /** Agreement although promises are never written: no instance is ever reported chosen with two values. */
  lemma AgreementInEveryRun(c: Config, s: Sys, es: seq<Event>, i: Iid, v1: Value, v2: Value)
    requires ValidConfig(c) && Init(c, s)
    requires ReportsChosen(c, Run(s, es), i, v1) && ReportsChosen(c, Run(s, es), i, v2)
    ensures v1 == v2
  {
    RunIsFine(c, s, es);
    ReportsAreDecisions(c, Run(s, es), i, v1);
    ReportsAreDecisions(c, Run(s, es), i, v2);
    Agreement(c, Run(s, es).net, i, v1, v2);
  }

  /** No acceptor ever votes below an epoch ballot it promised for the instance, crashes or not. */
  lemma VotesRespectPromisesInEveryRun(c: Config, s: Sys, es: seq<Event>, a: Aid, m: Msg, p: Msg)
    requires ValidConfig(c) && Init(c, s)
    requires a in Run(s, es).acceptors && m in Run(s, es).net && m.Accept?
    requires EA.Step(Run(s, es).acceptors[a], m).1 == Some(Accepted(a, m.iid, m.round, m.value))
    requires p in Run(s, es).net && p.Promise? && p.aid == a && p.iid == m.iid
    ensures RoundGe(m.round, p.round)
  {
    RunIsFine(c, s, es);
    assert AcceptorOK(c, Run(s, es).net, a, Run(s, es).acceptors[a]);
    EAP.VotesRespectPromises(c, Run(s, es).net, Run(s, es).acceptors[a], m.iid, m.round, m.value, p);
  }

  /** Early detection: in every reachable state the count of equal reports is exact, and whatever a proposer
      declares chosen on the strength of promises alone is chosen. */
  lemma EarlyDetectionInEveryRun(c: Config, s: Sys, es: seq<Event>, p: Pid)
    requires ValidConfig(c) && Init(c, s) && p in Run(s, es).proposers
    ensures var s' := Run(s, es); var x := s'.proposers[p];
      && (forall i | i in x.prepare :: EPP.Tallied(s'.net, i, x.prepare[i]))
      && (forall m | m in s'.net && m.Promise? && m.round.ballot.proposer == p ::
            var out := EP.OnPromise(x, m.aid, m.iid, m.round, m.lastRound, m.lastValue).1;
            out.Some? && out.value.Chosen? ==> ChosenAt(c, s'.net, out.value.iid, out.value.round, out.value.value))
  {
    RunIsFine(c, s, es);
    var s' := Run(s, es);
    var x := s'.proposers[p];
    forall m | m in s'.net && m.Promise? && m.round.ballot.proposer == p
      ensures var out := EP.OnPromise(x, m.aid, m.iid, m.round, m.lastRound, m.lastValue).1;
        out.Some? && out.value.Chosen? ==> ChosenAt(c, s'.net, out.value.iid, out.value.round, out.value.value)
    {
      EPP.PromiseStepOK(c, s'.net, x, m);
    }
  }

  /** Every trim point held or sent by anyone covers decided instances only. */
  lemma TrimsInEveryRun(c: Config, s: Sys, es: seq<Event>)
    requires ValidConfig(c) && Init(c, s)
    ensures var s' := Run(s, es);
      && (forall a | a in s'.acceptors :: TrimOK(c, s'.net, s'.acceptors[a].trim))
      && (forall p | p in s'.proposers :: TrimOK(c, s'.net, s'.proposers[p].trim))
      && (forall l | l in s'.learners :: TrimOK(c, s'.net, s'.learners[l].trim))
      && (forall m | m in s'.net && m.Trim? :: TrimOK(c, s'.net, m.iid))
  {
    RunIsFine(c, s, es);
    var s' := Run(s, es);
    forall a | a in s'.acceptors ensures TrimOK(c, s'.net, s'.acceptors[a].trim) {
      EAP.TrimBelow(c, s'.net, s'.acceptors[a].trim, s'.acceptors[a].mem.base.minChosen);
    }
    forall m | m in s'.net && m.Trim? ensures TrimOK(c, s'.net, m.iid) { assert MsgOK(c, s'.net, m); }
  }

  /** Each learner has delivered the decisions of instances 1 to min - 1, in order and once each; any two
      learners' sequences are prefixes of one another. */
  lemma DeliveriesInEveryRun(c: Config, s: Sys, es: seq<Event>, l1: nat, l2: nat)
    requires ValidConfig(c) && Init(c, s)
    requires l1 in Run(s, es).learners && l2 in Run(s, es).learners
    ensures var s' := Run(s, es);
      var d1, d2 := s'.learners[l1].delivered, s'.learners[l2].delivered;
      && s'.learners[l1].min == |d1| + 1
      && LP.DeliveredOK(c, s'.net, d1)
      && (d1 <= d2 || d2 <= d1)
  {
    RunIsFine(c, s, es);
    var s' := Run(s, es);
    ELP.DeliveredArePrefixes(c, s'.net, s'.learners[l1], s'.learners[l2]);
  }

  /** No acceptor ever speaks in epoch 0, so 0 is free to mean that no epoch is known. */
  lemma EpochsInEveryRun(c: Config, s: Sys, es: seq<Event>, m: Msg)
    requires ValidConfig(c) && Init(c, s) && m in Run(s, es).net
    ensures m.Promise? || m.Accepted? || m.Chosen? ==> m.round.epoch > 0
    ensures m.Preempted? ==> m.current.epoch > 0
    ensures m.NewEpoch? ==> m.epoch > 0
  {
    RunIsFine(c, s, es);
    var net := Run(s, es).net;
    assert MsgOK(c, net, m);
    if m.Chosen? {
      var q :| ChosenBy(c, net, m.iid, m.round, m.value, q);
      var a :| a in q;
      assert MsgOK(c, net, Accepted(a, m.iid, m.round, m.value));
    }
  }

  /** In every reachable state the proposer's test for a current promise, in which epoch 0 stands for "not known",
      lets one round into a quorum and no other: while the epoch is 0 nothing has been counted, and from the first
      counted promise on exactly the promises of that one round pass. */
  lemma OneRoundPerQuorumInEveryRun(c: Config, s: Sys, es: seq<Event>, p: Pid, i: Iid, r: Round)
    requires ValidConfig(c) && Init(c, s) && p in Run(s, es).proposers && i in Run(s, es).proposers[p].prepare
    ensures var inst := Run(s, es).proposers[p].prepare[i];
      && (inst.epoch == 0 ==> inst.quorum == {} && inst.lastValue.None? && inst.same == 0)
      && (inst.quorum != {} ==> (EP.IsCurrent(inst, r) <==> r == EP.Current(inst)))
      && (forall a | a in inst.quorum :: Promised(Run(s, es).net, a, i, EP.Current(inst), inst.lastRound))
  {
    RunIsFine(c, s, es);
    var net, inst := Run(s, es).net, Run(s, es).proposers[p].prepare[i];
    var rep :| EPP.Tally(net, i, inst, rep);
    if inst.epoch == 0 { assert EPP.Reporters(inst, rep) == {}; }
    forall a | a in inst.quorum ensures Promised(net, a, i, EP.Current(inst), inst.lastRound) {
      assert a in rep;
      var lv :| Promise(a, i, EP.Current(inst), rep[a], lv) in net;
    }
  }
}
