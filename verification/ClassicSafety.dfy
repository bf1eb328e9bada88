/** Safety of every run of the epoch-less protocol. */
module ClassicSafety {
  import opened Types
  import opened Memory
  import opened Voting
  import opened ClassicNet
  import opened ClassicSystem
  import SA = StandardAcceptor
  import SAP = StandardAcceptorProof
  import WA = WriteAheadAcceptor
  import WW = WriteAheadWindow
  import WAP = WriteAheadAcceptorProof
  import WR = WriteAheadRefinement
  import SP = StandardProposer
  import SPP = StandardProposerProof
  import L = Learner
  import LP = LearnerProof

  ghost predicate AcceptorOK(c: Config, net: set<Msg>, id: Aid, a: Acceptor) {
    match a
    case Std(s) => s.id == id && SAP.StdOK(c, net, s)
    case Wa(w) => w.id == id && WAP.WaOK(c, net, w)
  }

  ghost predicate Inv(c: Config, s: Sys) {
    && NetInv(c, s.net)
    && Justified(c, s.net)
    && (forall a | a in s.acceptors :: AcceptorOK(c, s.net, a, s.acceptors[a]))
    && (forall p | p in s.proposers :: s.proposers[p].id == p && SPP.ProposerOK(c, s.net, s.proposers[p]))
    && (forall l | l in s.learners :: LP.LearnerOK(c, s.net, s.learners[l]))
  }

  lemma InitOK(c: Config, s: Sys)
    requires Init(c, s)
    ensures Inv(c, s)
  {
    InitFits(c, c.q1, s);
  }

  /** What is claimed of phase 1 quorums of size q1 can be claimed of smaller ones. */
  lemma InitFits(c: Config, q1: nat, s: Sys)
    requires Init(c, s) && q1 <= c.q1
    ensures Inv(c.(q1 := q1), s)
  {
    var c' := c.(q1 := q1);
    forall a | a in s.acceptors ensures AcceptorOK(c', s.net, a, s.acceptors[a]) {
      if s.acceptors[a] == Std(SA.Boot(a)) {
        SAP.BootOK(c', a);
      } else {
        var w, k :| s.acceptors[a] == Wa(WA.Boot(a, w, k));
        WAP.BootOK(c', a, w, k);
      }
    }
    forall p | p in s.proposers ensures s.proposers[p].id == p && SPP.ProposerOK(c', s.net, s.proposers[p]) {
      var j :| s.proposers[p] == SP.Boot(p, c.q1, c.q2, j);
      SPP.BootOK(c', p, c.q1, j);
    }
  }

  // ---------------------------------------------------------------- everyone else is unaffected

  lemma AcceptorGrows(c: Config, net: set<Msg>, id: Aid, a: Acceptor, n: Msg)
    requires AcceptorOK(c, net, id, a) && ReportsAllVotes(net, n)
    requires n.Promise? || n.Accepted? ==> n.aid != id
    ensures AcceptorOK(c, net + {n}, id, a)
  {
    match a
    case Std(s) => SAP.Grows(c, net, s, n);
    case Wa(w) => WAP.Grows(c, net, w, n);
  }

  lemma AcceptorsGrow(c: Config, s: Sys, n: Msg, except: Option<Aid>)
    requires Inv(c, s) && ReportsAllVotes(s.net, n)
    requires n.Promise? || n.Accepted? ==> except == Some(n.aid)
    ensures forall a | a in s.acceptors && except != Some(a) :: AcceptorOK(c, s.net + {n}, a, s.acceptors[a])
  {
    forall a | a in s.acceptors && except != Some(a) ensures AcceptorOK(c, s.net + {n}, a, s.acceptors[a]) {
      AcceptorGrows(c, s.net, a, s.acceptors[a], n);
    }
  }

  lemma ProposersGrow(c: Config, s: Sys, n: Msg, except: Option<Pid>)
    requires Inv(c, s)
    requires n.Prepare? || n.Accept? ==> except == Some(n.round.ballot.proposer)
    ensures forall p | p in s.proposers && except != Some(p) :: SPP.ProposerOK(c, s.net + {n}, s.proposers[p])
  {
    forall p | p in s.proposers && except != Some(p) ensures SPP.ProposerOK(c, s.net + {n}, s.proposers[p]) {
      SPP.Grows(c, s.net, s.proposers[p], n);
    }
  }

  lemma LearnersGrow(c: Config, s: Sys, n: Msg)
    requires Inv(c, s)
    ensures forall l | l in s.learners :: LP.LearnerOK(c, s.net + {n}, s.learners[l])
  {
    forall l | l in s.learners ensures LP.LearnerOK(c, s.net + {n}, s.learners[l]) {
      LP.Grows(c, s.net, s.learners[l], n);
    }
  }

  /** One acceptor moves and answers. */
  lemma AcceptorMoves(c: Config, s: Sys, a: Aid, a': Acceptor, out: Option<Msg>)
    requires Inv(c, s) && a in s.acceptors
    requires SAP.AnswerOK(c, s.net, a, out) && AcceptorOK(c, s.net + ToSet(out), a, a')
    ensures Inv(c, SetAcceptor(s, a, (a', out)))
  {
    assert s.net + {} == s.net;
    if out.Some? {
      AddKeepsNet(c, s.net, out.value);
      AddKeepsJustified(c, s.net, out.value);
      AcceptorsGrow(c, s, out.value, Some(a));
      ProposersGrow(c, s, out.value, None);
      LearnersGrow(c, s, out.value);
    }
  }

  lemma ProposerMoves(c: Config, s: Sys, p: Pid, p': SP.Proposer, out: Option<Msg>)
    requires Inv(c, s) && p in s.proposers && p'.id == p
    requires SPP.OutOK(c, s.net, p, out) && SPP.ProposerOK(c, s.net + ToSet(out), p')
    ensures Inv(c, SetProposer(s, p, (p', out)))
  {
    assert s.net + {} == s.net;
    if out.Some? {
      AddKeepsNet(c, s.net, out.value);
      AddKeepsJustified(c, s.net, out.value);
      AcceptorsGrow(c, s, out.value, None);
      ProposersGrow(c, s, out.value, Some(p));
      LearnersGrow(c, s, out.value);
    }
  }

  lemma LearnerMoves(c: Config, s: Sys, l: nat, l': L.Learner, out: Option<Msg>)
    requires Inv(c, s) && l in s.learners
    requires LP.OutOK(c, s.net, out) && LP.LearnerOK(c, s.net + ToSet(out), l')
    ensures Inv(c, SetLearner(s, l, (l', out)))
  {
    assert s.net + {} == s.net;
    if out.Some? {
      AddKeepsNet(c, s.net, out.value);
      AddKeepsJustified(c, s.net, out.value);
      AcceptorsGrow(c, s, out.value, None);
      ProposersGrow(c, s, out.value, None);
      LearnersGrow(c, s, out.value);
    }
  }

  // ---------------------------------------------------------------- every step

  lemma AcceptorStepOK(c: Config, s: Sys, a: Aid, m: Msg)
    requires ValidConfig(c) && Inv(c, s) && a in s.acceptors && m in s.net
    ensures Inv(c, SetAcceptor(s, a, AcceptorStep(s.acceptors[a], m)))
  {
    match s.acceptors[a]
    case Std(x) =>
      SAP.StepOK(c, s.net, x, m);
      SAP.StepKeepsId(x, m);
      var (x', out) := SA.Step(x, m);
      AcceptorMoves(c, s, a, Std(x'), out);
    case Wa(w) =>
      WAP.StepOK(c, s.net, w, m);
      WAP.StepKeepsId(w, m);
      var (w', out) := WA.Step(w, m);
      AcceptorMoves(c, s, a, Wa(w'), out);
  }

  lemma AcceptorRepeatOK(c: Config, s: Sys, a: Aid, i: Iid)
    requires Inv(c, s) && a in s.acceptors
    ensures Inv(c, SetAcceptor(s, a, (s.acceptors[a], AcceptorRepeat(s.acceptors[a], i))))
  {
    var out := AcceptorRepeat(s.acceptors[a], i);
    assert s.net + {} == s.net;
    match s.acceptors[a]
    case Std(x) =>
      SAP.RepeatOK(c, s.net, x, i);
      if out.Some? {
        if out.value.Accepted? { assert s.net + {out.value} == s.net; } else { SAP.Grows(c, s.net, x, out.value); }
      }
      AcceptorMoves(c, s, a, s.acceptors[a], out);
    case Wa(w) =>
      WAP.RepeatOK(c, s.net, w, i);
      AcceptorMoves(c, s, a, s.acceptors[a], out);
  }

  lemma AcceptorInternalOK(c: Config, s: Sys, a: Aid, n: Iid)
    requires Inv(c, s) && a in s.acceptors
    ensures Inv(c, SetAcceptor(s, a, (AcceptorCrash(s.acceptors[a], n), None)))
    ensures Inv(c, SetAcceptor(s, a, (AcceptorRenew(s.acceptors[a]), None)))
  {
    assert s.net + {} == s.net;
    match s.acceptors[a]
    case Std(x) =>
      SAP.CrashOK(c, s.net, x);
      AcceptorMoves(c, s, a, Std(SA.Crash(x)), None);
    case Wa(w) =>
      WAP.CrashOK(c, s.net, w, n);
      WAP.FlushOK(c, s.net, w);
      WW.CrashLocal(w, n);
      WW.FlushLocal(w);
      AcceptorMoves(c, s, a, Wa(WA.Crash(w, n)), None);
      AcceptorMoves(c, s, a, Wa(WA.Flush(w)), None);
  }

  lemma AcceptorAnnounceOK(c: Config, s: Sys, a: Aid)
    requires Inv(c, s) && a in s.acceptors
    ensures Inv(c, SetAcceptor(s, a, (s.acceptors[a], Some(Trim(AcceptorTrim(s.acceptors[a]))))))
  {
    var n := Trim(AcceptorTrim(s.acceptors[a]));
    AcceptorGrows(c, s.net, a, s.acceptors[a], n);
    AcceptorMoves(c, s, a, s.acceptors[a], Some(n));
  }

  lemma ProposerStepOK(c: Config, s: Sys, p: Pid, m: Msg, b: Ballot)
    requires ValidConfig(c) && Inv(c, s) && Enabled(s, ProposerGets(p, m, b))
    ensures Inv(c, SetProposer(s, p, SP.Step(s.proposers[p], m, b)))
  {
    SPP.StepOK(c, s.net, s.proposers[p], m, b);
    SPP.StepKeepsId(s.proposers[p], m, b);
    var (p', out) := SP.Step(s.proposers[p], m, b);
    ProposerMoves(c, s, p, p', out);
  }

  lemma ProposerStartOK(c: Config, s: Sys, p: Pid, b: Ballot)
    requires Inv(c, s) && Enabled(s, ProposerStarts(p, b))
    ensures Inv(c, SetProposer(s, p, SP.Preexecute(s.proposers[p], b)))
  {
    SPP.StartOK(c, s.net, s.proposers[p], b);
    var (p', out) := SP.Preexecute(s.proposers[p], b);
    ProposerMoves(c, s, p, p', out);
  }

  lemma ProposerAcceptOK(c: Config, s: Sys, p: Pid, i: Iid, client: Option<Value>)
    requires Inv(c, s) && Enabled(s, ProposerAccepts(p, i, client))
    ensures Inv(c, SetProposer(s, p, SP.BeginAccept(s.proposers[p], i, client)))
  {
    SPP.BeginAcceptOK(c, s.net, s.proposers[p], i, client);
    var (p', out) := SP.BeginAccept(s.proposers[p], i, client);
    ProposerMoves(c, s, p, p', out);
  }

  lemma ProposerRepeatOK(c: Config, s: Sys, p: Pid, i: Iid)
    requires Inv(c, s) && p in s.proposers
    ensures Inv(c, SetProposer(s, p, (s.proposers[p], SP.Resend(s.proposers[p], i))))
    ensures Inv(c, SetProposer(s, p, (s.proposers[p], Some(Trim(s.proposers[p].trim)))))
  {
    SPP.ResendOK(c, s.net, s.proposers[p], i);
    ProposerMoves(c, s, p, s.proposers[p], SP.Resend(s.proposers[p], i));
    var n := Trim(s.proposers[p].trim);
    SPP.Grows(c, s.net, s.proposers[p], n);
    ProposerMoves(c, s, p, s.proposers[p], Some(n));
  }

  lemma LearnerStepOK(c: Config, s: Sys, l: nat, m: Msg)
    requires ValidConfig(c) && Inv(c, s) && l in s.learners && m in s.net
    ensures Inv(c, SetLearner(s, l, L.Step(s.learners[l], m)))
  {
    LP.StepOK(c, s.net, s.learners[l], m);
    var (l', out) := L.Step(s.learners[l], m);
    LearnerMoves(c, s, l, l', out);
  }

  lemma LearnerInternalOK(c: Config, s: Sys, l: nat)
    requires Inv(c, s) && l in s.learners
    ensures Inv(c, SetLearner(s, l, (L.Deliver(s.learners[l]), None)))
    ensures Inv(c, SetLearner(s, l, L.Announce(s.learners[l])))
  {
    assert s.net + {} == s.net;
    LP.DeliverOK(c, s.net, s.learners[l]);
    LearnerMoves(c, s, l, L.Deliver(s.learners[l]), None);
    LP.AnnounceOK(c, s.net, s.learners[l]);
    var (l', out) := L.Announce(s.learners[l]);
    LearnerMoves(c, s, l, l', out);
  }

  /** Every step of every role keeps the invariant. */
  lemma StepKeepsInv(c: Config, s: Sys, e: Event)
    requires ValidConfig(c) && Inv(c, s) && Enabled(s, e)
    ensures Inv(c, Apply(s, e))
  {
    match e
    case AcceptorGets(a, m) => AcceptorStepOK(c, s, a, m);
    case AcceptorRepeats(a, i) => AcceptorRepeatOK(c, s, a, i);
    case AcceptorCrashes(a, n) => AcceptorInternalOK(c, s, a, n);
    case AcceptorRenews(a) => AcceptorInternalOK(c, s, a, 0);
    case AcceptorAnnounces(a) => AcceptorAnnounceOK(c, s, a);
    case ProposerStarts(p, b) => ProposerStartOK(c, s, p, b);
    case ProposerGets(p, m, b) => ProposerStepOK(c, s, p, m, b);
    case ProposerAccepts(p, i, client) => ProposerAcceptOK(c, s, p, i, client);
    case ProposerResends(p, i) => ProposerRepeatOK(c, s, p, i);
    case ProposerAnnounces(p) => ProposerRepeatOK(c, s, p, 0);
    case LearnerGets(l, m) => LearnerStepOK(c, s, l, m);
    case LearnerDelivers(l) => LearnerInternalOK(c, s, l);
    case LearnerAnnounces(l) => LearnerInternalOK(c, s, l);
  }

  lemma {:induction false} RunKeepsInv(c: Config, s: Sys, es: seq<Event>)
    requires ValidConfig(c) && Inv(c, s)
    ensures Inv(c, Run(s, es))
  {
    if es != [] {
      RunKeepsInv(c, s, es[..|es| - 1]);
      var s' := Run(s, es[..|es| - 1]);
      if Enabled(s', es[|es| - 1]) { StepKeepsInv(c, s', es[|es| - 1]); }
    }
  }

  // ---------------------------------------------------------------- theorems about every run

  /** Someone reports instance i as chosen with value v: a chosen message, a learner's decision or delivery. */
  ghost predicate ReportsChosen(c: Config, s: Sys, i: Iid, v: Value) {
    || (exists r :: Chosen(i, r, v) in s.net)
    || (exists l :: l in s.learners && i in s.learners[l].instances && s.learners[l].instances[i].chosen
                    && s.learners[l].instances[i].value == v)
    || (exists l :: l in s.learners && 0 < i <= |s.learners[l].delivered| && s.learners[l].delivered[i - 1] == v)
    || Decided(c, s.net, i, v)
  }

  lemma ReportsAreDecisions(c: Config, s: Sys, i: Iid, v: Value)
    requires Inv(c, s) && ReportsChosen(c, s, i, v)
    ensures Decided(c, s.net, i, v)
  {
    if r :| Chosen(i, r, v) in s.net {
      var m := Chosen(i, r, v);
      assert MsgOK(c, s.net, m);
      ChosenOKIsDecided(c, s.net, i, r, v);
    } else if l :| l in s.learners && 0 < i <= |s.learners[l].delivered| && s.learners[l].delivered[i - 1] == v {
      assert LP.LearnerOK(c, s.net, s.learners[l]);
      assert Decided(c, s.net, (i - 1) + 1, s.learners[l].delivered[i - 1]);
    }
  }

  /** Agreement. Whatever is lost, repeated, reordered or crashed, no instance is ever reported chosen with two
      values, by anyone, as long as q1 + q2 exceeds the number of acceptors. */
  lemma AgreementInEveryRun(c: Config, s: Sys, es: seq<Event>, i: Iid, v1: Value, v2: Value)
    requires ValidConfig(c) && Init(c, s)
    requires ReportsChosen(c, Run(s, es), i, v1) && ReportsChosen(c, Run(s, es), i, v2)
    ensures v1 == v2
  {
    InitOK(c, s);
    RunKeepsInv(c, s, es);
    ReportsAreDecisions(c, Run(s, es), i, v1);
    ReportsAreDecisions(c, Run(s, es), i, v2);
    Agreement(c, Run(s, es).net, i, v1, v2);
  }

  /** Every proposal carries the value of the highest accepted ballot its promise quorum reported, and no ballot
      of an instance ever carries two values. */
  lemma ProposalsInEveryRun(c: Config, s: Sys, es: seq<Event>)
    requires ValidConfig(c) && Init(c, s)
    ensures var net := Run(s, es).net;
      && UniqueProposals(net)
      && forall m | m in net && m.Accept? :: HighestReported(c, net, m.iid, m.round, m.value)
  {
    InitOK(c, s);
    RunKeepsInv(c, s, es);
  }

  /** Every trim point held or sent by anyone covers decided instances only. */
  lemma TrimsInEveryRun(c: Config, s: Sys, es: seq<Event>)
    requires ValidConfig(c) && Init(c, s)
    ensures var s' := Run(s, es);
      && (forall a | a in s'.acceptors :: TrimOK(c, s'.net, AcceptorTrim(s'.acceptors[a])))
      && (forall p | p in s'.proposers :: TrimOK(c, s'.net, s'.proposers[p].trim))
      && (forall l | l in s'.learners :: TrimOK(c, s'.net, s'.learners[l].trim))
      && (forall m | m in s'.net && m.Trim? :: TrimOK(c, s'.net, m.iid))
  {
    InitOK(c, s);
    RunKeepsInv(c, s, es);
    var s' := Run(s, es);
    forall a | a in s'.acceptors ensures TrimOK(c, s'.net, AcceptorTrim(s'.acceptors[a])) {
      assert AcceptorOK(c, s'.net, a, s'.acceptors[a]);
    }
    forall m | m in s'.net && m.Trim? ensures TrimOK(c, s'.net, m.iid) { assert MsgOK(c, s'.net, m); }
  }

  /** Each learner has delivered the decisions of instances 1 to min - 1, in order and once each; any two
      learners' sequences are prefixes of one another. */
  lemma DeliveriesInEveryRun(c: Config, s: Sys, es: seq<Event>, l1: nat, l2: nat)
    requires ValidConfig(c) && Init(c, s)
    requires l1 in Run(s, es).learners && l2 in Run(s, es).learners
    ensures var s' := Run(s, es);
      var d1, d2 := s'.learners[l1].delivered, s'.learners[l2].delivered;
      && s'.learners[l1].min == |d1| + 1
      && LP.DeliveredOK(c, s'.net, d1)
      && (d1 <= d2 || d2 <= d1)
  {
    InitOK(c, s);
    RunKeepsInv(c, s, es);
    var s' := Run(s, es);
    LP.DeliveredArePrefixes(c, s'.net, s'.learners[l1], s'.learners[l2]);
  }

  /** A standard acceptor's memory agrees with its disk on every instance neither trimmed nor flagged chosen. */
  lemma MemoryAgreesInEveryRun(c: Config, s: Sys, es: seq<Event>, a: Aid, i: Iid)
    requires ValidConfig(c) && Init(c, s)
    requires a in Run(s, es).acceptors && Run(s, es).acceptors[a].Std?
    requires var x := Run(s, es).acceptors[a].s; i > x.trim && i !in x.mem.chosen
    ensures var x := Run(s, es).acceptors[a].s; Info(x.mem, i) == DiskRecord(x.disk, i)
  {
    InitOK(c, s);
    RunKeepsInv(c, s, es);
    assert AcceptorOK(c, Run(s, es).net, a, Run(s, es).acceptors[a]);
    assert SAP.Agrees(Run(s, es).acceptors[a].s, i);
  }

  /** In every reachable state a write-ahead acceptor's stable promise covers the promise made and leads it by
      at most the window. */
  lemma WindowInEveryRun(c: Config, s: Sys, es: seq<Event>, a: Aid, i: Iid)
    requires ValidConfig(c) && Init(c, s)
    requires a in Run(s, es).acceptors && Run(s, es).acceptors[a].Wa? && i > Run(s, es).acceptors[a].w.trim
    ensures var w := Run(s, es).acceptors[a].w;
      && WW.WindowOK(w, i)
      && LastPromise(w.dup, i) == DiskRecord(w.disk, i).promise
  {
    InitOK(c, s);
    RunKeepsInv(c, s, es);
    assert AcceptorOK(c, Run(s, es).net, a, Run(s, es).acceptors[a]);
    assert WW.StoresAgree(Run(s, es).acceptors[a].w, i);
  }

  /** From every reachable state no step but a chosen message lowers a stable promise: not a promise, not a vote, not
      a renewal, not a recovery. */
  lemma StablePromisesInEveryRun(c: Config, s: Sys, es: seq<Event>, a: Aid, e: WR.Event)
    requires ValidConfig(c) && Init(c, s)
    requires a in Run(s, es).acceptors && Run(s, es).acceptors[a].Wa? && !e.GetsChosen?
    ensures WW.NoLower(Run(s, es).acceptors[a].w, WR.Step(Run(s, es).acceptors[a].w, e).0)
  {
    InitOK(c, s);
    RunKeepsInv(c, s, es);
    assert AcceptorOK(c, Run(s, es).net, a, Run(s, es).acceptors[a]);
    WR.StepLocal(Run(s, es).acceptors[a].w, e);
  }
}
