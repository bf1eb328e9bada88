/** Flexible Paxos with epochs as a state machine. Messages are lost, repeated and reordered at will, and acceptors
    may crash between any two steps, forgetting every promise they made. */
module EpochSystem {
  import opened Types
  import EA = EpochAcceptor
  import EP = EpochProposer
  import EL = EpochLearner

  datatype Sys = Sys(
    net: set<Msg>,
    acceptors: map<Aid, EA.EpAcceptor>,
    proposers: map<Pid, EP.Proposer>,
    learners: map<nat, EL.Learner>)

  datatype Event =
    | AcceptorGets(a: Aid, m: Msg)
    | AcceptorRepeats(a: Aid, i: Iid)
    | AcceptorCrashes(a: Aid)
    | AcceptorAnnounces(a: Aid)
    | AcceptorNotifies(a: Aid)                          // its epoch, at boot and in periodic state
    | ProposerStarts(p: Pid, b: Ballot)
    | ProposerGets(p: Pid, m: Msg, b: Ballot)           // b: what the ballot giver hands out on a preemption
    | ProposerAccepts(p: Pid, i: Iid, client: Option<Value>)
    | ProposerResends(p: Pid, i: Iid)
    | ProposerAnnounces(p: Pid)
    | LearnerGets(l: nat, m: Msg)
    | LearnerDelivers(l: nat)
    | LearnerAnnounces(l: nat)

  ghost predicate Enabled(s: Sys, e: Event) {
    match e
    case AcceptorGets(a, m) => a in s.acceptors && m in s.net
    case AcceptorRepeats(a, i) => a in s.acceptors
    case AcceptorCrashes(a) => a in s.acceptors
    case AcceptorAnnounces(a) => a in s.acceptors
    case AcceptorNotifies(a) => a in s.acceptors
    case ProposerStarts(p, b) => p in s.proposers && b.proposer == p && b.number > 0
    case ProposerGets(p, m, b) =>
      && p in s.proposers && m in s.net && b.proposer == p
      && (m.Preempted? ==> b.number > m.current.ballot.number)
    case ProposerAccepts(p, i, client) => p in s.proposers && EP.IsMinReady(s.proposers[p], i)
    case ProposerResends(p, i) => p in s.proposers
    case ProposerAnnounces(p) => p in s.proposers
    case LearnerGets(l, m) => l in s.learners && m in s.net
    case LearnerDelivers(l) => l in s.learners
    case LearnerAnnounces(l) => l in s.learners
  }

  function SetAcceptor(s: Sys, a: Aid, r: (EA.EpAcceptor, Option<Msg>)): Sys {
    s.(acceptors := s.acceptors[a := r.0], net := s.net + ToSet(r.1))
  }

  function SetProposer(s: Sys, p: Pid, r: (EP.Proposer, Option<Msg>)): Sys {
    s.(proposers := s.proposers[p := r.0], net := s.net + ToSet(r.1))
  }

  function SetLearner(s: Sys, l: nat, r: (EL.Learner, Option<Msg>)): Sys {
    s.(learners := s.learners[l := r.0], net := s.net + ToSet(r.1))
  }

  ghost function Apply(s: Sys, e: Event): Sys
    requires Enabled(s, e)
  {
    match e
    case AcceptorGets(a, m) => SetAcceptor(s, a, EA.Step(s.acceptors[a], m))
    case AcceptorRepeats(a, i) => SetAcceptor(s, a, (s.acceptors[a], EA.OnRepeat(s.acceptors[a], i)))
    case AcceptorCrashes(a) => SetAcceptor(s, a, EA.Crash(s.acceptors[a]))
    case AcceptorAnnounces(a) => SetAcceptor(s, a, (s.acceptors[a], Some(Trim(s.acceptors[a].trim))))
    case AcceptorNotifies(a) => SetAcceptor(s, a, (s.acceptors[a], Some(NewEpoch(s.acceptors[a].epoch))))
    case ProposerStarts(p, b) => SetProposer(s, p, EP.Preexecute(s.proposers[p], b))
    case ProposerGets(p, m, b) => SetProposer(s, p, EP.Step(s.proposers[p], m, b))
    case ProposerAccepts(p, i, client) => SetProposer(s, p, EP.BeginAccept(s.proposers[p], i, client))
    case ProposerResends(p, i) => SetProposer(s, p, (s.proposers[p], EP.Resend(s.proposers[p], i)))
    case ProposerAnnounces(p) => SetProposer(s, p, (s.proposers[p], Some(Trim(s.proposers[p].trim))))
    case LearnerGets(l, m) => SetLearner(s, l, EL.Step(s.learners[l], m))
    case LearnerDelivers(l) => SetLearner(s, l, (EL.Deliver(s.learners[l]), None))
    case LearnerAnnounces(l) => SetLearner(s, l, EL.Announce(s.learners[l]))
  }

  ghost predicate Init(c: Config, s: Sys) {
    && s.net == {}
    && s.acceptors.Keys == c.acceptors
    && (forall a | a in s.acceptors :: s.acceptors[a] == EA.Boot(a))
    && (forall p | p in s.proposers :: exists j :: s.proposers[p] == EP.Boot(p, c.q1, c.q2, j))
    && (forall l | l in s.learners :: s.learners[l] == EL.Boot(c.q2))
  }

  /** The state after a sequence of events; an event that is not enabled does nothing. */
  ghost function Run(s: Sys, es: seq<Event>): Sys {
    if es == [] then s
    else
      var s' := Run(s, es[..|es| - 1]);
      var e := es[|es| - 1];
      if Enabled(s', e) then Apply(s', e) else s'
  }
}
