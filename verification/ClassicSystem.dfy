/** Flexible Paxos without epochs as a state machine: standard and write-ahead acceptors in any mix, standard
    proposers and catch-up learners, exchanging messages through a set that never shrinks. A message may be
    received any number of times, in any order, or never; acceptors may crash between any two steps. */
module ClassicSystem {
  import opened Types
  import opened Memory
  import SA = StandardAcceptor
  import WA = WriteAheadAcceptor
  import SP = StandardProposer
  import L = Learner

  datatype Acceptor = Std(s: SA.StdAcceptor) | Wa(w: WA.WaAcceptor)

  datatype Sys = Sys(
    net: set<Msg>,
    acceptors: map<Aid, Acceptor>,
    proposers: map<Pid, SP.Proposer>,
    learners: map<nat, L.Learner>)

  datatype Event =
    | AcceptorGets(a: Aid, m: Msg)
    | AcceptorRepeats(a: Aid, i: Iid)
    | AcceptorCrashes(a: Aid, maxInited: Iid)
    | AcceptorRenews(a: Aid)                            // write-ahead acceptors: renew the flagged windows
    | AcceptorAnnounces(a: Aid)                         // periodic acceptor state
    | ProposerStarts(p: Pid, b: Ballot)
    | ProposerGets(p: Pid, m: Msg, b: Ballot)           // b: what the ballot giver hands out on a preemption
    | ProposerAccepts(p: Pid, i: Iid, client: Option<Value>)
    | ProposerResends(p: Pid, i: Iid)
    | ProposerAnnounces(p: Pid)                         // periodic proposer state
    | LearnerGets(l: nat, m: Msg)
    | LearnerDelivers(l: nat)
    | LearnerAnnounces(l: nat)

  function AcceptorStep(a: Acceptor, m: Msg): (Acceptor, Option<Msg>) {
    match a
    case Std(s) => var (s', out) := SA.Step(s, m); (Std(s'), out)
    case Wa(w) => var (w', out) := WA.Step(w, m); (Wa(w'), out)
  }

  function AcceptorRepeat(a: Acceptor, i: Iid): Option<Msg> {
    match a case Std(s) => SA.OnRepeat(s, i) case Wa(w) => WA.OnRepeat(w, i)
  }

  function AcceptorCrash(a: Acceptor, maxInited: Iid): Acceptor {
    match a case Std(s) => Std(SA.Crash(s)) case Wa(w) => Wa(WA.Crash(w, maxInited))
  }

  function AcceptorRenew(a: Acceptor): Acceptor {
    match a case Std(s) => a case Wa(w) => Wa(WA.Flush(w))
  }

  function AcceptorTrim(a: Acceptor): Iid {
    match a case Std(s) => s.trim case Wa(w) => w.trim
  }

  ghost predicate Enabled(s: Sys, e: Event) {
    match e
    case AcceptorGets(a, m) => a in s.acceptors && m in s.net
    case AcceptorRepeats(a, i) => a in s.acceptors
    case AcceptorCrashes(a, n) =>
      a in s.acceptors && (s.acceptors[a].Wa? ==> WA.IsMaxInited(s.acceptors[a].w.disk, n))
    case AcceptorRenews(a) => a in s.acceptors
    case AcceptorAnnounces(a) => a in s.acceptors
    case ProposerStarts(p, b) => p in s.proposers && b.proposer == p && b.number > 0
    case ProposerGets(p, m, b) =>
      && p in s.proposers && m in s.net && b.proposer == p
      && (m.Preempted? ==> b.number > m.current.ballot.number)
    case ProposerAccepts(p, i, client) => p in s.proposers && SP.IsMinReady(s.proposers[p], i)
    case ProposerResends(p, i) => p in s.proposers
    case ProposerAnnounces(p) => p in s.proposers
    case LearnerGets(l, m) => l in s.learners && m in s.net
    case LearnerDelivers(l) => l in s.learners
    case LearnerAnnounces(l) => l in s.learners
  }

  function SetAcceptor(s: Sys, a: Aid, r: (Acceptor, Option<Msg>)): Sys {
    s.(acceptors := s.acceptors[a := r.0], net := s.net + ToSet(r.1))
  }

  function SetProposer(s: Sys, p: Pid, r: (SP.Proposer, Option<Msg>)): Sys {
    s.(proposers := s.proposers[p := r.0], net := s.net + ToSet(r.1))
  }

  function SetLearner(s: Sys, l: nat, r: (L.Learner, Option<Msg>)): Sys {
    s.(learners := s.learners[l := r.0], net := s.net + ToSet(r.1))
  }

  ghost function Apply(s: Sys, e: Event): Sys
    requires Enabled(s, e)
  {
    match e
    case AcceptorGets(a, m) => SetAcceptor(s, a, AcceptorStep(s.acceptors[a], m))
    case AcceptorRepeats(a, i) => SetAcceptor(s, a, (s.acceptors[a], AcceptorRepeat(s.acceptors[a], i)))
    case AcceptorCrashes(a, n) => SetAcceptor(s, a, (AcceptorCrash(s.acceptors[a], n), None))
    case AcceptorRenews(a) => SetAcceptor(s, a, (AcceptorRenew(s.acceptors[a]), None))
    case AcceptorAnnounces(a) => SetAcceptor(s, a, (s.acceptors[a], Some(Trim(AcceptorTrim(s.acceptors[a])))))
    case ProposerStarts(p, b) => SetProposer(s, p, SP.Preexecute(s.proposers[p], b))
    case ProposerGets(p, m, b) => SetProposer(s, p, SP.Step(s.proposers[p], m, b))
    case ProposerAccepts(p, i, client) => SetProposer(s, p, SP.BeginAccept(s.proposers[p], i, client))
    case ProposerResends(p, i) => SetProposer(s, p, (s.proposers[p], SP.Resend(s.proposers[p], i)))
    case ProposerAnnounces(p) => SetProposer(s, p, (s.proposers[p], Some(Trim(s.proposers[p].trim))))
    case LearnerGets(l, m) => SetLearner(s, l, L.Step(s.learners[l], m))
    case LearnerDelivers(l) => SetLearner(s, l, (L.Deliver(s.learners[l]), None))
    case LearnerAnnounces(l) => SetLearner(s, l, L.Announce(s.learners[l]))
  }

  ghost predicate Init(c: Config, s: Sys) {
    && s.net == {}
    && s.acceptors.Keys == c.acceptors
    && (forall a | a in s.acceptors ::
          || s.acceptors[a] == Std(SA.Boot(a))
          || exists w, k :: s.acceptors[a] == Wa(WA.Boot(a, w, k)))
    && (forall p | p in s.proposers :: exists j :: s.proposers[p] == SP.Boot(p, c.q1, c.q2, j))
    && (forall l | l in s.learners :: s.learners[l] == L.Boot(c.q2))
  }

  /** The state after a sequence of events; an event that is not enabled does nothing. */
  ghost function Run(s: Sys, es: seq<Event>): Sys {
    if es == [] then s
    else
      var s' := Run(s, es[..|es| - 1]);
      var e := es[|es| - 1];
      if Enabled(s', e) then Apply(s', e) else s'
  }
}
