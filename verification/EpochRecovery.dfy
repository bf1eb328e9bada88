/** Epoch acceptors that recover as paxos/epoch_paxos_storage.c is written: a restart loses the votes. */
module EpochRecovery {
  import opened Types
  import opened Sets
  import opened Voting
  import opened EpochSystem
  import opened EpochSafety
  import M = Memory
  import EA = EpochAcceptor
  import EAP = EpochAcceptorProof
  import EP = EpochProposer
  import PS = PreemptionSafety
  import D = Departures

  /** A restart as written; junk is what memory holds where the epochs are planted. */
  function CrashAsWritten(a: EA.EpAcceptor, junk: Iid -> Ballot): (EA.EpAcceptor, Option<Msg>) {
    var (a', out) := EA.Crash(a);
    (a'.(mem := D.RecoveredAsWritten(a.disk.votes, junk)), out)
  }

  /** All steps as in EpochSystem, except restarts. */
  ghost function ApplyAsWritten(s: Sys, e: Event, junk: Iid -> Ballot): Sys
    requires Enabled(s, e)
  {
    if e.AcceptorCrashes? then SetAcceptor(s, e.a, CrashAsWritten(s.acceptors[e.a], junk)) else Apply(s, e)
  }

  ghost function RunAsWritten(s: Sys, es: seq<Event>, junk: Iid -> Ballot): Sys {
    if es == [] then s
    else
      var s' := RunAsWritten(s, es[..|es| - 1], junk);
      var e := es[|es| - 1];
      if Enabled(s', e) then ApplyAsWritten(s', e, junk) else s'
  }

  /** No run from any initial state decides an instance with two values. */
  ghost predicate Agrees(c: Config, junk: Iid -> Ballot) {
    forall s, es, i, v1, v2 | Init(c, s) && Decided(c, RunAsWritten(s, es, junk).net, i, v1)
      && Decided(c, RunAsWritten(s, es, junk).net, i, v2) ::
      v1 == v2
  }

  // ---------------------------------------------------------------- no quorums, no harm

  lemma NobodyVotes(c: Config, s: Sys, a: Aid)
    requires Inv(c, s) && c.q1 > |c.acceptors| && a in s.acceptors
    ensures s.acceptors[a].disk.votes == map[]
  {
    var x := s.acceptors[a];
    if i :| i in x.disk.votes {
      assert EAP.EpOK(c, s.net, x);
      var m := Accepted(x.id, i, x.disk.votes[i].0, x.disk.votes[i].1);
      var n := Accept(i, m.round, m.value);
      assert m in s.net && n in s.net && Safe(c, s.net, n.iid, n.round, n.value);
      var q, top :| SafeBy(c, s.net, n.iid, n.round, n.value, q, top);
      SubsetSize(q, c.acceptors);
    }
  }

  lemma SameCrash(a: EA.EpAcceptor, junk: Iid -> Ballot)
    requires a.disk.votes == map[]
    ensures CrashAsWritten(a, junk) == EA.Crash(a)
  {
    assert D.RecoveredAsWritten(map[], junk) == EA.EMPTY_STORE == EA.Recovered(map[]);
  }

  lemma {:induction false} SameRun(c: Config, s: Sys, es: seq<Event>, junk: Iid -> Ballot)
    requires ValidConfig(c) && Init(c, s) && c.q1 > |c.acceptors|
    ensures RunAsWritten(s, es, junk) == Run(s, es)
    decreases |es|
  {
    if es != [] {
      var es', e := es[..|es| - 1], es[|es| - 1];
      SameRun(c, s, es', junk);
      RunIsFine(c, s, es');
      var s' := Run(s, es');
      if Enabled(s', e) && e.AcceptorCrashes? {
        NobodyVotes(c, s', e.a);
        SameCrash(s'.acceptors[e.a], junk);
      }
    }
  }

  lemma AgreesWithoutQuorums(c: Config, junk: Iid -> Ballot)
    requires ValidConfig(c) && (c.q1 > |c.acceptors| || c.q2 > |c.acceptors|)
    ensures Agrees(c, junk)
  {
    forall s, es, i, v1, v2 | Init(c, s) && Decided(c, RunAsWritten(s, es, junk).net, i, v1)
        && Decided(c, RunAsWritten(s, es, junk).net, i, v2)
      ensures v1 == v2
    {
      if c.q2 > |c.acceptors| {
        PS.NothingDecided(c, RunAsWritten(s, es, junk).net, i, v1);
      } else {
        SameRun(c, s, es, junk);
        AgreementInEveryRun(c, s, es, i, v1, v2);
      }
    }
  }

  // ---------------------------------------------------------------- acceptors

  ghost predicate Reaches(s: Sys, s': Sys, junk: Iid -> Ballot) { exists es :: RunAsWritten(s, es, junk) == s' }

  lemma ReachesNext(s0: Sys, s: Sys, e: Event, junk: Iid -> Ballot)
    requires Reaches(s0, s, junk) && Enabled(s, e)
    ensures Reaches(s0, ApplyAsWritten(s, e, junk), junk)
  {
    var es :| RunAsWritten(s0, es, junk) == s;
    assert (es + [e])[..|es|] == es;
    assert RunAsWritten(s0, es + [e], junk) == ApplyAsWritten(s, e, junk);
  }

  /** Acceptor a is in epoch e, has promised pb for instance 1, and knows of no vote. */
  ghost predicate Holds(s: Sys, a: Aid, e: nat, pb: Ballot) {
    && a in s.acceptors
    && var x := s.acceptors[a];
       && x.id == a && x.epoch == e == x.disk.epoch && x.trim == 0 && x.mem.base.chosen == {}
       && M.LastPromise(x.mem.base, 1) == pb && EA.GetVote(x.mem, 1).None?
  }

  ghost predicate AllHold(s: Sys, q: set<Aid>, e: nat, pb: Ballot) { forall a | a in q :: Holds(s, a, e, pb) }

  /** Acceptor a is in epoch e and has a vote for instance 1 on disk. */
  ghost predicate Voted(s: Sys, a: Aid, e: nat) {
    && a in s.acceptors && 1 in s.acceptors[a].disk.votes && s.acceptors[a].id == a && s.acceptors[a].disk.epoch == e
  }

  ghost predicate AllVoted(s: Sys, q: set<Aid>, e: nat) { forall a | a in q :: Voted(s, a, e) }

  /** Nobody but the acceptors q changes, and messages only add up. */
  ghost predicate OnlyAcceptors(s: Sys, s': Sys, q: set<Aid>) {
    && s.net <= s'.net && s'.proposers == s.proposers
    && (forall x | x in s.acceptors && x !in q :: x in s'.acceptors && s'.acceptors[x] == s.acceptors[x])
  }

  lemma OthersHold(s: Sys, s': Sys, q: set<Aid>, a: Aid, e: nat, pb: Ballot)
    requires AllHold(s, q, e, pb) && OnlyAcceptors(s, s', {a}) && a !in q
    ensures AllHold(s', q, e, pb)
  {}

  lemma OthersVoted(s: Sys, s': Sys, q: set<Aid>, a: Aid, e: nat)
    requires AllVoted(s, q, e) && OnlyAcceptors(s, s', {a}) && a !in q
    ensures AllVoted(s', q, e)
  {}

  lemma PromiseOne(s0: Sys, s: Sys, junk: Iid -> Ballot, a: Aid, e: nat, pb: Ballot, b: Ballot) returns (s': Sys)
    requires Reaches(s0, s, junk) && Holds(s, a, e, pb) && StandardPrepare(1, b) in s.net && BallotGe(b, pb)
    ensures Reaches(s0, s', junk) && OnlyAcceptors(s, s', {a})
    ensures Holds(s', a, e, b) && Promise(a, 1, Round(e, b), ZERO, []) in s'.net
  {
    var ev := AcceptorGets(a, StandardPrepare(1, b));
    ReachesNext(s0, s, ev, junk);
    s' := ApplyAsWritten(s, ev, junk);
  }

  lemma {:induction false} PromiseAll(s0: Sys, s: Sys, junk: Iid -> Ballot, q: set<Aid>, e: nat, pb: Ballot, b: Ballot)
    returns (s': Sys)
    requires Reaches(s0, s, junk) && AllHold(s, q, e, pb) && StandardPrepare(1, b) in s.net && BallotGe(b, pb)
    ensures Reaches(s0, s', junk) && OnlyAcceptors(s, s', q)
    ensures AllHold(s', q, e, b) && forall a | a in q :: Promise(a, 1, Round(e, b), ZERO, []) in s'.net
    decreases q
  {
    if q == {} {
      s' := s;
    } else {
      var a :| a in q;
      var s1 := PromiseAll(s0, s, junk, q - {a}, e, pb, b);
      assert Holds(s1, a, e, pb);
      s' := PromiseOne(s0, s1, junk, a, e, pb, b);
      OthersHold(s1, s', q - {a}, a, e, b);
    }
  }

  lemma VoteOne(s0: Sys, s: Sys, junk: Iid -> Ballot, a: Aid, e: nat, b: Ballot, v: Value) returns (s': Sys)
    requires Reaches(s0, s, junk) && Holds(s, a, e, b) && Accept(1, Round(e, b), v) in s.net
    ensures Reaches(s0, s', junk) && OnlyAcceptors(s, s', {a})
    ensures Voted(s', a, e) && Accepted(a, 1, Round(e, b), v) in s'.net
  {
    var ev := AcceptorGets(a, Accept(1, Round(e, b), v));
    ReachesNext(s0, s, ev, junk);
    s' := ApplyAsWritten(s, ev, junk);
  }

  lemma {:induction false} VoteAll(s0: Sys, s: Sys, junk: Iid -> Ballot, q: set<Aid>, e: nat, b: Ballot, v: Value)
    returns (s': Sys)
    requires Reaches(s0, s, junk) && AllHold(s, q, e, b) && Accept(1, Round(e, b), v) in s.net
    ensures Reaches(s0, s', junk) && OnlyAcceptors(s, s', q)
    ensures AllVoted(s', q, e) && forall a | a in q :: Accepted(a, 1, Round(e, b), v) in s'.net
    decreases q
  {
    if q == {} {
      s' := s;
    } else {
      var a :| a in q;
      var s1 := VoteAll(s0, s, junk, q - {a}, e, b, v);
      assert Holds(s1, a, e, b);
      s' := VoteOne(s0, s1, junk, a, e, b, v);
      OthersVoted(s1, s', q - {a}, a, e);
    }
  }

  /** A restart leaves the next epoch, the junk, and no vote. */
  lemma CrashOne(s0: Sys, s: Sys, junk: Iid -> Ballot, a: Aid, e: nat) returns (s': Sys)
    requires Reaches(s0, s, junk) && Voted(s, a, e)
    ensures Reaches(s0, s', junk) && OnlyAcceptors(s, s', {a}) && Holds(s', a, e + 1, junk(1))
  {
    ReachesNext(s0, s, AcceptorCrashes(a), junk);
    s' := ApplyAsWritten(s, AcceptorCrashes(a), junk);
  }

  lemma {:induction false} CrashAll(s0: Sys, s: Sys, junk: Iid -> Ballot, q: set<Aid>, e: nat) returns (s': Sys)
    requires Reaches(s0, s, junk) && AllVoted(s, q, e)
    ensures Reaches(s0, s', junk) && OnlyAcceptors(s, s', q) && AllHold(s', q, e + 1, junk(1))
    decreases q
  {
    if q == {} {
      s' := s;
    } else {
      var a :| a in q;
      var s1 := CrashAll(s0, s, junk, q - {a}, e);
      assert Voted(s1, a, e);
      s' := CrashOne(s0, s1, junk, a, e);
      OthersHold(s1, s', q - {a}, a, e + 1, junk(1));
    }
  }

  // ---------------------------------------------------------------- proposers

  function Table(inst: Option<EP.Inst>): map<Iid, EP.Inst> { if inst.Some? then map[1 := inst.value] else map[] }

  /** Proposer p has exactly the given instances 1 open in its tables. */
  ghost predicate Has(c: Config, s: Sys, p: Pid, prepare: Option<EP.Inst>, accept: Option<EP.Inst>) {
    && p in s.proposers
    && var x := s.proposers[p];
       && x.id == p && x.q1 == c.q1 && x.q2 == c.q2 && x.trim == 0 && x.chosens == {}
       && x.prepare == Table(prepare) && x.accept == Table(accept)
  }

  ghost predicate OnlyProposer(s: Sys, s': Sys, p: Pid) {
    && s.net <= s'.net && s'.acceptors == s.acceptors
    && (forall x | x != p && x in s.proposers :: x in s'.proposers && s'.proposers[x] == s.proposers[x])
  }

  lemma StartOne(c: Config, s0: Sys, s: Sys, junk: Iid -> Ballot, b: Ballot) returns (s': Sys)
    requires Reaches(s0, s, junk) && Has(c, s, b.proposer, None, None) && b.number > 0
    requires s.proposers[b.proposer].next == 1 && s.proposers[b.proposer].highestEpoch == 0
    ensures Reaches(s0, s', junk) && OnlyProposer(s, s', b.proposer) && StandardPrepare(1, b) in s'.net
    ensures Has(c, s', b.proposer, Some(EP.NewInst(b, 0, c.q1)), None)
  {
    var e := ProposerStarts(b.proposer, b);
    ReachesNext(s0, s, e, junk);
    s' := ApplyAsWritten(s, e, junk);
  }

  /** The acceptors q promised in epoch e and reported nothing. */
  function Counted(c: Config, b: Ballot, e: nat, q: set<Aid>): EP.Inst {
    EP.NewInst(b, if q == {} then 0 else e, c.q1).(quorum := q)
  }

  lemma CountOne(c: Config, s0: Sys, s: Sys, junk: Iid -> Ballot, b: Ballot, e: nat, q: set<Aid>, a: Aid)
    returns (s': Sys)
    requires Reaches(s0, s, junk) && Has(c, s, b.proposer, Some(Counted(c, b, e, q)), None) && a !in q && e > 0
    requires Promise(a, 1, Round(e, b), ZERO, []) in s.net
    ensures Reaches(s0, s', junk) && OnlyProposer(s, s', b.proposer)
    ensures Has(c, s', b.proposer, Some(Counted(c, b, e, q + {a})), None)
  {
    var ev := ProposerGets(b.proposer, Promise(a, 1, Round(e, b), ZERO, []), b);
    ReachesNext(s0, s, ev, junk);
    s' := ApplyAsWritten(s, ev, junk);
    assert s'.proposers[b.proposer].prepare == map[1 := Counted(c, b, e, q + {a})];
  }

  lemma {:induction false} CountAll(c: Config, s0: Sys, s: Sys, junk: Iid -> Ballot, b: Ballot, e: nat, q: set<Aid>)
    returns (s': Sys)
    requires Reaches(s0, s, junk) && Has(c, s, b.proposer, Some(EP.NewInst(b, 0, c.q1)), None) && e > 0
    requires forall a | a in q :: Promise(a, 1, Round(e, b), ZERO, []) in s.net
    ensures Reaches(s0, s', junk) && OnlyProposer(s, s', b.proposer)
    ensures Has(c, s', b.proposer, Some(Counted(c, b, e, q)), None)
    decreases q
  {
    if q == {} {
      s' := s;
    } else {
      var a :| a in q;
      var s1 := CountAll(c, s0, s, junk, b, e, q - {a});
      s' := CountOne(c, s0, s1, junk, b, e, q - {a}, a);
      assert q - {a} + {a} == q;
    }
  }

  lemma Propose(c: Config, s0: Sys, s: Sys, junk: Iid -> Ballot, b: Ballot, e: nat, q: set<Aid>, v: Value)
    returns (s': Sys)
    requires Reaches(s0, s, junk) && Has(c, s, b.proposer, Some(Counted(c, b, e, q)), None)
    requires q != {} && |q| >= c.q1
    ensures Reaches(s0, s', junk) && OnlyProposer(s, s', b.proposer) && Accept(1, Round(e, b), v) in s'.net
  {
    var ev := ProposerAccepts(b.proposer, 1, Some(v));
    ReachesNext(s0, s, ev, junk);
    s' := ApplyAsWritten(s, ev, junk);
  }

  // ---------------------------------------------------------------- the run

  /** A whole round in which everyone votes for the proposer's value. */
  lemma FullRound(c: Config, s0: Sys, s: Sys, junk: Iid -> Ballot, e: nat, pb: Ballot, b: Ballot, v: Value)
    returns (s': Sys)
    requires Reaches(s0, s, junk) && AllHold(s, c.acceptors, e, pb) && e > 0 && BallotGe(b, pb)
    requires StandardPrepare(1, b) in s.net && Has(c, s, b.proposer, Some(EP.NewInst(b, 0, c.q1)), None)
    requires c.acceptors != {} && c.q1 <= |c.acceptors|
    ensures Reaches(s0, s', junk) && s.net <= s'.net
    ensures forall p | p != b.proposer && p in s.proposers :: p in s'.proposers && s'.proposers[p] == s.proposers[p]
    ensures AllVoted(s', c.acceptors, e) && forall a | a in c.acceptors :: Accepted(a, 1, Round(e, b), v) in s'.net
  {
    var all := c.acceptors;
    var s1 := PromiseAll(s0, s, junk, all, e, pb, b);
    var s2 := CountAll(c, s0, s1, junk, b, e, all);
    var s3 := Propose(c, s0, s2, junk, b, e, all, v);
    assert AllHold(s3, all, e, b);
    s' := VoteAll(s0, s3, junk, all, e, b, v);
  }

  function Start(c: Config): Sys {
    Sys({}, map a | a in c.acceptors :: EA.Boot(a),
        map[1 := EP.Boot(1, c.q1, c.q2, 0), 2 := EP.Boot(2, c.q1, c.q2, 0)], map[])
  }

  lemma BothStart(c: Config, junk: Iid -> Ballot, b1: Ballot, b2: Ballot) returns (s: Sys)
    requires b1.proposer == 1 && b2.proposer == 2 && b1.number > 0 && b2.number > 0
    ensures Init(c, Start(c)) && Reaches(Start(c), s, junk) && AllHold(s, c.acceptors, 1, INVALID_BALLOT)
    ensures StandardPrepare(1, b1) in s.net && Has(c, s, 1, Some(EP.NewInst(b1, 0, c.q1)), None)
    ensures StandardPrepare(1, b2) in s.net && Has(c, s, 2, Some(EP.NewInst(b2, 0, c.q1)), None)
  {
    var s0 := Start(c);
    assert s0.acceptors.Keys == c.acceptors;
    assert RunAsWritten(s0, [], junk) == s0;
    assert AllHold(s0, c.acceptors, 1, INVALID_BALLOT);
    var s1 := StartOne(c, s0, s0, junk, b1);
    s := StartOne(c, s0, s1, junk, b2);
  }

  lemma VotesDecide(c: Config, net: set<Msg>, r: Round, v: Value)
    requires |c.acceptors| >= c.q2 && forall a | a in c.acceptors :: Accepted(a, 1, r, v) in net
    ensures Decided(c, net, 1, v)
  {
    assert ChosenBy(c, net, 1, r, v, c.acceptors);
    assert ChosenAt(c, net, 1, r, v);
  }

  /** One value is decided, everyone restarts, and another value is decided. */
  lemma DecidesTwice(c: Config, junk: Iid -> Ballot, v1: Value, v2: Value) returns (s: Sys)
    requires c.q1 <= |c.acceptors| && 0 < c.q2 <= |c.acceptors|
    ensures Init(c, Start(c)) && Reaches(Start(c), s, junk)
    ensures Decided(c, s.net, 1, v1) && Decided(c, s.net, 1, v2)
  {
    var s0, b1, b2 := Start(c), Ballot(1, 1), Ballot(junk(1).number + 1, 2);
    var s1 := BothStart(c, junk, b1, b2);
    var s2 := FullRound(c, s0, s1, junk, 1, INVALID_BALLOT, b1, v1);
    var s3 := CrashAll(s0, s2, junk, c.acceptors, 1);
    s := FullRound(c, s0, s3, junk, 2, junk(1), b2, v2);
    VotesDecide(c, s.net, Round(1, b1), v1);
    VotesDecide(c, s.net, Round(2, b2), v2);
  }

  /** With recovery as written agreement is lost in every configuration whose quorums exist at all, whatever the
      planted entries hold. */
  lemma RecoveryAgreesIff(c: Config, junk: Iid -> Ballot)
    requires ValidConfig(c)
    ensures Agrees(c, junk) <==> c.q1 > |c.acceptors| || c.q2 > |c.acceptors|
  {
    if c.q1 > |c.acceptors| || c.q2 > |c.acceptors| {
      AgreesWithoutQuorums(c, junk);
    } else {
      var zero: Value, one: Value := [0], [1];
      var s := DecidesTwice(c, junk, zero, one);
      var es :| RunAsWritten(Start(c), es, junk) == s;
      assert zero[0] != one[0];
      assert Decided(c, RunAsWritten(Start(c), es, junk).net, 1, zero)
          && Decided(c, RunAsWritten(Start(c), es, junk).net, 1, one);
    }
  }
}
