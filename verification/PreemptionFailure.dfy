/** Runs in which preemptions as written decide an instance twice, for every configuration in which they can. Three
    proposers compete for instance 1 and every acceptor keeps up. */
module PreemptionFailure {
  import opened Types
  import opened Memory
  import opened Voting
  import opened ClassicSystem
  import opened PreemptionAsWritten
  import opened PreemptionSafety
  import SA = StandardAcceptor
  import SP = StandardProposer
  import D = Departures

  ghost predicate Reaches(d: Return, s: Sys, s': Sys) { exists es :: RunIn(d, s, es) == s' }

  lemma ReachesNext(d: Return, s0: Sys, s: Sys, e: Event)
    requires Reaches(d, s0, s) && Enabled(s, e)
    ensures Reaches(d, s0, ApplyIn(d, s, e))
  {
    var es :| RunIn(d, s0, es) == s;
    assert (es + [e])[..|es|] == es;
    assert RunIn(d, s0, es + [e]) == ApplyIn(d, s, e);
  }

  // ---------------------------------------------------------------- acceptors

  /** Acceptor a holds the given record for instance 1 and has learned nothing. */
  ghost predicate Holds(s: Sys, a: Aid, r: Record) {
    && a in s.acceptors && s.acceptors[a].Std?
    && var x := s.acceptors[a].s; x.id == a && x.trim == 0 && x.mem.chosen == {} && Info(x.mem, 1) == r
  }

  ghost predicate AllHold(s: Sys, q: set<Aid>, r: Record) { forall a | a in q :: Holds(s, a, r) }

  /** Nobody but the acceptors q changes, and messages only add up. */
  ghost predicate OnlyAcceptors(s: Sys, s': Sys, q: set<Aid>) {
    && s.net <= s'.net && s'.proposers == s.proposers
    && (forall x | x in s.acceptors && x !in q :: x in s'.acceptors && s'.acceptors[x] == s.acceptors[x])
  }

  /** What a promise reports of the last vote. */
  function Report(r: Record): Value { if BallotGt(r.valueBallot, INVALID_BALLOT) then r.value else [] }

  function PromiseOf(a: Aid, b: Ballot, r: Record): Msg {
    Promise(a, 1, Classic(b), Classic(r.valueBallot), Report(r))
  }

  lemma OthersHold(s: Sys, s': Sys, q: set<Aid>, a: Aid, r: Record)
    requires AllHold(s, q, r) && OnlyAcceptors(s, s', {a}) && a !in q
    ensures AllHold(s', q, r)
  {}

  lemma PromiseOne(d: Return, s0: Sys, s: Sys, a: Aid, r: Record, b: Ballot) returns (s': Sys)
    requires Reaches(d, s0, s) && Holds(s, a, r) && Prepare(1, Classic(b)) in s.net && BallotGe(b, r.promise)
    ensures Reaches(d, s0, s') && OnlyAcceptors(s, s', {a})
    ensures Holds(s', a, r.(promise := b)) && PromiseOf(a, b, r) in s'.net
  {
    var e := AcceptorGets(a, Prepare(1, Classic(b)));
    ReachesNext(d, s0, s, e);
    s' := ApplyIn(d, s, e);
    StoreRoundTrip(s.acceptors[a].s.mem, 1, r.(promise := b), 1);
  }

  lemma {:induction false} PromiseAll(d: Return, s0: Sys, s: Sys, q: set<Aid>, r: Record, b: Ballot) returns (s': Sys)
    requires Reaches(d, s0, s) && AllHold(s, q, r) && Prepare(1, Classic(b)) in s.net && BallotGe(b, r.promise)
    ensures Reaches(d, s0, s') && OnlyAcceptors(s, s', q)
    ensures AllHold(s', q, r.(promise := b)) && forall a | a in q :: PromiseOf(a, b, r) in s'.net
    decreases q
  {
    if q == {} {
      s' := s;
    } else {
      var a :| a in q;
      var s1 := PromiseAll(d, s0, s, q - {a}, r, b);
      assert Holds(s1, a, r);
      s' := PromiseOne(d, s0, s1, a, r, b);
      OthersHold(s1, s', q - {a}, a, r.(promise := b));
    }
  }

  lemma VoteOne(d: Return, s0: Sys, s: Sys, a: Aid, r: Record, b: Ballot, v: Value) returns (s': Sys)
    requires Reaches(d, s0, s) && Holds(s, a, r) && Accept(1, Classic(b), v) in s.net && BallotGe(b, r.promise)
    ensures Reaches(d, s0, s') && OnlyAcceptors(s, s', {a})
    ensures Holds(s', a, Record(b, b, v)) && Accepted(a, 1, Classic(b), v) in s'.net
  {
    var e := AcceptorGets(a, Accept(1, Classic(b), v));
    ReachesNext(d, s0, s, e);
    s' := ApplyIn(d, s, e);
    StoreRoundTrip(s.acceptors[a].s.mem, 1, Record(b, b, v), 1);
  }

  lemma {:induction false} VoteAll(d: Return, s0: Sys, s: Sys, q: set<Aid>, r: Record, b: Ballot, v: Value)
    returns (s': Sys)
    requires Reaches(d, s0, s) && AllHold(s, q, r) && Accept(1, Classic(b), v) in s.net && BallotGe(b, r.promise)
    ensures Reaches(d, s0, s') && OnlyAcceptors(s, s', q)
    ensures AllHold(s', q, Record(b, b, v)) && forall a | a in q :: Accepted(a, 1, Classic(b), v) in s'.net
    decreases q
  {
    if q == {} {
      s' := s;
    } else {
      var a :| a in q;
      var s1 := VoteAll(d, s0, s, q - {a}, r, b, v);
      assert Holds(s1, a, r);
      s' := VoteOne(d, s0, s1, a, r, b, v);
      OthersHold(s1, s', q - {a}, a, Record(b, b, v));
    }
  }

  lemma RefuseOne(d: Return, s0: Sys, s: Sys, a: Aid, r: Record, b: Ballot, v: Value) returns (s': Sys)
    requires Reaches(d, s0, s) && Holds(s, a, r) && Accept(1, Classic(b), v) in s.net && BallotGt(r.promise, b)
    ensures Reaches(d, s0, s') && s.net <= s'.net && s'.proposers == s.proposers && s'.acceptors == s.acceptors
    ensures Preempted(a, 1, Classic(b), Classic(r.promise)) in s'.net
  {
    var e := AcceptorGets(a, Accept(1, Classic(b), v));
    ReachesNext(d, s0, s, e);
    s' := ApplyIn(d, s, e);
    assert s'.acceptors == s.acceptors;
  }

  lemma VotesDecide(c: Config, net: set<Msg>, q: set<Aid>, b: Ballot, v: Value)
    requires q <= c.acceptors && |q| >= c.q2 && forall a | a in q :: Accepted(a, 1, Classic(b), v) in net
    ensures Decided(c, net, 1, v)
  {
    assert ChosenBy(c, net, 1, Classic(b), v, q);
    assert ChosenAt(c, net, 1, Classic(b), v);
  }

  // ---------------------------------------------------------------- proposers

  function Table(inst: Option<SP.Inst>): map<Iid, SP.Inst> { if inst.Some? then map[1 := inst.value] else map[] }

  /** Proposer p has exactly the given instances 1 open in its tables. */
  ghost predicate Has(c: Config, s: Sys, p: Pid, prepare: Option<SP.Inst>, accept: Option<SP.Inst>) {
    && p in s.proposers
    && var x := s.proposers[p];
       && x.id == p && x.q1 == c.q1 && x.q2 == c.q2 && x.trim == 0 && x.chosens == {}
       && x.prepare == Table(prepare) && x.accept == Table(accept)
  }

  ghost predicate OnlyProposer(s: Sys, s': Sys, p: Pid) {
    && s.net <= s'.net && s'.acceptors == s.acceptors
    && (forall x | x != p && x in s.proposers :: x in s'.proposers && s'.proposers[x] == s.proposers[x])
  }

  /** A fresh proposer starts instance 1. */
  lemma StartOne(d: Return, c: Config, s0: Sys, s: Sys, b: Ballot) returns (s': Sys)
    requires Reaches(d, s0, s) && Has(c, s, b.proposer, None, None) && s.proposers[b.proposer].next == 1
    requires b.number > 0
    ensures Reaches(d, s0, s') && OnlyProposer(s, s', b.proposer) && Prepare(1, Classic(b)) in s'.net
    ensures Has(c, s', b.proposer, Some(SP.NewInst(b, c.q1)), None)
  {
    var e := ProposerStarts(b.proposer, b);
    ReachesNext(d, s0, s, e);
    s' := ApplyIn(d, s, e);
  }

  lemma CountOne(d: Return, c: Config, s0: Sys, s: Sys, a: Aid, inst: SP.Inst, r: Record) returns (s': Sys)
    requires Reaches(d, s0, s) && Has(c, s, inst.ballot.proposer, Some(inst), None) && a !in inst.quorum
    requires PromiseOf(a, inst.ballot, r) in s.net
    ensures Reaches(d, s0, s') && OnlyProposer(s, s', inst.ballot.proposer)
    ensures var inst' := SP.HandleReport(inst.(quorum := inst.quorum + {a}), r.valueBallot, Report(r));
      Has(c, s', inst.ballot.proposer, Some(inst'), None)
  {
    var p := inst.ballot.proposer;
    var e := ProposerGets(p, PromiseOf(a, inst.ballot, r), inst.ballot);
    ReachesNext(d, s0, s, e);
    s' := ApplyIn(d, s, e);
    var inst' := SP.HandleReport(inst.(quorum := inst.quorum + {a}), r.valueBallot, Report(r));
    assert s'.proposers[p].prepare == map[1 := inst'];
  }

  /** Everyone in q was counted, reporting the vote of r. */
  function Counted(inst: SP.Inst, q: set<Aid>, r: Record): SP.Inst {
    var inst' := inst.(quorum := inst.quorum + q);
    if q == {} then inst' else SP.HandleReport(inst', r.valueBallot, Report(r))
  }

  lemma {:induction false} CountAll(d: Return, c: Config, s0: Sys, s: Sys, q: set<Aid>, inst: SP.Inst, r: Record)
    returns (s': Sys)
    requires Reaches(d, s0, s) && Has(c, s, inst.ballot.proposer, Some(inst), None) && q !! inst.quorum
    requires forall a | a in q :: PromiseOf(a, inst.ballot, r) in s.net
    ensures Reaches(d, s0, s') && OnlyProposer(s, s', inst.ballot.proposer)
    ensures Has(c, s', inst.ballot.proposer, Some(Counted(inst, q, r)), None)
    decreases q
  {
    if q == {} {
      s' := s;
      assert inst.quorum + q == inst.quorum;
    } else {
      var a :| a in q;
      var s1 := CountAll(d, c, s0, s, q - {a}, inst, r);
      var inst1 := Counted(inst, q - {a}, r);
      s' := CountOne(d, c, s0, s1, a, inst1, r);
      assert inst.quorum + (q - {a}) + {a} == inst.quorum + q;
    }
  }

  /** The instance in phase 2 with the value it proposes. */
  function Proposed(c: Config, inst: SP.Inst, v: Value): SP.Inst {
    inst.(proposing := Some(v), lastValue := None, quorum := {}, size := c.q2)
  }

  lemma Propose(d: Return, c: Config, s0: Sys, s: Sys, inst: SP.Inst, client: Value) returns (s': Sys)
    requires Reaches(d, s0, s) && Has(c, s, inst.ballot.proposer, Some(inst), None) && |inst.quorum| >= inst.size
    ensures Reaches(d, s0, s') && OnlyProposer(s, s', inst.ballot.proposer)
    ensures var v := if inst.lastValue.Some? then inst.lastValue.value else client;
      Has(c, s', inst.ballot.proposer, None, Some(Proposed(c, inst, v))) && Accept(1, Classic(inst.ballot), v) in s'.net
  {
    var p := inst.ballot.proposer;
    var e := ProposerAccepts(p, 1, Some(client));
    ReachesNext(d, s0, s, e);
    s' := ApplyIn(d, s, e);
    var v := if inst.lastValue.Some? then inst.lastValue.value else client;
    assert s'.proposers[p].prepare == map[];
    assert s'.proposers[p].accept == map[1 := Proposed(c, inst, v)];
  }

  /** The preempted instance back in phase 1. */
  function Back(d: Return, c: Config, inst: SP.Inst, b: Ballot): SP.Inst {
    var size := ReturnSize(d, c.q1, c.q2);
    if d.WithQ2? then SP.NewInst(b, size) else D.PreemptAsWritten(inst, b, size)
  }

  lemma ReturnOne(d: Return, c: Config, s0: Sys, s: Sys, a: Aid, inst: SP.Inst, pb: Ballot, b: Ballot)
    returns (s': Sys)
    requires Reaches(d, s0, s) && Has(c, s, inst.ballot.proposer, None, Some(inst))
    requires Preempted(a, 1, Classic(inst.ballot), Classic(pb)) in s.net
    requires b.proposer == inst.ballot.proposer && b.number > pb.number
    ensures Reaches(d, s0, s') && OnlyProposer(s, s', b.proposer) && Prepare(1, Classic(b)) in s'.net
    ensures Has(c, s', b.proposer, Some(Back(d, c, inst, b)), None)
  {
    var e := ProposerGets(b.proposer, Preempted(a, 1, Classic(inst.ballot), Classic(pb)), b);
    ReachesNext(d, s0, s, e);
    s' := ApplyIn(d, s, e);
    assert s'.proposers[b.proposer].prepare == map[1 := Back(d, c, inst, b)];
    assert s'.proposers[b.proposer].accept == map[];
  }

  // ---------------------------------------------------------------- whole phases

  /** Nobody but the acceptors q and the proposer p changes. */
  ghost predicate Only(s: Sys, s': Sys, q: set<Aid>, p: Pid) {
    && s.net <= s'.net
    && (forall x | x in s.acceptors && x !in q :: x in s'.acceptors && s'.acceptors[x] == s.acceptors[x])
    && (forall x | x != p && x in s.proposers :: x in s'.proposers && s'.proposers[x] == s.proposers[x])
  }

  /** What the instance proposes once everyone in q, with record r, has promised. */
  function Choice(inst: SP.Inst, q: set<Aid>, r: Record, client: Value): Value {
    var inst' := Counted(inst, q, r);
    if inst'.lastValue.Some? then inst'.lastValue.value else client
  }

  /** The whole of phase 1 with the acceptors q, and the proposal that follows. */
  lemma PhaseOne(d: Return, c: Config, s0: Sys, s: Sys, q: set<Aid>, r: Record, inst: SP.Inst, client: Value)
    returns (s': Sys)
    requires Reaches(d, s0, s) && AllHold(s, q, r) && BallotGe(inst.ballot, r.promise)
    requires Prepare(1, Classic(inst.ballot)) in s.net && Has(c, s, inst.ballot.proposer, Some(inst), None)
    requires inst.quorum == {} && |q| >= inst.size
    ensures Reaches(d, s0, s') && Only(s, s', q, inst.ballot.proposer) && AllHold(s', q, r.(promise := inst.ballot))
    ensures var v := Choice(inst, q, r, client);
      && Has(c, s', inst.ballot.proposer, None, Some(Proposed(c, Counted(inst, q, r), v)))
      && Accept(1, Classic(inst.ballot), v) in s'.net
  {
    var s1 := PromiseAll(d, s0, s, q, r, inst.ballot);
    var s2 := CountAll(d, c, s0, s1, q, inst, r);
    assert {} + q == q;
    s' := Propose(d, c, s0, s2, Counted(inst, q, r), client);
  }

  const FIRST := Ballot(1, 1)
  const SECOND := Ballot(2, 2)
  const THIRD := Ballot(3, 3)

  /** Standard acceptors and three proposers. */
  function Start(c: Config): Sys {
    Sys({}, map a | a in c.acceptors :: Std(SA.Boot(a)),
        map[1 := SP.Boot(1, c.q1, c.q2, 0), 2 := SP.Boot(2, c.q1, c.q2, 0), 3 := SP.Boot(3, c.q1, c.q2, 0)], map[])
  }

  /** All three proposers have sent their prepares. */
  lemma AllStart(d: Return, c: Config) returns (s: Sys)
    ensures Init(c, Start(c)) && Reaches(d, Start(c), s) && AllHold(s, c.acceptors, EMPTY)
    ensures forall b | b in {FIRST, SECOND, THIRD} ::
      Has(c, s, b.proposer, Some(SP.NewInst(b, c.q1)), None) && Prepare(1, Classic(b)) in s.net
  {
    var s0 := Start(c);
    assert s0.acceptors.Keys == c.acceptors;
    assert RunIn(d, s0, []) == s0;
    assert AllHold(s0, c.acceptors, EMPTY);
    var s1 := StartOne(d, c, s0, s0, FIRST);
    var s2 := StartOne(d, c, s0, s1, SECOND);
    s := StartOne(d, c, s0, s2, THIRD);
  }

  /** One instance, two values. */
  ghost predicate Splits(d: Return, c: Config, s: Sys, v1: Value, v2: Value) {
    Reaches(d, Start(c), s) && Decided(c, s.net, 1, v1) && Decided(c, s.net, 1, v2)
  }

  lemma SplitMeansNoAgreement(d: Return, c: Config, s: Sys)
    requires Init(c, Start(c)) && Splits(d, c, s, [0], [1])
    ensures !Agrees(d, c)
  {
    var es :| RunIn(d, Start(c), es) == s;
    assert Decided(c, RunIn(d, Start(c), es).net, 1, [0]) && Decided(c, RunIn(d, Start(c), es).net, 1, [1]);
    var zero: Value, one: Value := [0], [1];
    assert zero[0] != one[0];
  }

  // ---------------------------------------------------------------- returning with q2

  /** Both proposers get through phase 1; the second one's value is decided by the acceptors q. */
  lemma SecondDecides(d: Return, c: Config, v1: Value, v2: Value, q: set<Aid>) returns (s: Sys)
    requires c.q1 <= |c.acceptors| && q <= c.acceptors
    ensures Init(c, Start(c)) && Reaches(d, Start(c), s)
    ensures forall a | a in q :: Accepted(a, 1, Classic(SECOND), v2) in s.net
    ensures AllHold(s, c.acceptors - q, EMPTY.(promise := SECOND)) && Accept(1, Classic(FIRST), v1) in s.net
    ensures Has(c, s, 1, None, Some(Proposed(c, Counted(SP.NewInst(FIRST, c.q1), c.acceptors, EMPTY), v1)))
  {
    var s0, all := Start(c), c.acceptors;
    var s1 := AllStart(d, c);
    assert FIRST in {FIRST, SECOND, THIRD} && SECOND in {FIRST, SECOND, THIRD};
    var s2 := PhaseOne(d, c, s0, s1, all, EMPTY, SP.NewInst(FIRST, c.q1), v1);
    var s3 := PhaseOne(d, c, s0, s2, all, EMPTY.(promise := FIRST), SP.NewInst(SECOND, c.q1), v2);
    s := VoteAll(d, s0, s3, q, EMPTY.(promise := SECOND), SECOND, v2);
  }

  /** The first proposer is preempted and comes back with q2. */
  lemma FirstReturns(c: Config, s: Sys, v: Value, a: Aid, b: Ballot) returns (s': Sys)
    requires Reaches(WithQ2, Start(c), s) && Holds(s, a, EMPTY.(promise := SECOND))
    requires Accept(1, Classic(FIRST), v) in s.net && b.proposer == 1 && b.number > 2
    requires Has(c, s, 1, None, Some(Proposed(c, Counted(SP.NewInst(FIRST, c.q1), c.acceptors, EMPTY), v)))
    ensures Reaches(WithQ2, Start(c), s') && s.net <= s'.net && s'.acceptors == s.acceptors
    ensures Prepare(1, Classic(b)) in s'.net && Has(c, s', 1, Some(SP.NewInst(b, c.q2)), None)
  {
    var s1 := RefuseOne(WithQ2, Start(c), s, a, EMPTY.(promise := SECOND), FIRST, v);
    var inst := Proposed(c, Counted(SP.NewInst(FIRST, c.q1), c.acceptors, EMPTY), v);
    s' := ReturnOne(WithQ2, c, Start(c), s1, a, inst, SECOND, b);
  }

  /** It gets its value decided by acceptors outside q. */
  lemma FirstDecidesToo(c: Config, v1: Value, v2: Value, q: set<Aid>, q': set<Aid>) returns (s: Sys)
    requires c.q1 <= |c.acceptors| && q <= c.acceptors && q' <= c.acceptors - q && |q| == |q'| == c.q2 > 0
    ensures Init(c, Start(c)) && Splits(WithQ2, c, s, v1, v2)
  {
    var s0, b, r := Start(c), Ballot(3, 1), EMPTY.(promise := SECOND);
    var s1 := SecondDecides(WithQ2, c, v1, v2, q);
    var a :| a in q';
    var s2 := FirstReturns(c, s1, v1, a, b);
    assert AllHold(s2, q', r);
    var s3 := PhaseOne(WithQ2, c, s0, s2, q', r, SP.NewInst(b, c.q2), v1);
    s := VoteAll(WithQ2, s0, s3, q', r.(promise := b), b, v1);
    VotesDecide(c, s.net, q, SECOND, v2);
    VotesDecide(c, s.net, q', b, v1);
  }

  /** Returning to phase 1 with q2 keeps agreement exactly where any two phase 2 quorums meet, or where no phase 1
      quorum exists. */
  lemma WithQ2AgreesIff(c: Config)
    requires ValidConfig(c)
    ensures Agrees(WithQ2, c) <==> 2 * c.q2 > |c.acceptors| || c.q1 > |c.acceptors|
  {
    if c.q1 > |c.acceptors| {
      AgreesWithoutQuorums(WithQ2, c);
    } else if 2 * c.q2 > |c.acceptors| {
      AgreesWithQ2(c);
    } else {
      var q := D.SubsetOfSize(c.acceptors, c.q2);
      var q' := D.SubsetOfSize(c.acceptors - q, c.q2);
      var s := FirstDecidesToo(c, [0], [1], q, q');
      SplitMeansNoAgreement(WithQ2, c, s);
    }
  }

  // ---------------------------------------------------------------- the stale report

  /** The first value is decided by everyone. */
  lemma AllVote(d: Return, c: Config, v: Value) returns (s: Sys)
    requires c.q1 <= |c.acceptors|
    ensures Init(c, Start(c)) && Reaches(d, Start(c), s) && AllHold(s, c.acceptors, Record(FIRST, FIRST, v))
    ensures forall a | a in c.acceptors :: Accepted(a, 1, Classic(FIRST), v) in s.net
    ensures Prepare(1, Classic(SECOND)) in s.net && Prepare(1, Classic(THIRD)) in s.net
    ensures Has(c, s, 2, Some(SP.NewInst(SECOND, c.q1)), None)
  {
    var s0, all := Start(c), c.acceptors;
    var s1 := AllStart(d, c);
    assert FIRST in {FIRST, SECOND, THIRD} && SECOND in {FIRST, SECOND, THIRD} && THIRD in {FIRST, SECOND, THIRD};
    var s2 := PhaseOne(d, c, s0, s1, all, EMPTY, SP.NewInst(FIRST, c.q1), v);
    s := VoteAll(d, s0, s2, all, EMPTY.(promise := FIRST), FIRST, v);
  }

  /** The second proposer learns of it in phase 1 and proposes it again. */
  lemma DecidedAndReproposed(d: Return, c: Config, v: Value) returns (s: Sys)
    requires c.q1 <= |c.acceptors| && c.acceptors != {}
    ensures Init(c, Start(c)) && Reaches(d, Start(c), s) && AllHold(s, c.acceptors, Record(SECOND, FIRST, v))
    ensures forall a | a in c.acceptors :: Accepted(a, 1, Classic(FIRST), v) in s.net
    ensures Accept(1, Classic(SECOND), v) in s.net && Prepare(1, Classic(THIRD)) in s.net
    ensures Has(c, s, 2, None, Some(SP.Inst(SECOND, FIRST, None, Some(v), {}, c.q2)))
  {
    var s1 := AllVote(d, c, v);
    s := PhaseOne(d, c, Start(c), s1, c.acceptors, Record(FIRST, FIRST, v), SP.NewInst(SECOND, c.q1), v);
  }

  /** The third proposer's prepare preempts it, and it comes back with the old report's ballot. */
  lemma SecondReturns(d: Return, c: Config, v: Value, b: Ballot) returns (s: Sys)
    requires c.q1 <= |c.acceptors| && c.acceptors != {} && b.proposer == 2 && b.number > 3
    ensures Init(c, Start(c)) && Reaches(d, Start(c), s) && AllHold(s, c.acceptors, Record(THIRD, FIRST, v))
    ensures forall a | a in c.acceptors :: Accepted(a, 1, Classic(FIRST), v) in s.net
    ensures Prepare(1, Classic(b)) in s.net
    ensures Has(c, s, 2, Some(Back(d, c, SP.Inst(SECOND, FIRST, None, Some(v), {}, c.q2), b)), None)
  {
    var s0, all := Start(c), c.acceptors;
    var s1 := DecidedAndReproposed(d, c, v);
    var s2 := PromiseAll(d, s0, s1, all, Record(SECOND, FIRST, v), THIRD);
    var a :| a in all;
    var s3 := RefuseOne(d, s0, s2, a, Record(THIRD, FIRST, v), SECOND, v);
    s := ReturnOne(d, c, s0, s3, a, SP.Inst(SECOND, FIRST, None, Some(v), {}, c.q2), THIRD, b);
    assert AllHold(s, all, Record(THIRD, FIRST, v));
  }

  /** It does not count the report it gets again, and proposes a value of its own. */
  lemma ReportLost(d: Return, c: Config, v1: Value, v2: Value) returns (s: Sys)
    requires !d.WithQ2? && c.q1 <= |c.acceptors| && 0 < c.q2 <= |c.acceptors|
    ensures Init(c, Start(c)) && Splits(d, c, s, v1, v2)
  {
    var s0, all, b, r := Start(c), c.acceptors, Ballot(4, 2), Record(THIRD, FIRST, v1);
    var s1 := SecondReturns(d, c, v1, b);
    var inst := SP.Inst(SECOND, FIRST, None, Some(v1), {}, c.q2);
    var s2 := PhaseOne(d, c, s0, s1, all, r, Back(d, c, inst, b), v2);
    s := VoteAll(d, s0, s2, all, r.(promise := b), b, v2);
    VotesDecide(c, s.net, all, FIRST, v1);
    VotesDecide(c, s.net, all, b, v2);
  }

  /** With the stale report, alone or together with q2 as in the code, agreement is lost in every configuration whose
      quorums exist at all. */
  lemma AsWrittenAgreesIff(d: Return, c: Config)
    requires ValidConfig(c) && !d.WithQ2?
    ensures Agrees(d, c) <==> c.q1 > |c.acceptors| || c.q2 > |c.acceptors|
  {
    if c.q1 > |c.acceptors| || c.q2 > |c.acceptors| {
      AgreesWithoutQuorums(d, c);
    } else {
      var s := ReportLost(d, c, [0], [1]);
      SplitMeansNoAgreement(d, c, s);
    }
  }

  /** The configuration of paxos.conf: three acceptors, q1 = 3, q2 = 1. Each departure alone breaks it. */
  lemma ShippedFails(d: Return)
    ensures var c := Config({0, 1, 2}, 3, 1); ValidConfig(c) && !Agrees(d, c)
  {
    var c := Config({0, 1, 2}, 3, 1);
    assert |c.acceptors| == 3;
    if d.WithQ2? { WithQ2AgreesIff(c); } else { AsWrittenAgreesIff(d, c); }
  }
}
