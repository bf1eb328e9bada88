/** What a standard proposer knows, told from what it received: whom it counted, whose report it took over, what it
    gave up, and that it announces a decision with the vote that completes the quorum. */
module ProposerHistory {
  import opened Types
  import opened Voting
  import opened ClassicNet
  import opened ClassicSystem
  import opened ClassicSafety
  import SP = StandardProposer
  import SPP = StandardProposerProof

  // ---------------------------------------------------------------- histories

  /** The messages proposer p received, in order. */
  ghost function Got(s: Sys, es: seq<Event>, p: Pid): seq<Msg> {
    if es == [] then []
    else
      var before, e := es[..|es| - 1], es[|es| - 1];
      var got := Got(s, before, p);
      if Enabled(Run(s, before), e) && e.ProposerGets? && e.p == p then got + [e.m] else got
  }

  /** The instances it started. */
  ghost function Started(s: Sys, es: seq<Event>, p: Pid): set<Iid> {
    if es == [] then {}
    else
      var before, e := es[..|es| - 1], es[|es| - 1];
      var started := Started(s, before, p);
      if Enabled(Run(s, before), e) && e.ProposerStarts? && e.p == p then started + {Run(s, before).proposers[p].next}
      else started
  }

  /** The report each acceptor gave with its first promise of ballot b. */
  function Reports(got: seq<Msg>, i: Iid, b: Ballot): map<Aid, (Ballot, Value)> {
    if got == [] then map[]
    else
      var rep, m := Reports(got[..|got| - 1], i, b), got[|got| - 1];
      if m.Promise? && m.iid == i && m.round == Classic(b) && m.aid !in rep
      then rep[m.aid := (m.lastRound.ballot, m.lastValue)] else rep
  }

  /** The acceptors that voted at ballot b. */
  function Voters(got: seq<Msg>, i: Iid, b: Ballot): set<Aid> {
    set m | m in got && m.Accepted? && m.iid == i && m.round == Classic(b) :: m.aid
  }

  /** (b, v) is the report of the highest ballot; nobody reported a vote if v is missing. */
  ghost predicate IsHighestReport(rep: map<Aid, (Ballot, Value)>, b: Ballot, v: Option<Value>) {
    && (forall a | a in rep :: BallotGe(b, rep[a].0))
    && (if v.Some? then exists a :: a in rep && rep[a] == (b, v.value) else b == INVALID_BALLOT)
  }

  // ---------------------------------------------------------------- what the tables tell

  predicate Live(p: SP.Proposer, i: Iid) { i > p.trim && i !in p.chosens }

  ghost predicate PreparingTells(got: seq<Msg>, i: Iid, inst: SP.Inst) {
    var rep := Reports(got, i, inst.ballot);
    && inst.quorum == rep.Keys
    && IsHighestReport(rep, inst.lastBallot, inst.lastValue)
    && NotPreempted(got, i, inst.ballot)
  }

  ghost predicate AcceptingTells(got: seq<Msg>, i: Iid, inst: SP.Inst) {
    inst.quorum == Voters(got, i, inst.ballot) && NotPreempted(got, i, inst.ballot)
  }

  /** No preemption of the ballot was received. */
  ghost predicate NotPreempted(got: seq<Msg>, i: Iid, b: Ballot) {
    forall m | m in got && m.Preempted? && m.iid == i :: m.attempted.ballot != b
  }

  /** The largest chosen instance, and a counter beyond the trim point. */
  ghost predicate CountersTell(p: SP.Proposer) {
    && (forall i | i in p.chosens :: i <= p.maxChosen)
    && (p.maxChosen == 0 || p.maxChosen in p.chosens)
    && p.trim < p.next
  }

  /** What was received about closed instances was taken in, and what is closed was announced by someone. */
  ghost predicate ClosedTells(net: set<Msg>, got: seq<Msg>, p: SP.Proposer) {
    && CountersTell(p)
    && (forall m | m in got && m.Chosen? :: m.iid in p.chosens)
    && (forall m | m in got && m.Trim? :: m.iid <= p.trim)
    && (forall i | i in p.chosens :: exists r, v :: Chosen(i, r, v) in net)
  }

  /** What the tables tell about one instance: it is open exactly as long as it is live, and its record is true. */
  ghost predicate InstTells(c: Config, net: set<Msg>, got: seq<Msg>, started: set<Iid>, p: SP.Proposer, i: Iid) {
    && (i in p.prepare ==>
          && i in started && Prepare(i, Classic(p.prepare[i].ballot)) in net
          && (Live(p, i) ==> PreparingTells(got, i, p.prepare[i])))
    && (i in p.accept ==>
          && i in started && |p.accept[i].quorum| < c.q2
          && (Live(p, i) ==> AcceptingTells(got, i, p.accept[i])))
    && (i in started && Live(p, i) ==> i in p.prepare || i in p.accept)
  }

  ghost predicate History(c: Config, net: set<Msg>, got: seq<Msg>, started: set<Iid>, p: SP.Proposer) {
    && (forall m | m in got :: m in net)
    && ClosedTells(net, got, p)
    && (forall i :: InstTells(c, net, got, started, p, i))
  }

  // ---------------------------------------------------------------- one more message

  lemma ReportsGrow(got: seq<Msg>, m: Msg, i: Iid, b: Ballot)
    ensures var rep := Reports(got, i, b);
      Reports(got + [m], i, b) ==
        if m.Promise? && m.iid == i && m.round == Classic(b) && m.aid !in rep
        then rep[m.aid := (m.lastRound.ballot, m.lastValue)] else rep
  {
    assert (got + [m])[..|got|] == got;
  }

  lemma VotersGrow(got: seq<Msg>, m: Msg, i: Iid, b: Ballot)
    ensures Voters(got + [m], i, b) ==
      Voters(got, i, b) + if m.Accepted? && m.iid == i && m.round == Classic(b) then {m.aid} else {}
  {
    assert forall n :: n in got + [m] <==> n in got || n == m;
  }

  /** Nothing was ever asked at a new ballot, so nothing was received about it. */
  lemma {:induction false} NothingAt(c: Config, net: set<Msg>, got: seq<Msg>, i: Iid, b: Ballot)
    requires NetInv(c, net) && (forall m | m in got :: m in net) && !Requested(net, i, Classic(b))
    ensures Reports(got, i, b) == map[] && NotPreempted(got, i, b)
    decreases |got|
  {
    if got != [] {
      var before, m := got[..|got| - 1], got[|got| - 1];
      assert got == before + [m] && m in got;
      NothingAt(c, net, before, i, b);
      assert MsgOK(c, net, m);
    }
  }

  lemma NoVotersAt(c: Config, net: set<Msg>, got: seq<Msg>, i: Iid, b: Ballot)
    requires NetInv(c, net) && (forall m | m in got :: m in net)
    requires forall v :: Accept(i, Classic(b), v) !in net
    ensures Voters(got, i, b) == {}
  {
    assert VotesProposed(c, net);
    assert forall m | m in got && m.Accepted? :: Accept(m.iid, m.round, m.value) in net;
  }

  /** The message is about instance i and closes nothing. */
  predicate About(m: Msg, i: Iid) { (m.Promise? || m.Accepted? || m.Preempted?) && m.iid == i }

  /** A message that is not about the instance leaves its records true. */
  lemma OtherInstance(got: seq<Msg>, m: Msg, i: Iid, inst: SP.Inst)
    requires !About(m, i)
    ensures PreparingTells(got, i, inst) ==> PreparingTells(got + [m], i, inst)
    ensures AcceptingTells(got, i, inst) ==> AcceptingTells(got + [m], i, inst)
  {
    ReportsGrow(got, m, i, inst.ballot);
    VotersGrow(got, m, i, inst.ballot);
  }

  // ---------------------------------------------------------------- one step of the proposer

  /** p' has the entries of p for instance i, unless it has closed the instance. */
  ghost predicate SameEntry(p: SP.Proposer, p': SP.Proposer, i: Iid) {
    && (i in p'.prepare ==> i in p.prepare && p'.prepare[i] == p.prepare[i])
    && (i in p'.accept ==> i in p.accept && p'.accept[i] == p.accept[i])
    && (Live(p', i) ==> Live(p, i) && (i in p.prepare <==> i in p'.prepare) && (i in p.accept <==> i in p'.accept))
  }

  /** A step that is not about the instance. */
  lemma OtherTells(c: Config, net: set<Msg>, net': set<Msg>, got: seq<Msg>, m: Msg, started: set<Iid>,
        p: SP.Proposer, p': SP.Proposer, i: Iid)
    requires InstTells(c, net, got, started, p, i) && net <= net' && SameEntry(p, p', i) && !About(m, i)
    ensures InstTells(c, net', got + [m], started, p', i)
  {
    if i in p.prepare { OtherInstance(got, m, i, p.prepare[i]); }
    if i in p.accept { OtherInstance(got, m, i, p.accept[i]); }
  }

  lemma ClosedGrows(net: set<Msg>, net': set<Msg>, got: seq<Msg>, m: Msg, p: SP.Proposer, p': SP.Proposer)
    requires ClosedTells(net, got, p) && net <= net' && p.chosens <= p'.chosens && p.trim <= p'.trim
    requires m.Chosen? ==> m.iid in p'.chosens
    requires m.Trim? ==> m.iid <= p'.trim
    requires CountersTell(p')
    requires forall i | i in p'.chosens && i !in p.chosens :: exists r, v :: Chosen(i, r, v) in net'
    ensures ClosedTells(net', got + [m], p')
  {
    forall i | i in p'.chosens ensures exists r, v :: Chosen(i, r, v) in net' {
      if i in p.chosens {
        var r, v :| Chosen(i, r, v) in net;
        assert Chosen(i, r, v) in net';
      }
    }
  }

  /** A step about instance i only. */
  lemma StepTells(c: Config, net: set<Msg>, net': set<Msg>, got: seq<Msg>, m: Msg, started: set<Iid>,
        p: SP.Proposer, p': SP.Proposer, i: Iid)
    requires History(c, net, got, started, p) && net <= net' && m in net
    requires p'.chosens == p.chosens && p'.trim == p.trim && About(m, i)
    requires p'.next == p.next && p'.maxChosen == p.maxChosen
    requires forall j | j != i :: SameEntry(p, p', j)
    requires InstTells(c, net', got + [m], started, p', i)
    ensures History(c, net', got + [m], started, p')
  {
    ClosedGrows(net, net', got, m, p, p');
    forall j ensures InstTells(c, net', got + [m], started, p', j) {
      if j != i { OtherTells(c, net, net', got, m, started, p, p', j); }
    }
  }

  /** The record of an instance in phase 1 is replaced. */
  lemma UpdatePreparing(c: Config, net: set<Msg>, got: seq<Msg>, m: Msg, started: set<Iid>, p: SP.Proposer, i: Iid,
        inst: SP.Inst)
    requires History(c, net, got, started, p) && m in net && About(m, i) && i in p.prepare && i !in p.accept
    requires inst.ballot == p.prepare[i].ballot && PreparingTells(got + [m], i, inst)
    ensures History(c, net, got + [m], started, p.(prepare := p.prepare[i := inst]))
  {
    assert InstTells(c, net, got, started, p, i);
    StepTells(c, net, net, got, m, started, p, p.(prepare := p.prepare[i := inst]), i);
  }

  /** A message that is about nothing the proposer does. */
  lemma IgnoredTells(c: Config, net: set<Msg>, got: seq<Msg>, m: Msg, started: set<Iid>, p: SP.Proposer)
    requires History(c, net, got, started, p) && m in net && !m.Chosen? && !m.Trim?
    requires forall i | About(m, i) :: InstTells(c, net, got + [m], started, p, i)
    ensures History(c, net, got + [m], started, p)
  {
    ClosedGrows(net, net, got, m, p, p);
    forall i ensures InstTells(c, net, got + [m], started, p, i) {
      if !About(m, i) { OtherTells(c, net, net, got, m, started, p, p, i); }
    }
  }

  // ---------------------------------------------------------------- promises

  /** A promise that the proposer does not call old is for its present ballot. */
  lemma PromiseBallot(c: Config, net: set<Msg>, id: Pid, i: Iid, inst: SP.Inst, m: Msg)
    requires NetInv(c, net) && SPP.PreparingOK(c, net, id, i, inst)
    requires m in net && m.Promise? && m.iid == i && m.round.ballot.proposer == id
    ensures m.round == Classic(m.round.ballot)
    ensures BallotGt(inst.ballot, m.round.ballot) || m.round == Classic(inst.ballot)
  {
    assert MsgOK(c, net, m);
    var n := Prepare(i, m.round);
    assert n in net && n.round.ballot.number <= inst.ballot.number;
  }

  /** Counting the first promise of an acceptor. */
  lemma CountTells(got: seq<Msg>, i: Iid, inst: SP.Inst, m: Msg)
    requires PreparingTells(got, i, inst) && m.Promise? && m.iid == i && m.round == Classic(inst.ballot)
    requires m.aid !in inst.quorum
    ensures PreparingTells(got + [m], i,
      SP.HandleReport(inst.(quorum := inst.quorum + {m.aid}), m.lastRound.ballot, m.lastValue))
  {
    ReportsGrow(got, m, i, inst.ballot);
    var rep, rep' := Reports(got, i, inst.ballot), Reports(got + [m], i, inst.ballot);
    var inst' := SP.HandleReport(inst.(quorum := inst.quorum + {m.aid}), m.lastRound.ballot, m.lastValue);
    if BallotGt(m.lastRound.ballot, inst.lastBallot) {
      assert rep'[m.aid] == (inst'.lastBallot, inst'.lastValue.value);
      forall a | a in rep' ensures BallotGe(inst'.lastBallot, rep'[a].0) {}
    } else if inst.lastValue.Some? {
      var a :| a in rep && rep[a] == (inst.lastBallot, inst.lastValue.value);
      assert rep'[a] == (inst'.lastBallot, inst'.lastValue.value);
    }
  }

  lemma PromiseInst(c: Config, net: set<Msg>, got: seq<Msg>, i: Iid, inst: SP.Inst, m: Msg, id: Pid)
    requires NetInv(c, net) && SPP.PreparingOK(c, net, id, i, inst) && PreparingTells(got, i, inst)
    requires m in net && m.Promise? && m.iid == i && m.round.ballot.proposer == id
    ensures PreparingTells(got + [m], i,
      if BallotGt(inst.ballot, m.round.ballot) || m.aid in inst.quorum then inst
      else SP.HandleReport(inst.(quorum := inst.quorum + {m.aid}), m.lastRound.ballot, m.lastValue))
  {
    PromiseBallot(c, net, id, i, inst, m);
    ReportsGrow(got, m, i, inst.ballot);
    if m.round == Classic(inst.ballot) && m.aid !in inst.quorum { CountTells(got, i, inst, m); }
  }

  lemma PromiseIgnored(c: Config, net: set<Msg>, got: seq<Msg>, m: Msg, started: set<Iid>, p: SP.Proposer)
    requires History(c, net, got, started, p) && m in net && m.Promise? && !(Live(p, m.iid) && m.iid in p.prepare)
    ensures History(c, net, got + [m], started, p)
  {
    assert InstTells(c, net, got, started, p, m.iid);
    if m.iid in p.accept { VotersGrow(got, m, m.iid, p.accept[m.iid].ballot); }
    IgnoredTells(c, net, got, m, started, p);
  }

  lemma PromiseCounted(c: Config, net: set<Msg>, got: seq<Msg>, m: Msg, started: set<Iid>, p: SP.Proposer)
    requires NetInv(c, net) && SPP.ProposerOK(c, net, p) && History(c, net, got, started, p)
    requires m in net && m.Promise? && m.round.ballot.proposer == p.id && Live(p, m.iid) && m.iid in p.prepare
    ensures History(c, net, got + [m], started,
      SP.OnPromise(p, m.aid, m.iid, m.round.ballot, m.lastRound.ballot, m.lastValue))
  {
    var i, inst := m.iid, p.prepare[m.iid];
    assert InstTells(c, net, got, started, p, i);
    PromiseInst(c, net, got, i, inst, m, p.id);
    assert p.prepare[i := inst] == p.prepare;
    UpdatePreparing(c, net, got, m, started, p, i,
      if BallotGt(inst.ballot, m.round.ballot) || m.aid in inst.quorum then inst
      else SP.HandleReport(inst.(quorum := inst.quorum + {m.aid}), m.lastRound.ballot, m.lastValue));
  }

  lemma PromiseTells(c: Config, net: set<Msg>, got: seq<Msg>, m: Msg, started: set<Iid>, p: SP.Proposer)
    requires NetInv(c, net) && SPP.ProposerOK(c, net, p) && History(c, net, got, started, p)
    requires m in net && m.Promise? && m.round.ballot.proposer == p.id
    ensures History(c, net, got + [m], started,
      SP.OnPromise(p, m.aid, m.iid, m.round.ballot, m.lastRound.ballot, m.lastValue))
  {
    if Live(p, m.iid) && m.iid in p.prepare {
      PromiseCounted(c, net, got, m, started, p);
    } else {
      PromiseIgnored(c, net, got, m, started, p);
    }
  }

  // ---------------------------------------------------------------- closing

  /** A step that only closes instances, among them the one the message is about. */
  lemma ClosingTells(c: Config, net: set<Msg>, net': set<Msg>, got: seq<Msg>, m: Msg, started: set<Iid>,
        p: SP.Proposer, p': SP.Proposer)
    requires History(c, net, got, started, p) && net <= net' && m in net
    requires p.chosens <= p'.chosens && p.trim <= p'.trim
    requires m.Chosen? ==> m.iid in p'.chosens
    requires m.Trim? ==> m.iid <= p'.trim
    requires CountersTell(p')
    requires forall i | i in p'.chosens && i !in p.chosens :: exists r, v :: Chosen(i, r, v) in net'
    requires forall i :: SameEntry(p, p', i) && (About(m, i) ==> !Live(p', i))
    ensures History(c, net', got + [m], started, p')
  {
    ClosedGrows(net, net', got, m, p, p');
    forall i ensures InstTells(c, net', got + [m], started, p', i) {
      assert InstTells(c, net, got, started, p, i) && SameEntry(p, p', i);
      if !About(m, i) { OtherTells(c, net, net', got, m, started, p, p', i); }
    }
  }

  lemma TrimShape(p: SP.Proposer, t: Iid)
    ensures var p' := SP.OnTrim(p, t);
      && p'.chosens == p.chosens && p'.trim == Max(p.trim, t)
      && (forall i :: SameEntry(p, p', i))
      && (CountersTell(p) ==> CountersTell(p'))
  {}

  lemma ChosenShape(p: SP.Proposer, i: Iid)
    ensures var p' := SP.OnChosen(p, i);
      && p'.chosens == p.chosens + {i} && p'.trim >= p.trim
      && (forall j :: SameEntry(p, p', j))
      && (i !in p.chosens ==> i !in p'.prepare && i !in p'.accept)
      && (CountersTell(p) ==> CountersTell(p'))
  {
    if i !in p.chosens {
      var p1 := p.(chosens := p.chosens + {i}, maxChosen := if p.maxChosen < i then i else p.maxChosen,
                   accept := p.accept - {i}, prepare := p.prepare - {i});
      TrimShape(p1, i);
      forall j ensures SameEntry(p, p1, j) {}
    } else {
      assert p.chosens + {i} == p.chosens;
    }
  }

  lemma ChosenTells(c: Config, net: set<Msg>, got: seq<Msg>, m: Msg, started: set<Iid>, p: SP.Proposer)
    requires History(c, net, got, started, p) && m in net && m.Chosen?
    ensures History(c, net, got + [m], started, SP.OnChosen(p, m.iid))
  {
    ChosenShape(p, m.iid);
    assert Chosen(m.iid, m.round, m.value) in net;
    ClosingTells(c, net, net, got, m, started, p, SP.OnChosen(p, m.iid));
  }

  lemma TrimTells(c: Config, net: set<Msg>, got: seq<Msg>, m: Msg, started: set<Iid>, p: SP.Proposer)
    requires History(c, net, got, started, p) && m in net && m.Trim?
    ensures History(c, net, got + [m], started, SP.OnTrim(p, m.iid))
  {
    TrimShape(p, m.iid);
    ClosingTells(c, net, net, got, m, started, p, SP.OnTrim(p, m.iid));
  }

  // ---------------------------------------------------------------- votes

  lemma UpdateAccepting(c: Config, net: set<Msg>, got: seq<Msg>, m: Msg, started: set<Iid>, p: SP.Proposer, i: Iid,
        inst: SP.Inst)
    requires History(c, net, got, started, p) && m in net && About(m, i) && i in p.accept && i !in p.prepare
    requires AcceptingTells(got + [m], i, inst) && |inst.quorum| < c.q2
    ensures History(c, net, got + [m], started, p.(accept := p.accept[i := inst]))
  {
    assert InstTells(c, net, got, started, p, i);
    StepTells(c, net, net, got, m, started, p, p.(accept := p.accept[i := inst]), i);
  }

  lemma VoteIgnored(c: Config, net: set<Msg>, got: seq<Msg>, m: Msg, started: set<Iid>, p: SP.Proposer)
    requires History(c, net, got, started, p) && m in net && m.Accepted? && !(Live(p, m.iid) && m.iid in p.accept)
    ensures History(c, net, got + [m], started, p)
  {
    assert InstTells(c, net, got, started, p, m.iid);
    if m.iid in p.prepare { ReportsGrow(got, m, m.iid, p.prepare[m.iid].ballot); }
    IgnoredTells(c, net, got, m, started, p);
  }

  /** The vote that completes a quorum closes the instance and is announced. */
  lemma QuorumTells(c: Config, net: set<Msg>, got: seq<Msg>, m: Msg, started: set<Iid>, p: SP.Proposer, inst: SP.Inst,
        n: Msg)
    requires History(c, net, got, started, p) && m in net && m.Accepted? && m.iid in p.accept
    requires Live(p, m.iid) && n.Chosen? && n.iid == m.iid
    ensures History(c, net + {n}, got + [m], started,
      SP.OnChosen(p.(accept := p.accept[m.iid := inst]), m.iid))
  {
    var i := m.iid;
    var p1 := p.(accept := p.accept[i := inst]);
    ChosenShape(p1, i);
    var p' := SP.OnChosen(p1, i);
    forall j ensures SameEntry(p, p', j) {
      assert SameEntry(p1, p', j);
    }
    assert Chosen(i, n.round, n.value) in net + {n};
    ClosingTells(c, net, net + {n}, got, m, started, p, p');
  }

  /** A vote at the present ballot is counted, and closes the instance if it completes a quorum. */
  lemma VoteShape(p: SP.Proposer, a: Aid, i: Iid, b: Ballot, v: Value, inst: SP.Inst)
    requires Live(p, i) && i in p.accept && |p.accept[i].quorum| < p.accept[i].size
    requires inst == if b == p.accept[i].ballot then p.accept[i].(quorum := p.accept[i].quorum + {a}) else p.accept[i]
    ensures var p1 := p.(accept := p.accept[i := inst]);
      SP.OnAccepted(p, a, i, b, v) ==
        if |inst.quorum| >= inst.size then (SP.OnChosen(p1, i), Some(Chosen(i, Classic(b), v))) else (p1, None)
  {
    assert a in p.accept[i].quorum ==> p.accept[i].quorum + {a} == p.accept[i].quorum;
    assert p.accept[i := p.accept[i]] == p.accept;
  }

  lemma VoteCounted(c: Config, net: set<Msg>, got: seq<Msg>, m: Msg, started: set<Iid>, p: SP.Proposer)
    requires History(c, net, got, started, p) && m in net && m.Accepted? && m.round == Classic(m.round.ballot)
    requires Live(p, m.iid) && m.iid in p.accept && m.iid !in p.prepare && p.accept[m.iid].size == c.q2
    ensures var (p', out) := SP.OnAccepted(p, m.aid, m.iid, m.round.ballot, m.value);
      History(c, net + ToSet(out), got + [m], started, p')
  {
    var i, inst := m.iid, p.accept[m.iid];
    assert InstTells(c, net, got, started, p, i) && net + {} == net;
    var inst' := if m.round.ballot == inst.ballot then inst.(quorum := inst.quorum + {m.aid}) else inst;
    VotersGrow(got, m, i, inst.ballot);
    VoteShape(p, m.aid, i, m.round.ballot, m.value, inst');
    if |inst'.quorum| >= c.q2 {
      QuorumTells(c, net, got, m, started, p, inst', Chosen(i, Classic(m.round.ballot), m.value));
    } else {
      UpdateAccepting(c, net, got, m, started, p, i, inst');
    }
  }

  lemma VoteTells(c: Config, net: set<Msg>, got: seq<Msg>, m: Msg, started: set<Iid>, p: SP.Proposer)
    requires NetInv(c, net) && SPP.ProposerOK(c, net, p) && History(c, net, got, started, p) && m in net && m.Accepted?
    ensures var (p', out) := SP.OnAccepted(p, m.aid, m.iid, m.round.ballot, m.value);
      History(c, net + ToSet(out), got + [m], started, p')
  {
    assert MsgOK(c, net, m);
    if Live(p, m.iid) && m.iid in p.accept {
      assert SPP.AcceptingOK(c, net, p.id, m.iid, p.accept[m.iid]);
      VoteCounted(c, net, got, m, started, p);
    } else {
      assert net + {} == net;
      VoteIgnored(c, net, got, m, started, p);
    }
  }

  // ---------------------------------------------------------------- preemptions

  /** A preemption of another ballot changes nothing. */
  lemma PreemptionIgnored(c: Config, net: set<Msg>, got: seq<Msg>, m: Msg, started: set<Iid>, p: SP.Proposer)
    requires History(c, net, got, started, p) && m in net && m.Preempted?
    requires Live(p, m.iid) && m.iid in p.prepare ==> p.prepare[m.iid].ballot != m.attempted.ballot
    requires Live(p, m.iid) && m.iid in p.accept ==> p.accept[m.iid].ballot != m.attempted.ballot
    ensures History(c, net, got + [m], started, p)
  {
    var i := m.iid;
    assert InstTells(c, net, got, started, p, i);
    if i in p.prepare { ReportsGrow(got, m, i, p.prepare[i].ballot); }
    if i in p.accept { VotersGrow(got, m, i, p.accept[i].ballot); }
    IgnoredTells(c, net, got, m, started, p);
  }

  /** The instance is opened again at a ballot nothing was asked at. */
  lemma ReopenTells(c: Config, net: set<Msg>, got: seq<Msg>, m: Msg, started: set<Iid>, p: SP.Proposer, i: Iid,
        b: Ballot, size: nat)
    requires NetInv(c, net) && History(c, net, got, started, p) && m in net && m.Preempted? && m.iid == i
    requires i in started && !Requested(net, i, Classic(b)) && m.attempted.ballot != b
    ensures History(c, net + {Prepare(i, Classic(b))}, got + [m], started,
      p.(prepare := p.prepare[i := SP.NewInst(b, size)], accept := p.accept - {i}))
  {
    var net' := net + {Prepare(i, Classic(b))};
    var p' := p.(prepare := p.prepare[i := SP.NewInst(b, size)], accept := p.accept - {i});
    NothingAt(c, net, got, i, b);
    ReportsGrow(got, m, i, b);
    assert InstTells(c, net', got + [m], started, p', i);
    StepTells(c, net, net', got, m, started, p, p', i);
  }

  /** Everything this proposer asked for in its own name lies below the ballot. */
  lemma NotRequested(c: Config, net: set<Msg>, id: Pid, i: Iid, last: Ballot, b: Ballot)
    requires SPP.OwnBelow(net, id, i, last, false) && b.proposer == id && b.number > last.number
    ensures !Requested(net, i, Classic(b))
  {
    assert Prepare(i, Classic(b)) !in net;
    assert forall v :: Accept(i, Classic(b), v) !in net;
  }

  lemma PreemptionReopens(c: Config, net: set<Msg>, got: seq<Msg>, m: Msg, started: set<Iid>, p: SP.Proposer, b: Ballot)
    requires NetInv(c, net) && SPP.ProposerOK(c, net, p) && History(c, net, got, started, p)
    requires m in net && m.Preempted? && b.proposer == p.id && b.number > m.current.ballot.number && Live(p, m.iid)
    requires var i := m.iid;
      || (i in p.prepare && p.prepare[i].ballot == m.attempted.ballot)
      || (i in p.accept && p.accept[i].ballot == m.attempted.ballot)
    ensures var (p', out) := SP.OnPreempted(p, m.iid, m.attempted.ballot, b);
      History(c, net + ToSet(out), got + [m], started, p')
  {
    var i := m.iid;
    assert MsgOK(c, net, m) && InstTells(c, net, got, started, p, i);
    NotRequested(c, net, p.id, i, m.attempted.ballot, b);
    SPP.SamePreempted(p, i, m.attempted.ballot, b, p.q1);
    var size := if i in p.accept then p.q1 else p.prepare[i].size;
    ReopenTells(c, net, got, m, started, p, i, b, size);
    assert (p.prepare - {i})[i := SP.NewInst(b, size)] == p.prepare[i := SP.NewInst(b, size)];
  }

  lemma PreemptionTells(c: Config, net: set<Msg>, got: seq<Msg>, m: Msg, started: set<Iid>, p: SP.Proposer, b: Ballot)
    requires NetInv(c, net) && SPP.ProposerOK(c, net, p) && History(c, net, got, started, p)
    requires m in net && m.Preempted? && b.proposer == p.id && b.number > m.current.ballot.number
    ensures var (p', out) := SP.OnPreempted(p, m.iid, m.attempted.ballot, b);
      History(c, net + ToSet(out), got + [m], started, p')
  {
    var i := m.iid;
    if Live(p, i) && ((i in p.prepare && p.prepare[i].ballot == m.attempted.ballot)
        || (i in p.accept && p.accept[i].ballot == m.attempted.ballot)) {
      PreemptionReopens(c, net, got, m, started, p, b);
    } else {
      assert net + {} == net;
      PreemptionIgnored(c, net, got, m, started, p);
    }
  }

  // ---------------------------------------------------------------- every message

  /** Messages about the ballots of other proposers are dropped. */
  lemma ForeignTells(c: Config, net: set<Msg>, got: seq<Msg>, m: Msg, started: set<Iid>, p: SP.Proposer)
    requires SPP.ProposerOK(c, net, p) && History(c, net, got, started, p) && m in net && !m.Chosen? && !m.Trim?
    requires m.Promise? || m.Accepted? ==> m.round.ballot.proposer != p.id
    requires m.Preempted? ==> m.attempted.ballot.proposer != p.id
    ensures History(c, net, got + [m], started, p)
  {
    forall i | About(m, i) ensures InstTells(c, net, got + [m], started, p, i) {
      assert InstTells(c, net, got, started, p, i);
      if i in p.prepare { ReportsGrow(got, m, i, p.prepare[i].ballot); }
      if i in p.accept { VotersGrow(got, m, i, p.accept[i].ballot); }
    }
    IgnoredTells(c, net, got, m, started, p);
  }

  lemma MessageTells(c: Config, net: set<Msg>, got: seq<Msg>, m: Msg, started: set<Iid>, p: SP.Proposer, b: Ballot)
    requires NetInv(c, net) && SPP.ProposerOK(c, net, p) && History(c, net, got, started, p) && m in net
    requires b.proposer == p.id && (m.Preempted? ==> b.number > m.current.ballot.number)
    ensures var (p', out) := SP.Step(p, m, b); History(c, net + ToSet(out), got + [m], started, p')
  {
    assert net + {} == net;
    match m
    case Chosen(_, _, _) => ChosenTells(c, net, got, m, started, p);
    case Trim(_) => TrimTells(c, net, got, m, started, p);
    case Promise(_, _, r, _, _) =>
      if r.ballot.proposer == p.id { PromiseTells(c, net, got, m, started, p); }
      else { ForeignTells(c, net, got, m, started, p); }
    case Accepted(_, _, r, _) =>
      if r.ballot.proposer == p.id { VoteTells(c, net, got, m, started, p); }
      else { ForeignTells(c, net, got, m, started, p); }
    case Preempted(_, _, attempted, _) =>
      if attempted.ballot.proposer == p.id { PreemptionTells(c, net, got, m, started, p, b); }
      else { ForeignTells(c, net, got, m, started, p); }
    case _ => ForeignTells(c, net, got, m, started, p);
  }

  // ---------------------------------------------------------------- starting and proposing

  /** The rest of the system only adds messages. */
  lemma NetTells(c: Config, net: set<Msg>, net': set<Msg>, got: seq<Msg>, started: set<Iid>, p: SP.Proposer)
    requires History(c, net, got, started, p) && net <= net'
    ensures History(c, net', got, started, p)
  {
    forall i | i in p.chosens ensures exists r, v :: Chosen(i, r, v) in net' {
      var r, v :| Chosen(i, r, v) in net;
      assert Chosen(i, r, v) in net';
    }
    forall i ensures InstTells(c, net', got, started, p, i) { assert InstTells(c, net, got, started, p, i); }
  }

  /** The next instance is opened, and its prepare sent. */
  lemma StartTells(c: Config, net: set<Msg>, got: seq<Msg>, started: set<Iid>, p: SP.Proposer, b: Ballot)
    requires NetInv(c, net) && SPP.ProposerOK(c, net, p) && History(c, net, got, started, p)
    requires b.proposer == p.id
    ensures var (p', out) := SP.Preexecute(p, b);
      && out == Some(Prepare(p.next, Classic(b)))
      && p'.next == p.next + 1 + (if p.next <= p.trim then 1 else 0) + (if p.next in p.chosens then 1 else 0)
      && History(c, net + ToSet(out), got, started + {p.next}, p')
  {
    var i, n := p.next, Prepare(p.next, Classic(b));
    var p' := SP.Preexecute(p, b).0;
    NetTells(c, net, net + {n}, got, started, p);
    assert !Requested(net, i, Classic(b)) by {
      assert Prepare(i, Classic(b)) !in net;
      assert forall v :: Accept(i, Classic(b), v) !in net;
    }
    NothingAt(c, net, got, i, b);
    forall j ensures InstTells(c, net + {n}, got, started + {i}, p', j) {
      assert InstTells(c, net + {n}, got, started, p, j);
    }
  }

  lemma AcceptTells(c: Config, net: set<Msg>, got: seq<Msg>, started: set<Iid>, p: SP.Proposer, i: Iid,
        client: Option<Value>)
    requires ValidConfig(c) && NetInv(c, net) && SPP.ProposerOK(c, net, p) && History(c, net, got, started, p)
    requires i in p.prepare
    ensures var (p', out) := SP.BeginAccept(p, i, client); History(c, net + ToSet(out), got, started, p')
  {
    var (p', out) := SP.BeginAccept(p, i, client);
    assert net + {} == net;
    if out.Some? {
      var b := p.prepare[i].ballot;
      assert SPP.PreparingOK(c, net, p.id, i, p.prepare[i]);
      assert forall v :: Accept(i, Classic(b), v) !in net;
      NoVotersAt(c, net, got, i, b);
      MovedTells(c, net, net + {out.value}, got, started, p, i, p'.accept[i]);
    }
  }

  /** The instance moves to phase 2 with an empty quorum. */
  lemma MovedTells(c: Config, net: set<Msg>, net': set<Msg>, got: seq<Msg>, started: set<Iid>, p: SP.Proposer, i: Iid,
        inst: SP.Inst)
    requires History(c, net, got, started, p) && net <= net' && i in p.prepare && c.q2 > 0
    requires inst.quorum == {} == Voters(got, i, inst.ballot) && inst.ballot == p.prepare[i].ballot
    ensures History(c, net', got, started, p.(prepare := p.prepare - {i}, accept := p.accept[i := inst]))
  {
    var p' := p.(prepare := p.prepare - {i}, accept := p.accept[i := inst]);
    NetTells(c, net, net', got, started, p);
    forall j ensures InstTells(c, net', got, started, p', j) { assert InstTells(c, net', got, started, p, j); }
  }

  // ---------------------------------------------------------------- every run

  lemma NetOnlyGrows(s: Sys, e: Event)
    requires Enabled(s, e)
    ensures s.net <= Apply(s, e).net
  {}

  /** What an event that is not the proposer's own leaves alone. */
  lemma OthersMove(s: Sys, e: Event, p: Pid)
    requires Enabled(s, e) && p in s.proposers
    requires !((e.ProposerGets? || e.ProposerStarts? || e.ProposerAccepts?) && e.p == p)
    ensures p in Apply(s, e).proposers && Apply(s, e).proposers[p] == s.proposers[p]
  {}

  /** One event of any run. */
  lemma EventTells(c: Config, s: Sys, e: Event, p: Pid, got: seq<Msg>, started: set<Iid>)
    requires ValidConfig(c) && Inv(c, s) && Enabled(s, e) && p in s.proposers
    requires History(c, s.net, got, started, s.proposers[p])
    ensures p in Apply(s, e).proposers
    ensures History(c, Apply(s, e).net,
      if e.ProposerGets? && e.p == p then got + [e.m] else got,
      if e.ProposerStarts? && e.p == p then started + {s.proposers[p].next} else started,
      Apply(s, e).proposers[p])
  {
    if e.ProposerGets? && e.p == p {
      MessageTells(c, s.net, got, e.m, started, s.proposers[p], e.b);
    } else if e.ProposerStarts? && e.p == p {
      StartTells(c, s.net, got, started, s.proposers[p], e.b);
    } else if e.ProposerAccepts? && e.p == p {
      AcceptTells(c, s.net, got, started, s.proposers[p], e.i, e.client);
    } else {
      OthersMove(s, e, p);
      NetOnlyGrows(s, e);
      NetTells(c, s.net, Apply(s, e).net, got, started, s.proposers[p]);
    }
  }

  /** In every run, for every proposer: an instance it started is open until it is closed; in phase 1 its quorum is
      exactly the acceptors whose promises of its present ballot arrived, and the report taken over the highest of
      their first ones; in phase 2 its quorum is exactly the acceptors whose votes at its present ballot arrived, fewer
      than q2; no preemption of its present ballot arrived; and what is closed was announced. */
  lemma {:induction false} HistoryInEveryRun(c: Config, s: Sys, es: seq<Event>, p: Pid)
    requires ValidConfig(c) && Init(c, s) && p in s.proposers
    ensures p in Run(s, es).proposers
    ensures History(c, Run(s, es).net, Got(s, es, p), Started(s, es, p), Run(s, es).proposers[p])
    decreases |es|
  {
    if es == [] {
      var j :| s.proposers[p] == SP.Boot(p, c.q1, c.q2, j);
    } else {
      var before, e := es[..|es| - 1], es[|es| - 1];
      HistoryInEveryRun(c, s, before, p);
      InitOK(c, s);
      RunKeepsInv(c, s, before);
      if Enabled(Run(s, before), e) {
        EventTells(c, Run(s, before), e, p, Got(s, before, p), Started(s, before, p));
      }
    }
  }

  // ---------------------------------------------------------------- what the proposer does about it

  /** The proposer after a run. */
  ghost function After(s: Sys, es: seq<Event>, p: Pid): SP.Proposer
    requires p in Run(s, es).proposers
  {
    Run(s, es).proposers[p]
  }

  lemma AfterOK(c: Config, s: Sys, es: seq<Event>, p: Pid)
    requires ValidConfig(c) && Init(c, s) && p in s.proposers && p in Run(s, es).proposers
    ensures After(s, es, p).id == p && SPP.ProposerOK(c, Run(s, es).net, After(s, es, p))
    ensures History(c, Run(s, es).net, Got(s, es, p), Started(s, es, p), After(s, es, p))
  {
    HistoryInEveryRun(c, s, es, p);
    InitOK(c, s);
    RunKeepsInv(c, s, es);
  }

  /** The vote that makes q2 acceptors at the present ballot closes the instance and announces it chosen. */
  lemma VoteAnnounces(c: Config, net: set<Msg>, got: seq<Msg>, x: SP.Proposer, i: Iid, a: Aid, v: Value)
    requires i in x.accept && Live(x, i) && AcceptingTells(got, i, x.accept[i])
    requires x.accept[i].size == c.q2 && |x.accept[i].quorum| < c.q2
    requires |Voters(got, i, x.accept[i].ballot) + {a}| >= c.q2
    ensures var (x', out) := SP.OnAccepted(x, a, i, x.accept[i].ballot, v);
      i in x'.chosens && out == Some(Chosen(i, Classic(x.accept[i].ballot), v))
  {
    var q := x.accept[i].quorum;
    assert a in q ==> q + {a} == q;
    ChosenShape(x.(accept := x.accept[i := x.accept[i].(quorum := q + {a})]), i);
  }

  /** The instance is in phase 2 of proposer p, with q2 acceptors once a's vote at its ballot arrives. */
  ghost predicate CompletedBy(c: Config, s: Sys, es: seq<Event>, p: Pid, i: Iid, a: Aid) {
    && p in Run(s, es).proposers && i in After(s, es, p).accept && Live(After(s, es, p), i)
    && |Voters(Got(s, es, p), i, After(s, es, p).accept[i].ballot) + {a}| >= c.q2
  }

  lemma AnnouncesInEveryRun(c: Config, s: Sys, es: seq<Event>, p: Pid, i: Iid, a: Aid, v: Value, b: Ballot)
    requires ValidConfig(c) && Init(c, s) && p in s.proposers && CompletedBy(c, s, es, p, i, a)
    ensures var x := After(s, es, p);
      var r := Classic(x.accept[i].ballot);
      var (x', out) := SP.Step(x, Accepted(a, i, r, v), b);
      i in x'.chosens && out == Some(Chosen(i, r, v))
  {
    AfterOK(c, s, es, p);
    var x := After(s, es, p);
    assert InstTells(c, Run(s, es).net, Got(s, es, p), Started(s, es, p), x, i);
    assert SPP.AcceptingOK(c, Run(s, es).net, p, i, x.accept[i]);
    VoteAnnounces(c, Run(s, es).net, Got(s, es, p), x, i, a, v);
  }

  /** What must be proposed: the value of the highest vote reported, or the client's if none was. */
  ghost predicate IsChoice(rep: map<Aid, (Ballot, Value)>, client: Option<Value>, v: Option<Value>) {
    exists b, w :: IsHighestReport(rep, b, w) && v == if w.Some? then w else client
  }

  /** The instance moves to phase 2 with what must be proposed, if there is anything to propose. */
  lemma ProposesInEveryRun(c: Config, s: Sys, es: seq<Event>, p: Pid, i: Iid, client: Option<Value>)
    requires ValidConfig(c) && Init(c, s) && p in s.proposers && p in Run(s, es).proposers
    requires i in After(s, es, p).prepare && Live(After(s, es, p), i)
    ensures var x := After(s, es, p);
      var b := x.prepare[i].ballot;
      var (x', out) := SP.BeginAccept(x, i, client);
      exists v ::
        && IsChoice(Reports(Got(s, es, p), i, b), client, v)
        && (if v.None? then (x', out) == (x, None)
            else out == Some(Accept(i, Classic(b), v.value)) && i in x'.accept && i !in x'.prepare)
  {
    AfterOK(c, s, es, p);
    var x := After(s, es, p);
    assert InstTells(c, Run(s, es).net, Got(s, es, p), Started(s, es, p), x, i);
    ChoiceProposed(Got(s, es, p), x, i, client);
  }

  lemma ChoiceProposed(got: seq<Msg>, x: SP.Proposer, i: Iid, client: Option<Value>)
    requires i in x.prepare && PreparingTells(got, i, x.prepare[i])
    ensures var b := x.prepare[i].ballot;
      var (x', out) := SP.BeginAccept(x, i, client);
      exists v ::
        && IsChoice(Reports(got, i, b), client, v)
        && (if v.None? then (x', out) == (x, None)
            else out == Some(Accept(i, Classic(b), v.value)) && i in x'.accept && i !in x'.prepare)
  {
    var inst := x.prepare[i];
    var v := if inst.lastValue.Some? then inst.lastValue else client;
    assert IsHighestReport(Reports(got, i, inst.ballot), inst.lastBallot, inst.lastValue);
    assert IsChoice(Reports(got, i, inst.ballot), client, v);
  }

  /** A preemption of the present ballot reopens the instance in phase 1 at the drawn ballot and prepares it. */
  lemma ReturnsInEveryRun(c: Config, s: Sys, es: seq<Event>, p: Pid, m: Msg, b: Ballot)
    requires ValidConfig(c) && Init(c, s) && p in s.proposers && Enabled(Run(s, es), ProposerGets(p, m, b))
    requires m.Preempted? && Live(After(s, es, p), m.iid) && m.iid in Started(s, es, p)
    requires var x := After(s, es, p);
      m.attempted.ballot == if m.iid in x.prepare then x.prepare[m.iid].ballot else
                            if m.iid in x.accept then x.accept[m.iid].ballot else m.attempted.ballot
    ensures var (x', out) := SP.Step(After(s, es, p), m, b);
      && out == Some(Prepare(m.iid, Classic(b)))
      && m.iid in x'.prepare && m.iid !in x'.accept
      && x'.prepare[m.iid].ballot == b && x'.prepare[m.iid].quorum == {}
  {
    AfterOK(c, s, es, p);
    var x := After(s, es, p);
    assert InstTells(c, Run(s, es).net, Got(s, es, p), Started(s, es, p), x, m.iid);
    assert SPP.ProposerOK(c, Run(s, es).net, x);
  }

  /** A timeout repeats the prepare or the proposal of an open instance. */
  lemma ResendsInEveryRun(c: Config, s: Sys, es: seq<Event>, p: Pid, i: Iid)
    requires ValidConfig(c) && Init(c, s) && p in s.proposers && p in Run(s, es).proposers
    ensures var x, net := After(s, es, p), Run(s, es).net;
      var out := SP.Resend(x, i);
      if i in x.accept then
        exists v :: out == Some(Accept(i, Classic(x.accept[i].ballot), v)) && out.value in net
      else if i in x.prepare && |x.prepare[i].quorum| < x.prepare[i].size then
        out == Some(Prepare(i, Classic(x.prepare[i].ballot))) && out.value in net
      else out == None
  {
    AfterOK(c, s, es, p);
    var x := After(s, es, p);
    assert InstTells(c, Run(s, es).net, Got(s, es, p), Started(s, es, p), x, i);
    if i in x.accept { assert SPP.AcceptingOK(c, Run(s, es).net, p, i, x.accept[i]); }
  }

  /** A proposer that learns the decision of i after those of all earlier untrimmed instances trims itself up to i. */
  lemma SelfTrims(x: SP.Proposer, i: Iid)
    requires i !in x.chosens && forall j | x.trim < j < i :: j in x.chosens
    ensures SP.OnChosen(x, i).trim >= i
  {}
}
