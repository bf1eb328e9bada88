/** The epoch proposer's quorums live in one round each, its proposals are safe, and the count of equal reports
    is exact, so that a value it declares chosen in phase 1 really is chosen. */
module EpochProposerProof {
  import opened Types
  import opened Voting
  import opened EpochNet
  import opened EpochProposer
  import SP = StandardProposer

  /** m prepares or proposes in the name of proposer id. */
  ghost predicate IsOwn(id: Pid, m: Msg) {
    || ((m.Prepare? || m.Accept?) && m.round.ballot.proposer == id)
    || (m.StandardPrepare? && m.ballot.proposer == id)
  }

  /** An own message lies at or below the ballot, and a proposal at the ballot itself in an epoch below the bound. */
  ghost predicate IsBelow(m: Msg, b: Ballot, bound: nat)
    requires m.Prepare? || m.StandardPrepare? || m.Accept?
  {
    var number := if m.StandardPrepare? then m.ballot.number else m.round.ballot.number;
    number < b.number || (number == b.number && (m.Accept? ==> m.round.epoch < bound))
  }

  ghost predicate OwnBelow(net: set<Msg>, id: Pid, i: Iid, b: Ballot, bound: nat) {
    forall m | m in net && IsOwn(id, m) && m.iid == i :: IsBelow(m, b, bound)
  }

  /** rep gives the report each member of the quorum was counted with. */
  ghost predicate Tally(net: set<Msg>, i: Iid, inst: Inst, rep: map<Aid, Round>) {
    && rep.Keys == inst.quorum
    && (forall a | a in rep ::
          RoundGe(inst.lastRound, rep[a]) && exists lv :: Promise(a, i, Current(inst), rep[a], lv) in net)
    && inst.same == |Reporters(inst, rep)|
  }

  /** The quorum members that reported the highest accepted round. */
  ghost function Reporters(inst: Inst, rep: map<Aid, Round>): set<Aid> {
    set a | a in rep && rep[a] == inst.lastRound && inst.lastRound != ZERO
  }

  ghost predicate Tallied(net: set<Msg>, i: Iid, inst: Inst) {
    exists rep :: Tally(net, i, inst, rep)
  }

  ghost predicate PreparingOK(c: Config, net: set<Msg>, id: Pid, i: Iid, inst: Inst) {
    && inst.ballot.proposer == id && inst.ballot.number > 0
    && inst.size == c.q1 && inst.quorum <= c.acceptors
    && (inst.epoch == 0 ==> inst.quorum == {} && inst.lastRound == ZERO)
    && RoundGt(Current(inst), inst.lastRound)
    && (inst.lastValue.None? <==> inst.lastRound == ZERO)
    && (inst.lastValue.Some? ==> Accept(i, inst.lastRound, inst.lastValue.value) in net)
    && Tallied(net, i, inst)
    && OwnBelow(net, id, i, inst.ballot, inst.epoch)
  }

  ghost predicate AcceptingOK(c: Config, net: set<Msg>, id: Pid, i: Iid, inst: Inst) {
    && inst.ballot.proposer == id && inst.ballot.number > 0
    && inst.size == c.q2 && inst.quorum <= c.acceptors
    && inst.proposing.Some? && Accept(i, Current(inst), inst.proposing.value) in net
    && (forall a | a in inst.quorum :: Accepted(a, i, Current(inst), inst.proposing.value) in net)
    && OwnBelow(net, id, i, inst.ballot, inst.epoch + 1)
  }

  /** Instances from `next` on have not been touched by this proposer. */
  ghost predicate Untouched(net: set<Msg>, id: Pid, next: Iid) {
    forall m | m in net && IsOwn(id, m) :: m.iid < next
  }

  ghost predicate ProposerOK(c: Config, net: set<Msg>, p: Proposer) {
    && p.q1 == c.q1 && p.q2 == c.q2
    && p.prepare.Keys !! p.accept.Keys
    && (forall i | i in p.prepare :: i < p.next && PreparingOK(c, net, p.id, i, p.prepare[i]))
    && (forall i | i in p.accept :: i < p.next && AcceptingOK(c, net, p.id, i, p.accept[i]))
    && Untouched(net, p.id, p.next)
    && (forall i | i in p.chosens :: IsDecided(c, net, i))
    && TrimOK(c, net, p.trim)
  }

  ghost predicate OutOK(c: Config, net: set<Msg>, id: Pid, out: Option<Msg>) {
    out.Some? ==>
      && MayAdd(c, net, out.value) && MsgOK(c, net, out.value)
      && !out.value.Promise? && !out.value.Accepted?
      && (out.value.Prepare? || out.value.Accept? || out.value.StandardPrepare? ==> IsOwn(id, out.value))
  }

  ghost predicate StepFine(c: Config, net: set<Msg>, p: Proposer, r: (Proposer, Option<Msg>)) {
    OutOK(c, net, p.id, r.1) && ProposerOK(c, net + ToSet(r.1), r.0)
  }

  lemma SilentFine(c: Config, net: set<Msg>, p: Proposer, p': Proposer)
    requires ProposerOK(c, net, p')
    ensures StepFine(c, net, p, (p', None))
  {
    assert net + {} == net;
  }

  lemma BootOK(c: Config, id: Pid, jump: nat)
    ensures ProposerOK(c, {}, Boot(id, c.q1, c.q2, jump))
  {}

  // ---------------------------------------------------------------- more messages

  lemma TallyGrows(net: set<Msg>, n: Msg, i: Iid, inst: Inst)
    requires Tallied(net, i, inst)
    ensures Tallied(net + {n}, i, inst)
  {
    var rep :| Tally(net, i, inst, rep);
    forall a | a in rep ensures exists lv :: Promise(a, i, Current(inst), rep[a], lv) in net + {n} {
      var lv :| Promise(a, i, Current(inst), rep[a], lv) in net;
      assert Promise(a, i, Current(inst), rep[a], lv) in net + {n};
    }
    assert Tally(net + {n}, i, inst, rep);
  }

  lemma PreparingGrows(c: Config, net: set<Msg>, n: Msg, id: Pid, i: Iid, inst: Inst)
    requires PreparingOK(c, net, id, i, inst) && OwnBelow({n}, id, i, inst.ballot, inst.epoch)
    ensures PreparingOK(c, net + {n}, id, i, inst)
  {
    TallyGrows(net, n, i, inst);
    assert n in {n};
  }

  lemma AcceptingGrows(c: Config, net: set<Msg>, n: Msg, id: Pid, i: Iid, inst: Inst)
    requires AcceptingOK(c, net, id, i, inst) && OwnBelow({n}, id, i, inst.ballot, inst.epoch + 1)
    ensures AcceptingOK(c, net + {n}, id, i, inst)
  {
    assert n in {n};
  }

  /** Whatever does not prepare or propose in this proposer's name, or keeps below its rounds. */
  ghost predicate Harmless(p: Proposer, n: Msg) {
    IsOwn(p.id, n) ==>
      && n.iid < p.next
      && (n.iid in p.prepare ==> OwnBelow({n}, p.id, n.iid, p.prepare[n.iid].ballot, p.prepare[n.iid].epoch))
      && (n.iid in p.accept ==> OwnBelow({n}, p.id, n.iid, p.accept[n.iid].ballot, p.accept[n.iid].epoch + 1))
  }

  lemma Grows(c: Config, net: set<Msg>, p: Proposer, n: Msg)
    requires ProposerOK(c, net, p) && Harmless(p, n)
    ensures ProposerOK(c, net + {n}, p)
  {
    forall i | i in p.prepare ensures PreparingOK(c, net + {n}, p.id, i, p.prepare[i]) {
      PreparingGrows(c, net, n, p.id, i, p.prepare[i]);
    }
    forall i | i in p.accept ensures AcceptingOK(c, net + {n}, p.id, i, p.accept[i]) {
      AcceptingGrows(c, net, n, p.id, i, p.accept[i]);
    }
    forall i | i in p.chosens ensures IsDecided(c, net + {n}, i) { IsDecidedGrows(c, net, net + {n}, i); }
    TrimGrows(c, net, net + {n}, p.trim);
  }

  // ---------------------------------------------------------------- table updates

  lemma SetPreparingOK(c: Config, net: set<Msg>, p: Proposer, i: Iid, inst: Inst, h: nat)
    requires ProposerOK(c, net, p) && i < p.next && i !in p.accept && PreparingOK(c, net, p.id, i, inst)
    ensures ProposerOK(c, net, p.(prepare := p.prepare[i := inst], highestEpoch := h))
  {}

  lemma SetAcceptingOK(c: Config, net: set<Msg>, p: Proposer, i: Iid, inst: Inst)
    requires ProposerOK(c, net, p) && i in p.accept && AcceptingOK(c, net, p.id, i, inst)
    ensures ProposerOK(c, net, p.(accept := p.accept[i := inst]))
  {}

  lemma DropOK(c: Config, net: set<Msg>, p: Proposer, i: Iid)
    requires ProposerOK(c, net, p)
    ensures ProposerOK(c, net, p.(prepare := p.prepare - {i}, accept := p.accept - {i}))
  {}

  lemma NewInstOK(c: Config, net: set<Msg>, id: Pid, i: Iid, b: Ballot, e: nat)
    requires b.proposer == id && b.number > 0 && OwnBelow(net, id, i, b, e)
    ensures PreparingOK(c, net, id, i, NewInst(b, e, c.q1))
  {
    var inst := NewInst(b, e, c.q1);
    assert Reporters(inst, map[]) == {};
    assert Tally(net, i, inst, map[]);
  }

  lemma TrimStepOK(c: Config, net: set<Msg>, p: Proposer, t: Iid)
    requires ProposerOK(c, net, p) && TrimOK(c, net, t)
    ensures ProposerOK(c, net, OnTrim(p, t))
  {}

  lemma ChosenStepOK(c: Config, net: set<Msg>, p: Proposer, i: Iid, r: Round)
    requires ProposerOK(c, net, p) && IsDecided(c, net, i)
    ensures ProposerOK(c, net, OnChosen(p, i, r))
  {
    if i !in p.chosens {
      var p1 := p.(chosens := p.chosens + {i}, maxChosen := Max(i, p.maxChosen),
                   highestEpoch := Max(r.epoch, p.highestEpoch));
      assert ProposerOK(c, net, p1);
      DropOK(c, net, p1, i);
      var p2 := p1.(accept := p.accept - {i}, prepare := p.prepare - {i});
      if SP.MinUnchosen(p2.chosens, p2.trim + 1) >= i {
        forall j | 0 < j <= i ensures IsDecided(c, net, j) {
          assert j <= p.trim || j in p2.chosens;
        }
        TrimStepOK(c, net, p2, i);
      }
    }
  }

  // ---------------------------------------------------------------- starting

  lemma NextOK(c: Config, net: set<Msg>, p: Proposer, n: Iid)
    requires ProposerOK(c, net, p) && n >= p.next
    ensures ProposerOK(c, net, p.(next := n))
  {}

  /** Opening an instance nobody prepared in this proposer's name. */
  lemma OpenOK(c: Config, net: set<Msg>, p: Proposer, i: Iid, inst: Inst)
    requires ProposerOK(c, net, p) && i < p.next && i !in p.prepare && i !in p.accept && Untouched(net, p.id, i)
    requires inst == NewInst(inst.ballot, inst.epoch, c.q1) && inst.ballot.proposer == p.id && inst.ballot.number > 0
    ensures StepFine(c, net, p, (p.(prepare := p.prepare[i := inst]), Some(PrepareMsg(i, inst))))
  {
    var n := PrepareMsg(i, inst);
    Grows(c, net, p, n);
    assert OwnBelow(net + {n}, p.id, i, inst.ballot, inst.epoch);
    NewInstOK(c, net + {n}, p.id, i, inst.ballot, inst.epoch);
    SetPreparingOK(c, net + {n}, p, i, inst, p.highestEpoch);
  }

  lemma StartOK(c: Config, net: set<Msg>, p: Proposer, b: Ballot)
    requires ProposerOK(c, net, p) && b.proposer == p.id && b.number > 0
    ensures StepFine(c, net, p, Preexecute(p, b))
  {
    var (p', out) := Preexecute(p, b);
    var p1 := p.(next := p'.next);
    NextOK(c, net, p, p'.next);
    if out.None? {
      SilentFine(c, net, p, p1);
    } else {
      OpenOK(c, net, p1, p.next, p'.prepare[p.next]);
    }
  }

  // ---------------------------------------------------------------- phase 1

  /** A promise the proposer does not call outdated is for its present ballot. */
  lemma PromiseBallot(c: Config, net: set<Msg>, id: Pid, i: Iid, inst: Inst, m: Msg)
    requires NetInv(c, net) && PreparingOK(c, net, id, i, inst)
    requires m in net && m.Promise? && m.iid == i && m.round.ballot.proposer == id && !IsOutdated(inst, m.round)
    ensures m.round.ballot == inst.ballot
    ensures IsCurrent(inst, m.round) || m.round.epoch > inst.epoch > 0
  {
    assert MsgOK(c, net, m);
    var n := Prepare(i, m.round);
    var n' := StandardPrepare(i, m.round.ballot);
    assert n in net || n' in net;
    assert m.round.ballot.number <= inst.ballot.number;
  }

  /** Fixing or raising the epoch of an empty quorum. */
  lemma AdoptOK(c: Config, net: set<Msg>, id: Pid, i: Iid, inst: Inst, e: nat)
    requires PreparingOK(c, net, id, i, inst) && e > inst.epoch
    ensures PreparingOK(c, net, id, i, AdoptEpoch(inst, e))
  {
    var inst' := AdoptEpoch(inst, e);
    assert Reporters(inst', map[]) == {};
    assert Tally(net, i, inst', map[]);
  }

  lemma FixEpochOK(c: Config, net: set<Msg>, id: Pid, i: Iid, inst: Inst, e: nat)
    requires PreparingOK(c, net, id, i, inst) && e > 0 && (inst.epoch == 0 || e == inst.epoch)
    ensures PreparingOK(c, net, id, i, inst.(epoch := e))
  {
    if inst.epoch == 0 {
      var inst' := inst.(epoch := e);
      var rep :| Tally(net, i, inst, rep);
      assert rep.Keys == {};
      assert Reporters(inst', rep) == Reporters(inst, rep) == {};
      assert Tally(net, i, inst', rep);
    }
  }

  /** The count stays exact when one more promise is counted. */
  lemma TallyCounts(net: set<Msg>, i: Iid, inst: Inst, a: Aid, lr: Round, lv: Value)
    requires Tallied(net, i, inst) && a !in inst.quorum && Promise(a, i, Current(inst), lr, lv) in net
    ensures Tallied(net, i, HandleReport(inst.(quorum := inst.quorum + {a}), lr, lv))
  {
    var rep :| Tally(net, i, inst, rep);
    var inst' := HandleReport(inst.(quorum := inst.quorum + {a}), lr, lv);
    var rep' := rep[a := lr];
    TallySize(inst, inst', rep, a, lr);
    forall x | x in rep' ensures RoundGe(inst'.lastRound, rep'[x]) && exists w ::
        Promise(x, i, Current(inst'), rep'[x], w) in net {
      if x == a {
        assert Promise(x, i, Current(inst'), rep'[x], lv) in net;
      } else {
        var w :| Promise(x, i, Current(inst), rep[x], w) in net;
        assert RoundGe(inst.lastRound, rep[x]);
        assert Promise(x, i, Current(inst'), rep'[x], w) in net;
      }
    }
    assert Tally(net, i, inst', rep');
  }

  lemma TallySize(inst: Inst, inst': Inst, rep: map<Aid, Round>, a: Aid, lr: Round)
    requires a !in rep && inst.same == |Reporters(inst, rep)|
    requires forall x | x in rep :: RoundGe(inst.lastRound, rep[x])
    requires inst'.lastRound == if RoundGt(lr, inst.lastRound) then lr else inst.lastRound
    requires inst'.same == if RoundGt(lr, inst.lastRound) then 1
                           else if lr == inst.lastRound && RoundGt(lr, ZERO) then inst.same + 1 else inst.same
    ensures inst'.same == |Reporters(inst', rep[a := lr])|
  {
    var rep' := rep[a := lr];
    if RoundGt(lr, inst.lastRound) {
      forall x | x in rep ensures rep[x] != lr { assert RoundGe(inst.lastRound, rep[x]); }
      assert Reporters(inst', rep') == {a};
    } else if lr == inst.lastRound && RoundGt(lr, ZERO) {
      assert Reporters(inst', rep') == Reporters(inst, rep) + {a};
    } else {
      assert Reporters(inst', rep') == Reporters(inst, rep);
    }
  }

  lemma CountedOK(c: Config, net: set<Msg>, id: Pid, i: Iid, inst: Inst, m: Msg)
    requires NetInv(c, net) && PreparingOK(c, net, id, i, inst)
    requires m in net && m.Promise? && m.iid == i && inst.epoch > 0 && m.round == Current(inst) && m.aid !in inst.quorum
    ensures PreparingOK(c, net, id, i, HandleReport(inst.(quorum := inst.quorum + {m.aid}), m.lastRound, m.lastValue))
  {
    ReportBelow(c, net, id, i, inst, m);
    HandledOK(c, net, id, i, inst, m);
  }

  /** Counting a promise whose report is in order. */
  lemma HandledOK(c: Config, net: set<Msg>, id: Pid, i: Iid, inst: Inst, m: Msg)
    requires PreparingOK(c, net, id, i, inst) && inst.epoch > 0
    requires m in net && m.Promise? && m.iid == i && m.round == Current(inst) && m.aid in c.acceptors - inst.quorum
    requires RoundGt(Current(inst), m.lastRound) && (m.lastRound == ZERO || Accept(i, m.lastRound, m.lastValue) in net)
    ensures PreparingOK(c, net, id, i, HandleReport(inst.(quorum := inst.quorum + {m.aid}), m.lastRound, m.lastValue))
  {
    assert m == Promise(m.aid, i, Current(inst), m.lastRound, m.lastValue);
    TallyCounts(net, i, inst, m.aid, m.lastRound, m.lastValue);
  }

  /** Nobody can have voted at a round that is still being prepared. */
  lemma ReportBelow(c: Config, net: set<Msg>, id: Pid, i: Iid, inst: Inst, m: Msg)
    requires NetInv(c, net) && PreparingOK(c, net, id, i, inst)
    requires m in net && m.Promise? && m.iid == i && inst.epoch > 0 && m.round == Current(inst)
    ensures m.aid in c.acceptors && RoundGt(Current(inst), m.lastRound)
    ensures m.lastRound == ZERO || Accept(i, m.lastRound, m.lastValue) in net
  {
    assert MsgOK(c, net, m) && ReportsProposed(net);
    NoProposalYet(net, id, i, inst);
    if m.lastRound != ZERO {
      var n := Accept(i, m.lastRound, m.lastValue);
      assert n in net && n.round != Current(inst);
    }
  }

  /** Early detection: a phase 2 quorum of equal reports is a phase 2 quorum of votes. */
  lemma ReportersDecide(c: Config, net: set<Msg>, id: Pid, i: Iid, inst: Inst)
    requires ValidConfig(c) && NetInv(c, net) && PreparingOK(c, net, id, i, inst)
    requires inst.same >= c.q2
    ensures inst.lastValue.Some? && ChosenAt(c, net, i, inst.lastRound, inst.lastValue.value)
  {
    var rep :| Tally(net, i, inst, rep);
    var q := Reporters(inst, rep);
    assert |q| > 0;
    forall a | a in q ensures Accepted(a, i, inst.lastRound, inst.lastValue.value) in net {
      var lv :| Promise(a, i, Current(inst), rep[a], lv) in net;
      ReportIsVote(c, net, Promise(a, i, Current(inst), rep[a], lv), inst.lastValue.value);
    }
    assert ChosenBy(c, net, i, inst.lastRound, inst.lastValue.value, q);
  }

  /** An acceptor that reports a round has voted there, for the one value proposed there. */
  lemma ReportIsVote(c: Config, net: set<Msg>, m: Msg, v: Value)
    requires NetInv(c, net) && m in net && m.Promise? && m.lastRound != ZERO && Accept(m.iid, m.lastRound, v) in net
    ensures Accepted(m.aid, m.iid, m.lastRound, v) in net
  {
    assert MsgOK(c, net, m);
    var n := Accepted(m.aid, m.iid, m.lastRound, m.lastValue);
    assert n in net && Accept(n.iid, n.round, n.value) in net && UniqueProposals(net);
    var n' := Accept(m.iid, m.lastRound, v);
    assert n' in net;
  }

  lemma CountOK(c: Config, net: set<Msg>, p: Proposer, m: Msg)
    requires ValidConfig(c) && NetInv(c, net) && ProposerOK(c, net, p)
    requires m in net && m.Promise? && m.iid in p.prepare && IsCurrent(p.prepare[m.iid], m.round)
    ensures StepFine(c, net, p, Count(p, m.aid, m.iid, m.round, m.lastRound, m.lastValue))
    ensures ProposerOK(c, net, Count(p, m.aid, m.iid, m.round, m.lastRound, m.lastValue).0)
  {
    var i := m.iid;
    var inst := p.prepare[i].(epoch := m.round.epoch);
    assert MsgOK(c, net, m);
    FixEpochOK(c, net, p.id, i, p.prepare[i], m.round.epoch);
    if m.aid in inst.quorum {
      SetPreparingOK(c, net, p, i, inst, p.highestEpoch);
      SilentFine(c, net, p, p.(prepare := p.prepare[i := inst]));
    } else {
      CountedOK(c, net, p.id, i, inst, m);
      var inst' := HandleReport(inst.(quorum := inst.quorum + {m.aid}), m.lastRound, m.lastValue);
      var p' := p.(prepare := p.prepare[i := inst'], highestEpoch := Max(m.round.epoch, p.highestEpoch));
      assert MsgOK(c, net, m);
      SetPreparingOK(c, net, p, i, inst', Max(m.round.epoch, p.highestEpoch));
      CountEnds(c, net, p, p', i, inst');
    }
  }

  /** The count is stored, and acted on if it reveals a chosen value. */
  lemma CountEnds(c: Config, net: set<Msg>, p: Proposer, p': Proposer, i: Iid, inst: Inst)
    requires ValidConfig(c) && NetInv(c, net) && ProposerOK(c, net, p') && PreparingOK(c, net, p.id, i, inst)
    requires p'.id == p.id && p.q2 == c.q2
    ensures var r := if inst.same >= p.q2 && inst.lastValue.Some?
        then (OnChosen(p', i, inst.lastRound), Some(Chosen(i, inst.lastRound, inst.lastValue.value)))
        else (p', None);
      StepFine(c, net, p, r) && ProposerOK(c, net, r.0)
  {
    SilentFine(c, net, p, p');
    if inst.same >= p.q2 {
      ReportersDecide(c, net, p.id, i, inst);
      QuorumStepOK(c, net, p', i, inst.lastRound, inst.lastValue.value);
    }
  }

  /** A chosen round closes the instance and may be announced. */
  lemma QuorumStepOK(c: Config, net: set<Msg>, p: Proposer, i: Iid, r: Round, v: Value)
    requires ProposerOK(c, net, p) && ChosenAt(c, net, i, r, v)
    ensures StepFine(c, net, p, (OnChosen(p, i, r), Some(Chosen(i, r, v))))
    ensures ProposerOK(c, net, OnChosen(p, i, r))
  {
    ChosenIsDecided(c, net, i, r, v);
    ChosenStepOK(c, net, p, i, r);
    Grows(c, net, OnChosen(p, i, r), Chosen(i, r, v));
  }

  lemma PromiseStepOK(c: Config, net: set<Msg>, p: Proposer, m: Msg)
    requires ValidConfig(c) && NetInv(c, net) && ProposerOK(c, net, p)
    requires m in net && m.Promise? && m.round.ballot.proposer == p.id
    ensures StepFine(c, net, p, OnPromise(p, m.aid, m.iid, m.round, m.lastRound, m.lastValue))
  {
    var i := m.iid;
    if i <= p.trim || i in p.chosens || i !in p.prepare || IsOutdated(p.prepare[i], m.round) {
      SilentFine(c, net, p, p);
    } else {
      PromiseBallot(c, net, p.id, i, p.prepare[i], m);
      if IsCurrent(p.prepare[i], m.round) {
        CountOK(c, net, p, m);
      } else {
        AdoptAndCountOK(c, net, p, m);
      }
    }
  }

  /** A promise in a higher epoch. */
  lemma AdoptAndCountOK(c: Config, net: set<Msg>, p: Proposer, m: Msg)
    requires ValidConfig(c) && NetInv(c, net) && ProposerOK(c, net, p)
    requires m in net && m.Promise? && m.round.ballot.proposer == p.id && m.iid in p.prepare
    requires var inst := p.prepare[m.iid]; m.round.ballot == inst.ballot && m.round.epoch > inst.epoch > 0
    ensures var inst := AdoptEpoch(p.prepare[m.iid], m.round.epoch);
      var p' := p.(prepare := p.prepare[m.iid := inst], highestEpoch := Max(m.round.epoch, p.highestEpoch));
      StepFine(c, net, p, (Count(p', m.aid, m.iid, m.round, m.lastRound, m.lastValue).0, Some(Prepare(m.iid, m.round))))
  {
    var i := m.iid;
    var inst := AdoptEpoch(p.prepare[i], m.round.epoch);
    var p' := p.(prepare := p.prepare[i := inst], highestEpoch := Max(m.round.epoch, p.highestEpoch));
    AdoptOK(c, net, p.id, i, p.prepare[i], m.round.epoch);
    SetPreparingOK(c, net, p, i, inst, Max(m.round.epoch, p.highestEpoch));
    CountOK(c, net, p', m);
    CountKeeps(p', m.aid, i, m.round, m.lastRound, m.lastValue);
    FollowOK(c, net, p, Count(p', m.aid, i, m.round, m.lastRound, m.lastValue).0, i, m.round);
  }

  /** Asking the other acceptors to follow into the higher epoch. */
  lemma FollowOK(c: Config, net: set<Msg>, p: Proposer, p': Proposer, i: Iid, r: Round)
    requires ProposerOK(c, net, p') && p'.id == p.id == r.ballot.proposer && i < p'.next && i !in p'.accept
    requires i in p'.prepare ==> p'.prepare[i].ballot == r.ballot
    ensures StepFine(c, net, p, (p', Some(Prepare(i, r))))
  {
    Grows(c, net, p', Prepare(i, r));
  }

  lemma CountKeeps(p: Proposer, a: Aid, i: Iid, r: Round, lr: Round, lv: Value)
    requires i in p.prepare && i !in p.accept
    ensures var p' := Count(p, a, i, r, lr, lv).0;
      && p'.id == p.id && p'.next >= p.next && i !in p'.accept
      && (i in p'.prepare ==> p'.prepare[i].ballot == p.prepare[i].ballot)
  {}

  // ---------------------------------------------------------------- phase 2

  lemma NoProposalYet(net: set<Msg>, id: Pid, i: Iid, inst: Inst)
    requires inst.ballot.proposer == id && OwnBelow(net, id, i, inst.ballot, inst.epoch)
    ensures forall m | m in net && m.Accept? && m.iid == i :: m.round != Current(inst)
  {
    forall m | m in net && m.Accept? && m.iid == i ensures m.round != Current(inst) {
      assert IsOwn(id, m) ==> IsBelow(m, inst.ballot, inst.epoch);
    }
  }

  lemma ProposalIsSafe(c: Config, net: set<Msg>, id: Pid, i: Iid, inst: Inst, v: Value)
    requires PreparingOK(c, net, id, i, inst) && |inst.quorum| >= inst.size
    requires inst.lastValue.Some? ==> v == inst.lastValue.value
    ensures MayAdd(c, net, Accept(i, Current(inst), v))
  {
    var r, top := Current(inst), inst.lastRound;
    var rep :| Tally(net, i, inst, rep);
    forall a | a in inst.quorum ensures Promised(net, a, i, r, top) {
      assert a in rep;
      var lv :| Promise(a, i, r, rep[a], lv) in net;
    }
    assert SafeBy(c, net, i, r, v, inst.quorum, top);
    NoProposalYet(net, id, i, inst);
  }

  /** The record of an instance that has just proposed v. */
  ghost function Proposed(inst: Inst, v: Value, size: nat): Inst {
    inst.(proposing := Some(v), lastValue := None, quorum := {}, size := size)
  }

  lemma ProposedOK(c: Config, net: set<Msg>, id: Pid, i: Iid, inst: Inst, v: Value)
    requires PreparingOK(c, net, id, i, inst)
    ensures AcceptingOK(c, net + {Accept(i, Current(inst), v)}, id, i, Proposed(inst, v, c.q2))
  {
    var n := Accept(i, Current(inst), v);
    forall m | m in net + {n} && IsOwn(id, m) && m.iid == i ensures IsBelow(m, inst.ballot, inst.epoch + 1) {
      assert m in net ==> IsBelow(m, inst.ballot, inst.epoch);
    }
  }

  lemma AddAcceptingOK(c: Config, net: set<Msg>, p: Proposer, i: Iid, inst: Inst)
    requires ProposerOK(c, net, p) && i < p.next && i !in p.prepare && AcceptingOK(c, net, p.id, i, inst)
    ensures ProposerOK(c, net, p.(accept := p.accept[i := inst]))
  {}

  lemma MoveToAccept(c: Config, net: set<Msg>, p: Proposer, i: Iid, v: Value)
    requires ProposerOK(c, net, p) && i in p.prepare
    ensures var inst := p.prepare[i];
      ProposerOK(c, net + {Accept(i, Current(inst), v)},
                 p.(prepare := p.prepare - {i}, accept := p.accept[i := Proposed(inst, v, p.q2)]))
  {
    var inst := p.prepare[i];
    var n := Accept(i, Current(inst), v);
    assert i !in p.accept && p.accept - {i} == p.accept;
    DropOK(c, net, p, i);
    var p1 := p.(prepare := p.prepare - {i});
    ProposedOK(c, net, p.id, i, inst, v);
    Grows(c, net, p1, n);
    AddAcceptingOK(c, net + {n}, p1, i, Proposed(inst, v, p.q2));
  }

  /** A ready instance proposes v, which must be the reported value if there is one. */
  lemma ProposeOK(c: Config, net: set<Msg>, p: Proposer, i: Iid, v: Value)
    requires ProposerOK(c, net, p) && ReadyToAccept(p, i)
    requires p.prepare[i].lastValue.Some? ==> v == p.prepare[i].lastValue.value
    ensures var inst := p.prepare[i];
      StepFine(c, net, p, (p.(prepare := p.prepare - {i}, accept := p.accept[i := Proposed(inst, v, p.q2)]),
                           Some(Accept(i, Current(inst), v))))
  {
    ProposalIsSafe(c, net, p.id, i, p.prepare[i], v);
    MoveToAccept(c, net, p, i, v);
  }

  lemma BeginAcceptOK(c: Config, net: set<Msg>, p: Proposer, i: Iid, client: Option<Value>)
    requires ProposerOK(c, net, p) && ReadyToAccept(p, i)
    ensures StepFine(c, net, p, BeginAccept(p, i, client))
  {
    var reported := p.prepare[i].lastValue;
    if reported.Some? {
      ProposeOK(c, net, p, i, reported.value);
    } else if client.Some? {
      ProposeOK(c, net, p, i, client.value);
    } else {
      SilentFine(c, net, p, p);
    }
  }

  lemma CountedVoteOK(c: Config, net: set<Msg>, id: Pid, i: Iid, inst: Inst, m: Msg)
    requires NetInv(c, net) && AcceptingOK(c, net, id, i, inst)
    requires m in net && m.Accepted? && m.iid == i && m.round == Current(inst)
    ensures m.value == inst.proposing.value
    ensures AcceptingOK(c, net, id, i, inst.(quorum := inst.quorum + {m.aid}))
  {
    var n := Accept(i, m.round, inst.proposing.value);
    assert VotesProposed(c, net) && UniqueProposals(net);
    assert Accept(m.iid, m.round, m.value) in net && n in net;
    assert m == Accepted(m.aid, i, Current(inst), inst.proposing.value);
  }

  /** The vote is counted, and acted on if it completes a quorum. */
  lemma VoteEnds(c: Config, net: set<Msg>, p: Proposer, p': Proposer, i: Iid, inst: Inst)
    requires ProposerOK(c, net, p') && AcceptingOK(c, net, p.id, i, inst) && p'.id == p.id
    ensures var r := if QuorumReached(inst)
        then (OnChosen(p', i, Current(inst)), Some(Chosen(i, Current(inst), inst.proposing.value)))
        else (p', None);
      StepFine(c, net, p, r)
  {
    if QuorumReached(inst) {
      assert ChosenBy(c, net, i, Current(inst), inst.proposing.value, inst.quorum);
      QuorumStepOK(c, net, p', i, Current(inst), inst.proposing.value);
    } else {
      SilentFine(c, net, p, p');
    }
  }

  lemma AcceptedStepOK(c: Config, net: set<Msg>, p: Proposer, m: Msg)
    requires NetInv(c, net) && ProposerOK(c, net, p) && m in net && m.Accepted?
    ensures StepFine(c, net, p, OnAccepted(p, m.aid, m.iid, m.round, m.value))
  {
    var i := m.iid;
    if i > p.trim && i !in p.chosens && i in p.accept && m.round == Current(p.accept[i])
        && m.aid !in p.accept[i].quorum {
      var inst' := p.accept[i].(quorum := p.accept[i].quorum + {m.aid});
      CountedVoteOK(c, net, p.id, i, p.accept[i], m);
      SetAcceptingOK(c, net, p, i, inst');
      VoteEnds(c, net, p, p.(accept := p.accept[i := inst']), i, inst');
    } else {
      SilentFine(c, net, p, p);
    }
  }

  // ---------------------------------------------------------------- preemption

  /** The instance goes back to, or stays in, phase 1 with a prepare for its new round. */
  lemma ReopenOK(c: Config, net: set<Msg>, p: Proposer, i: Iid, inst: Inst, h: nat)
    requires ProposerOK(c, net, p) && i < p.next && PreparingOK(c, net, p.id, i, inst)
    ensures var p' := p.(prepare := p.prepare[i := inst], accept := p.accept - {i}, highestEpoch := h);
      StepFine(c, net, p, (p', Some(Prepare(i, Current(inst)))))
  {
    var n := Prepare(i, Current(inst));
    var p1 := p.(prepare := p.prepare - {i}, accept := p.accept - {i});
    DropOK(c, net, p, i);
    Grows(c, net, p1, n);
    PreparingGrows(c, net, n, p.id, i, inst);
    SetPreparingOK(c, net + {n}, p1, i, inst, h);
    assert p1.prepare[i := inst] == p.prepare[i := inst];
  }

  lemma PreemptPreparingOK(c: Config, net: set<Msg>, id: Pid, i: Iid, inst: Inst, current: Round, b: Ballot)
    requires PreparingOK(c, net, id, i, inst) && Preempts(inst, current)
    requires b.proposer == id && b.number > current.ballot.number
    ensures PreparingOK(c, net, id, i, PreemptPreparing(inst, current, b))
  {
    if BallotGt(current.ballot, inst.ballot) {
      NewInstOK(c, net, id, i, b, current.epoch);
    } else {
      AdoptOK(c, net, id, i, inst, current.epoch);
    }
  }

  lemma PreemptAcceptingOK(c: Config, net: set<Msg>, id: Pid, i: Iid, inst: Inst, current: Round, b: Ballot)
    requires AcceptingOK(c, net, id, i, inst) && Preempts(inst, current)
    requires b.proposer == id && b.number > current.ballot.number
    ensures PreparingOK(c, net, id, i, PreemptAccepting(inst, current, b, c.q1))
  {
    var inst' := PreemptAccepting(inst, current, b, c.q1);
    NewInstOK(c, net, id, i, inst'.ballot, inst'.epoch);
  }

  /** A preemption in phase 1. */
  lemma PreparingPreemptedOK(c: Config, net: set<Msg>, p: Proposer, i: Iid, current: Round, b: Ballot)
    requires ProposerOK(c, net, p) && i in p.prepare && Preempts(p.prepare[i], current)
    requires b.proposer == p.id && b.number > current.ballot.number
    ensures var inst := PreemptPreparing(p.prepare[i], current, b);
      StepFine(c, net, p, (p.(prepare := p.prepare[i := inst], highestEpoch := Max(current.epoch, p.highestEpoch)),
                           Some(Prepare(i, Current(inst)))))
  {
    PreemptPreparingOK(c, net, p.id, i, p.prepare[i], current, b);
    assert p.accept - {i} == p.accept;
    ReopenOK(c, net, p, i, PreemptPreparing(p.prepare[i], current, b), Max(current.epoch, p.highestEpoch));
  }

  /** A preemption in phase 2. */
  lemma AcceptingPreemptedOK(c: Config, net: set<Msg>, p: Proposer, i: Iid, current: Round, b: Ballot)
    requires ProposerOK(c, net, p) && i in p.accept && Preempts(p.accept[i], current)
    requires b.proposer == p.id && b.number > current.ballot.number
    ensures var inst := PreemptAccepting(p.accept[i], current, b, p.q1);
      StepFine(c, net, p, (p.(accept := p.accept - {i}, prepare := p.prepare[i := inst],
                              highestEpoch := Max(current.epoch, p.highestEpoch)),
                           Some(Prepare(i, Current(inst)))))
  {
    PreemptAcceptingOK(c, net, p.id, i, p.accept[i], current, b);
    ReopenOK(c, net, p, i, PreemptAccepting(p.accept[i], current, b, p.q1), Max(current.epoch, p.highestEpoch));
  }

  lemma PreemptedStepOK(c: Config, net: set<Msg>, p: Proposer, i: Iid, attempted: Round, current: Round, b: Ballot)
    requires ProposerOK(c, net, p) && b.proposer == p.id && b.number > current.ballot.number
    ensures StepFine(c, net, p, OnPreempted(p, i, attempted, current, b))
  {
    if i <= p.trim || i in p.chosens {
      SilentFine(c, net, p, p);
    } else if i in p.prepare && IsCurrent(p.prepare[i], attempted) && Preempts(p.prepare[i], current) {
      PreparingPreemptedOK(c, net, p, i, current, b);
    } else if i in p.accept && attempted == Current(p.accept[i]) && Preempts(p.accept[i], current) {
      AcceptingPreemptedOK(c, net, p, i, current, b);
    } else {
      SilentFine(c, net, p, p);
    }
  }

  // ---------------------------------------------------------------- every step

  lemma ResendPrepareOK(c: Config, net: set<Msg>, p: Proposer, i: Iid)
    requires ProposerOK(c, net, p) && i in p.prepare
    ensures StepFine(c, net, p, (p, Some(PrepareMsg(i, p.prepare[i]))))
  {
    var n := PrepareMsg(i, p.prepare[i]);
    assert i !in p.accept && IsOwn(p.id, n);
    Grows(c, net, p, n);
  }

  lemma ResendAcceptOK(c: Config, net: set<Msg>, p: Proposer, n: Msg)
    requires NetInv(c, net) && ProposerOK(c, net, p) && n in net && n.Accept? && n.round.ballot.proposer == p.id
    ensures StepFine(c, net, p, (p, Some(n)))
  {
    assert net + {n} == net;
    assert SafeProposals(c, net) && UniqueProposals(net);
  }

  lemma ResendOK(c: Config, net: set<Msg>, p: Proposer, i: Iid)
    requires NetInv(c, net) && ProposerOK(c, net, p)
    ensures StepFine(c, net, p, (p, Resend(p, i)))
  {
    if i in p.prepare && !QuorumReached(p.prepare[i]) {
      ResendPrepareOK(c, net, p, i);
    } else if i in p.accept {
      ResendAcceptOK(c, net, p, Accept(i, Current(p.accept[i]), p.accept[i].proposing.value));
    } else {
      SilentFine(c, net, p, p);
    }
  }

  lemma ChosenMsgOK(c: Config, net: set<Msg>, p: Proposer, m: Msg)
    requires NetInv(c, net) && ProposerOK(c, net, p) && m in net && (m.Chosen? || m.Trim?)
    ensures ProposerOK(c, net, if m.Chosen? then OnChosen(p, m.iid, m.round) else OnTrim(p, m.iid))
  {
    assert MsgOK(c, net, m);
    if m.Chosen? {
      ChosenIsDecided(c, net, m.iid, m.round, m.value);
      ChosenStepOK(c, net, p, m.iid, m.round);
    } else {
      TrimStepOK(c, net, p, m.iid);
    }
  }

  lemma StepOK(c: Config, net: set<Msg>, p: Proposer, m: Msg, b: Ballot)
    requires ValidConfig(c) && NetInv(c, net) && ProposerOK(c, net, p)
    requires m in net && b.proposer == p.id && (m.Preempted? ==> b.number > m.current.ballot.number)
    ensures StepFine(c, net, p, Step(p, m, b))
  {
    SilentFine(c, net, p, p);
    match m
    case Promise(_, _, r, _, _) => if r.ballot.proposer == p.id { PromiseStepOK(c, net, p, m); }
    case Accepted(_, _, r, _) => if r.ballot.proposer == p.id { AcceptedStepOK(c, net, p, m); }
    case Preempted(_, i, attempted, current) =>
      if attempted.ballot.proposer == p.id { PreemptedStepOK(c, net, p, i, attempted, current, b); }
    case Chosen(i, r, _) => ChosenMsgOK(c, net, p, m); SilentFine(c, net, p, OnChosen(p, i, r));
    case Trim(t) => ChosenMsgOK(c, net, p, m); SilentFine(c, net, p, OnTrim(p, t));
    case NewEpoch(e) => SilentFine(c, net, p, p.(highestEpoch := Max(e, p.highestEpoch)));
    case _ =>
  }

  lemma StepKeepsId(p: Proposer, m: Msg, b: Ballot)
    ensures Step(p, m, b).0.id == p.id
  {}
}
