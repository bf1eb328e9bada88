/** The standard proposer proposes at most one value per ballot, and only a safe one. */
module StandardProposerProof {
  import opened Types
  import opened Voting
  import opened ClassicNet
  import opened StandardProposer

  /** Nothing this proposer prepared or proposed for the instance lies above its present ballot;
      in the prepare phase nothing was proposed at the present ballot either. */
  ghost predicate OwnBelow(net: set<Msg>, id: Pid, i: Iid, b: Ballot, preparing: bool) {
    forall m | m in net && (m.Prepare? || m.Accept?) && m.iid == i && m.round.ballot.proposer == id ::
      if m.Accept? && preparing then m.round.ballot.number < b.number else m.round.ballot.number <= b.number
  }

  /** The value to propose is the one reported with the highest ballot by the quorum. */
  ghost predicate Reported(net: set<Msg>, i: Iid, inst: Inst) {
    inst.lastValue.Some? ==>
      && Accept(i, Classic(inst.lastBallot), inst.lastValue.value) in net
      && exists a ::
        a in inst.quorum && Promise(a, i, Classic(inst.ballot), Classic(inst.lastBallot), inst.lastValue.value) in net
  }

  ghost predicate PreparingOK(c: Config, net: set<Msg>, id: Pid, i: Iid, inst: Inst) {
    && inst.ballot.proposer == id && inst.ballot.number > 0
    && inst.size >= c.q1
    && inst.quorum <= c.acceptors
    && (forall a | a in inst.quorum :: Promised(net, a, i, Classic(inst.ballot), Classic(inst.lastBallot)))
    && (inst.lastValue.None? ==> inst.lastBallot == INVALID_BALLOT)
    && Reported(net, i, inst)
    && OwnBelow(net, id, i, inst.ballot, true)
  }

  ghost predicate AcceptingOK(c: Config, net: set<Msg>, id: Pid, i: Iid, inst: Inst) {
    && inst.ballot.proposer == id && inst.ballot.number > 0
    && inst.size == c.q2
    && inst.quorum <= c.acceptors
    && inst.proposing.Some? && Accept(i, Classic(inst.ballot), inst.proposing.value) in net
    && (forall a | a in inst.quorum :: Accepted(a, i, Classic(inst.ballot), inst.proposing.value) in net)
    && OwnBelow(net, id, i, inst.ballot, false)
  }

  ghost predicate ProposerOK(c: Config, net: set<Msg>, p: Proposer) {
    && p.q1 >= c.q1 && p.q2 == c.q2
    && p.prepare.Keys !! p.accept.Keys
    && (forall i | i in p.prepare :: i < p.next && PreparingOK(c, net, p.id, i, p.prepare[i]))
    && (forall i | i in p.accept :: i < p.next && AcceptingOK(c, net, p.id, i, p.accept[i]))
    && (forall m | m in net && (m.Prepare? || m.Accept?) && m.round.ballot.proposer == p.id :: m.iid < p.next)
    && (forall i | i in p.chosens :: IsDecided(c, net, i))
    && TrimOK(c, net, p.trim)
  }

  ghost predicate OutOK(c: Config, net: set<Msg>, id: Pid, out: Option<Msg>) {
    out.Some? ==>
      && MayAdd(c, net, out.value) && MsgOK(c, net, out.value)
      && !out.value.Promise? && !out.value.Accepted?
      && (out.value.Prepare? || out.value.Accept? ==> out.value.round.ballot.proposer == id)
      && (out.value.Accept? && out.value !in net ==>
            HighestReported(c, net, out.value.iid, out.value.round, out.value.value))
  }

  lemma BootOK(c: Config, id: Pid, q1: nat, jump: nat)
    requires q1 >= c.q1
    ensures ProposerOK(c, {}, Boot(id, q1, c.q2, jump))
  {}

  lemma PromisedGrows(net: set<Msg>, n: Msg, a: Aid, i: Iid, r: Round, top: Round)
    requires Promised(net, a, i, r, top)
    ensures Promised(net + {n}, a, i, r, top)
  {
    var lr, lv :| Promise(a, i, r, lr, lv) in net && RoundGe(top, lr);
    assert Promise(a, i, r, lr, lv) in net + {n};
  }

  lemma ReportedGrows(net: set<Msg>, n: Msg, i: Iid, inst: Inst)
    requires Reported(net, i, inst)
    ensures Reported(net + {n}, i, inst)
  {
    if inst.lastValue.Some? {
      var a :| a in inst.quorum
        && Promise(a, i, Classic(inst.ballot), Classic(inst.lastBallot), inst.lastValue.value) in net;
      assert Promise(a, i, Classic(inst.ballot), Classic(inst.lastBallot), inst.lastValue.value) in net + {n};
    }
  }

  /** A message that keeps below the instance's ballot changes nothing about it. */
  lemma PreparingGrows(c: Config, net: set<Msg>, n: Msg, id: Pid, i: Iid, inst: Inst)
    requires PreparingOK(c, net, id, i, inst) && OwnBelow({n}, id, i, inst.ballot, true)
    ensures PreparingOK(c, net + {n}, id, i, inst)
  {
    forall a | a in inst.quorum ensures Promised(net + {n}, a, i, Classic(inst.ballot), Classic(inst.lastBallot)) {
      PromisedGrows(net, n, a, i, Classic(inst.ballot), Classic(inst.lastBallot));
    }
    ReportedGrows(net, n, i, inst);
    assert n in {n};
  }

  lemma AcceptingGrows(c: Config, net: set<Msg>, n: Msg, id: Pid, i: Iid, inst: Inst)
    requires AcceptingOK(c, net, id, i, inst) && OwnBelow({n}, id, i, inst.ballot, false)
    ensures AcceptingOK(c, net + {n}, id, i, inst)
  {
    assert n in {n};
  }

  /** Whatever does not prepare or propose in this proposer's name, or stays below its ballots. */
  ghost predicate Harmless(p: Proposer, n: Msg) {
    (n.Prepare? || n.Accept?) && n.round.ballot.proposer == p.id ==>
      && n.iid < p.next
      && (n.iid in p.prepare ==> OwnBelow({n}, p.id, n.iid, p.prepare[n.iid].ballot, true))
      && (n.iid in p.accept ==> OwnBelow({n}, p.id, n.iid, p.accept[n.iid].ballot, false))
  }

  lemma Grows(c: Config, net: set<Msg>, p: Proposer, n: Msg)
    requires ProposerOK(c, net, p) && Harmless(p, n)
    ensures ProposerOK(c, net + {n}, p)
  {
    forall i | i in p.prepare ensures PreparingOK(c, net + {n}, p.id, i, p.prepare[i]) {
      PreparingGrows(c, net, n, p.id, i, p.prepare[i]);
    }
    forall i | i in p.accept ensures AcceptingOK(c, net + {n}, p.id, i, p.accept[i]) {
      AcceptingGrows(c, net, n, p.id, i, p.accept[i]);
    }
    forall i | i in p.chosens ensures IsDecided(c, net + {n}, i) { IsDecidedGrows(c, net, net + {n}, i); }
    TrimGrows(c, net, net + {n}, p.trim);
  }

  // ---------------------------------------------------------------- starting and proposing

  lemma StartOK(c: Config, net: set<Msg>, p: Proposer, b: Ballot)
    requires ProposerOK(c, net, p) && b.proposer == p.id && b.number > 0
    ensures var (p', out) := Preexecute(p, b); OutOK(c, net, p.id, out) && ProposerOK(c, net + ToSet(out), p')
  {
    var i := p.next;
    var (p', out) := Preexecute(p, b);
    var n := Prepare(i, Classic(b));
    assert i !in p.prepare && out == Some(n);
    var p1 := p.(next := p'.next);
    Grows(c, net, p1, n);
    assert PreparingOK(c, net + {n}, p.id, i, NewInst(b, p.q1));
  }

  lemma ProposalIsSafe(c: Config, net: set<Msg>, id: Pid, i: Iid, inst: Inst, v: Value)
    requires NetInv(c, net) && PreparingOK(c, net, id, i, inst) && |inst.quorum| >= inst.size
    requires inst.lastValue.Some? ==> v == inst.lastValue.value
    ensures MayAdd(c, net, Accept(i, Classic(inst.ballot), v))
    ensures HighestReported(c, net, i, Classic(inst.ballot), v)
  {
    var r, top := Classic(inst.ballot), Classic(inst.lastBallot);
    if inst.lastValue.Some? {
      var a :| a in inst.quorum && Promise(a, i, r, top, inst.lastValue.value) in net;
      assert MsgOK(c, net, Promise(a, i, r, top, inst.lastValue.value));
      var m := Accept(i, top, v);
      assert m in net && m.iid == i;
      assert RoundGt(r, top);
    }
    assert SafeBy(c, net, i, r, v, inst.quorum, top);
    assert HighestBy(c, net, i, r, v, inst.quorum, top);
    assert forall m | m in net && m.Accept? && m.iid == i :: m.round != r;
  }

  /** The instance moves to the accept table together with the proposal it sends. */
  lemma MoveToAccept(c: Config, net: set<Msg>, p: Proposer, i: Iid, v: Value)
    requires ProposerOK(c, net, p) && i in p.prepare
    ensures var inst := p.prepare[i].(proposing := Some(v), lastValue := None, quorum := {}, size := p.q2);
      ProposerOK(c, net + {Accept(i, Classic(inst.ballot), v)},
                 p.(prepare := p.prepare - {i}, accept := p.accept[i := inst]))
  {
    var inst := p.prepare[i].(proposing := Some(v), lastValue := None, quorum := {}, size := p.q2);
    var n := Accept(i, Classic(inst.ballot), v);
    var p1 := p.(prepare := p.prepare - {i});
    Grows(c, net, p1, n);
    assert OwnBelow(net, p.id, i, inst.ballot, true);
    assert AcceptingOK(c, net + {n}, p.id, i, inst);
    assert i !in p.accept;
  }

  lemma BeginAcceptOK(c: Config, net: set<Msg>, p: Proposer, i: Iid, client: Option<Value>)
    requires NetInv(c, net) && ProposerOK(c, net, p) && ReadyToAccept(p, i)
    ensures var (p', out) := BeginAccept(p, i, client);
      OutOK(c, net, p.id, out) && ProposerOK(c, net + ToSet(out), p')
  {
    var inst := p.prepare[i];
    var (p', out) := BeginAccept(p, i, client);
    assert net + {} == net;
    if out.Some? {
      var n := out.value;
      ProposalIsSafe(c, net, p.id, i, inst, n.value);
      MoveToAccept(c, net, p, i, n.value);
    }
  }

  lemma ResendOK(c: Config, net: set<Msg>, p: Proposer, i: Iid)
    requires NetInv(c, net) && ProposerOK(c, net, p)
    ensures OutOK(c, net, p.id, Resend(p, i)) && ProposerOK(c, net + ToSet(Resend(p, i)), p)
  {
    var out := Resend(p, i);
    assert net + {} == net;
    if out.Some? {
      var n := out.value;
      if n.Accept? {
        assert net + {n} == net && MsgOK(c, net, n);
        assert SafeProposals(c, net) && UniqueProposals(net);
      } else {
        Grows(c, net, p, n);
      }
    }
  }

  // ---------------------------------------------------------------- receiving

  lemma TrimStepOK(c: Config, net: set<Msg>, p: Proposer, t: Iid)
    requires ProposerOK(c, net, p) && TrimOK(c, net, t)
    ensures ProposerOK(c, net, OnTrim(p, t))
  {}

  lemma ChosenStepOK(c: Config, net: set<Msg>, p: Proposer, i: Iid)
    requires ProposerOK(c, net, p) && IsDecided(c, net, i)
    ensures ProposerOK(c, net, OnChosen(p, i))
  {
    if i !in p.chosens {
      var p' := p.(chosens := p.chosens + {i}, maxChosen := if p.maxChosen < i then i else p.maxChosen,
                   accept := p.accept - {i}, prepare := p.prepare - {i});
      assert ProposerOK(c, net, p');
      if MinUnchosen(p'.chosens, p'.trim + 1) >= i {
        forall j | 0 < j <= i ensures IsDecided(c, net, j) {
          assert j <= p.trim || j in p'.chosens;
        }
        TrimStepOK(c, net, p', i);
      }
    }
  }

  lemma PromiseStepOK(c: Config, net: set<Msg>, p: Proposer, m: Msg)
    requires NetInv(c, net) && ProposerOK(c, net, p)
    requires m in net && m.Promise? && m.round.ballot.proposer == p.id
    ensures ProposerOK(c, net, OnPromise(p, m.aid, m.iid, m.round.ballot, m.lastRound.ballot, m.lastValue))
  {
    var i, a, b := m.iid, m.aid, m.round.ballot;
    var p' := OnPromise(p, a, i, b, m.lastRound.ballot, m.lastValue);
    if p' != p {
      var inst, inst' := p.prepare[i], p'.prepare[i];
      assert MsgOK(c, net, m);
      var n := Prepare(i, m.round);
      assert n in net && n.iid == i && n.round.ballot.proposer == p.id;
      assert m == Promise(a, i, Classic(inst.ballot), Classic(m.lastRound.ballot), m.lastValue);
      CountedOK(c, net, p.id, i, inst, m);
    }
  }

  /** Counting one more promise for the present ballot. */
  lemma CountedOK(c: Config, net: set<Msg>, id: Pid, i: Iid, inst: Inst, m: Msg)
    requires NetInv(c, net) && PreparingOK(c, net, id, i, inst)
    requires m in net && m.Promise? && m.iid == i && m.round == Classic(inst.ballot) && m.lastRound.epoch == 0
    ensures PreparingOK(c, net, id, i,
      HandleReport(inst.(quorum := inst.quorum + {m.aid}), m.lastRound.ballot, m.lastValue))
  {
    var inst' := HandleReport(inst.(quorum := inst.quorum + {m.aid}), m.lastRound.ballot, m.lastValue);
    assert MsgOK(c, net, m);
    forall a | a in inst'.quorum ensures Promised(net, a, i, Classic(inst'.ballot), Classic(inst'.lastBallot)) {
      if a == m.aid {
        assert Promise(a, i, m.round, m.lastRound, m.lastValue) in net;
      } else {
        assert Promised(net, a, i, Classic(inst.ballot), Classic(inst.lastBallot));
        var lr, lv :| Promise(a, i, Classic(inst.ballot), lr, lv) in net && RoundGe(Classic(inst.lastBallot), lr);
        assert RoundGe(Classic(inst'.lastBallot), lr);
      }
    }
    assert ReportsProposed(net);
    if BallotGt(m.lastRound.ballot, inst.lastBallot) {
      assert m == Promise(m.aid, i, Classic(inst'.ballot), Classic(inst'.lastBallot), inst'.lastValue.value);
    } else if inst.lastValue.Some? {
      var a :| a in inst.quorum
        && Promise(a, i, Classic(inst.ballot), Classic(inst.lastBallot), inst.lastValue.value) in net;
      assert a in inst'.quorum;
    }
  }

  /** Counting one more acceptance of the proposed value. */
  lemma CountedVoteOK(c: Config, net: set<Msg>, id: Pid, i: Iid, inst: Inst, m: Msg)
    requires NetInv(c, net) && AcceptingOK(c, net, id, i, inst)
    requires m in net && m.Accepted? && m.iid == i && m.round.ballot == inst.ballot
    ensures m == Accepted(m.aid, i, Classic(inst.ballot), inst.proposing.value)
    ensures AcceptingOK(c, net, id, i, inst.(quorum := inst.quorum + {m.aid}))
  {
    assert MsgOK(c, net, m) && m.round == Classic(inst.ballot);
    var n := Accept(i, m.round, inst.proposing.value);
    assert VotesProposed(c, net) && UniqueProposals(net);
    assert Accept(m.iid, m.round, m.value) in net && n in net;
  }

  lemma SetAcceptingOK(c: Config, net: set<Msg>, p: Proposer, i: Iid, inst: Inst)
    requires ProposerOK(c, net, p) && i in p.accept && AcceptingOK(c, net, p.id, i, inst)
    ensures ProposerOK(c, net, p.(accept := p.accept[i := inst]))
  {}

  lemma SetPreparingOK(c: Config, net: set<Msg>, p: Proposer, i: Iid, inst: Inst)
    requires ProposerOK(c, net, p) && i < p.next && i !in p.accept && PreparingOK(c, net, p.id, i, inst)
    ensures ProposerOK(c, net, p.(prepare := p.prepare[i := inst]))
  {}

  /** An acceptance quorum closes the instance and may be announced. */
  lemma QuorumStepOK(c: Config, net: set<Msg>, p: Proposer, i: Iid, b: Ballot, v: Value, q: set<Aid>)
    requires ValidConfig(c) && NetInv(c, net) && ProposerOK(c, net, p)
    requires ChosenBy(c, net, i, Classic(b), v, q)
    ensures OutOK(c, net, p.id, Some(Chosen(i, Classic(b), v)))
    ensures ProposerOK(c, net + {Chosen(i, Classic(b), v)}, OnChosen(p, i))
  {
    QuorumIsChosenOK(c, net, i, Classic(b), v, q);
    ChosenStepOK(c, net, p, i);
    Grows(c, net, OnChosen(p, i), Chosen(i, Classic(b), v));
  }

  lemma AcceptedStepOK(c: Config, net: set<Msg>, p: Proposer, m: Msg)
    requires ValidConfig(c) && NetInv(c, net) && ProposerOK(c, net, p)
    requires m in net && m.Accepted? && m.round.ballot.proposer == p.id
    ensures StepFine(c, net, p, OnAccepted(p, m.aid, m.iid, m.round.ballot, m.value))
  {
    var i, a, b := m.iid, m.aid, m.round.ballot;
    if i > p.trim && i !in p.chosens && i in p.accept && p.accept[i].ballot == b && a !in p.accept[i].quorum {
      var inst := p.accept[i];
      var inst' := inst.(quorum := inst.quorum + {a});
      CountedVoteOK(c, net, p.id, i, inst, m);
      SetAcceptingOK(c, net, p, i, inst');
      if QuorumReached(inst') {
        QuorumStepOK(c, net, p.(accept := p.accept[i := inst']), i, b, m.value, inst'.quorum);
      } else {
        SilentFine(c, net, p, p.(accept := p.accept[i := inst']));
      }
    } else {
      SilentFine(c, net, p, p);
    }
  }

  /** Dropping instances from the tables is always fine. */
  lemma DropOK(c: Config, net: set<Msg>, p: Proposer, i: Iid)
    requires ProposerOK(c, net, p)
    ensures ProposerOK(c, net, p.(prepare := p.prepare - {i}, accept := p.accept - {i}))
  {}

  /** Opening the instance again at a ballot above everything this proposer used for it. */
  lemma ReopenOK(c: Config, net: set<Msg>, p: Proposer, i: Iid, b: Ballot, size: nat)
    requires ProposerOK(c, net, p) && i < p.next && i !in p.accept && i !in p.prepare && size >= c.q1
    requires b.proposer == p.id && b.number > 0 && OwnBelow(net, p.id, i, b, true)
    ensures ProposerOK(c, net + {Prepare(i, Classic(b))}, p.(prepare := p.prepare[i := NewInst(b, size)]))
  {
    var n := Prepare(i, Classic(b));
    Grows(c, net, p, n);
    assert OwnBelow(net + {n}, p.id, i, b, true);
    SetPreparingOK(c, net + {n}, p, i, NewInst(b, size));
  }

  /** Back to phase 1 with any quorum size that is large enough. */
  lemma PreemptedToOK(c: Config, net: set<Msg>, p: Proposer, i: Iid, attempted: Ballot, b: Ballot, size: nat)
    requires ProposerOK(c, net, p) && b.proposer == p.id && b.number > attempted.number && size >= c.q1
    ensures StepFine(c, net, p, OnPreemptedTo(p, i, attempted, b, size))
  {
    var (p', out) := OnPreemptedTo(p, i, attempted, b, size);
    assert net + {} == net;
    if out.Some? {
      var p1 := p.(prepare := p.prepare - {i}, accept := p.accept - {i});
      DropOK(c, net, p, i);
      assert OwnBelow(net, p.id, i, attempted, false);
      assert OwnBelow(net, p.id, i, b, true);
      ReopenOK(c, net, p1, i, b, if i in p.accept then size else p.prepare[i].size);
      SamePreempted(p, i, attempted, b, size);
    }
  }

  lemma PreemptedStepOK(c: Config, net: set<Msg>, p: Proposer, i: Iid, attempted: Ballot, b: Ballot)
    requires ProposerOK(c, net, p) && b.proposer == p.id && b.number > attempted.number
    ensures StepFine(c, net, p, OnPreempted(p, i, attempted, b))
  {
    PreemptedToOK(c, net, p, i, attempted, b, p.q1);
  }

  lemma SamePreempted(p: Proposer, i: Iid, attempted: Ballot, b: Ballot, size: nat)
    requires p.prepare.Keys !! p.accept.Keys && OnPreemptedTo(p, i, attempted, b, size).1.Some?
    ensures var p1 := p.(prepare := p.prepare - {i}, accept := p.accept - {i});
      var inst := NewInst(b, if i in p.accept then size else p.prepare[i].size);
      OnPreemptedTo(p, i, attempted, b, size) == (p1.(prepare := p1.prepare[i := inst]), Some(Prepare(i, Classic(b))))
  {
    if i in p.accept {
      assert p.prepare - {i} == p.prepare;
    } else {
      var inst := NewInst(b, p.prepare[i].size);
      assert p.accept - {i} == p.accept;
      assert (p.prepare - {i})[i := inst] == p.prepare[i := inst];
    }
  }

  /** One step is fine: what is sent may be sent, and the proposer stays in order. */
  ghost predicate StepFine(c: Config, net: set<Msg>, p: Proposer, r: (Proposer, Option<Msg>)) {
    OutOK(c, net, p.id, r.1) && ProposerOK(c, net + ToSet(r.1), r.0)
  }

  lemma SilentFine(c: Config, net: set<Msg>, p: Proposer, p': Proposer)
    requires ProposerOK(c, net, p')
    ensures StepFine(c, net, p, (p', None))
  {
    assert net + {} == net;
  }

  lemma PreemptedMsgOK(c: Config, net: set<Msg>, p: Proposer, m: Msg, b: Ballot)
    requires NetInv(c, net) && ProposerOK(c, net, p)
    requires m in net && m.Preempted? && b.proposer == p.id && b.number > m.current.ballot.number
    ensures StepFine(c, net, p, OnPreempted(p, m.iid, m.attempted.ballot, b))
  {
    assert MsgOK(c, net, m);
    PreemptedStepOK(c, net, p, m.iid, m.attempted.ballot, b);
  }

  lemma ChosenMsgOK(c: Config, net: set<Msg>, p: Proposer, m: Msg)
    requires NetInv(c, net) && ProposerOK(c, net, p) && m in net && (m.Chosen? || m.Trim?)
    ensures ProposerOK(c, net, if m.Chosen? then OnChosen(p, m.iid) else OnTrim(p, m.iid))
  {
    assert MsgOK(c, net, m);
    if m.Chosen? {
      ChosenOKIsDecided(c, net, m.iid, m.round, m.value);
      ChosenStepOK(c, net, p, m.iid);
    } else {
      TrimStepOK(c, net, p, m.iid);
    }
  }

  lemma StepOK(c: Config, net: set<Msg>, p: Proposer, m: Msg, b: Ballot)
    requires ValidConfig(c) && NetInv(c, net) && ProposerOK(c, net, p)
    requires m in net && b.proposer == p.id && (m.Preempted? ==> b.number > m.current.ballot.number)
    ensures StepFine(c, net, p, Step(p, m, b))
  {
    SilentFine(c, net, p, p);
    match m
    case Promise(a, i, r, lr, lv) =>
      if r.ballot.proposer == p.id {
        PromiseStepOK(c, net, p, m);
        SilentFine(c, net, p, OnPromise(p, a, i, r.ballot, lr.ballot, lv));
      }
    case Accepted(_, _, r, _) => if r.ballot.proposer == p.id { AcceptedStepOK(c, net, p, m); }
    case Preempted(_, _, attempted, _) => if attempted.ballot.proposer == p.id { PreemptedMsgOK(c, net, p, m, b); }
    case Chosen(i, _, _) => ChosenMsgOK(c, net, p, m); SilentFine(c, net, p, OnChosen(p, i));
    case Trim(t) => ChosenMsgOK(c, net, p, m); SilentFine(c, net, p, OnTrim(p, t));
    case _ =>
  }

  lemma StepKeepsId(p: Proposer, m: Msg, b: Ballot)
    ensures Step(p, m, b).0.id == p.id
  {}
}
