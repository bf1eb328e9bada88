/** The learner delivers the decided values of instances 1, 2, 3, ... in order, once each. */
module LearnerProof {
  import opened Types
  import opened Voting
  import opened ClassicNet
  import opened Learner

  ghost predicate InstOK(c: Config, net: set<Msg>, i: Iid, inst: Inst) {
    if inst.chosen then Decided(c, net, i, inst.value)
    else
      && (forall a | a in inst.quorum :: Accepted(a, i, Classic(inst.ballot), inst.value) in net)
      && inst.quorum <= c.acceptors
      && (inst.quorum == {} ==> inst.ballot == INVALID_BALLOT)
  }

  /** delivered[k] is the decision of instance k + 1. */
  ghost predicate DeliveredOK(c: Config, net: set<Msg>, delivered: seq<Value>) {
    forall k | 0 <= k < |delivered| :: Decided(c, net, k + 1, delivered[k])
  }

  ghost predicate LearnerOK(c: Config, net: set<Msg>, l: Learner) {
    && l.q2 == c.q2
    && l.min == |l.delivered| + 1
    && DeliveredOK(c, net, l.delivered)
    && (forall i | i in l.instances :: InstOK(c, net, i, l.instances[i]))
    && TrimOK(c, net, l.trim)
  }

  lemma Grows(c: Config, net: set<Msg>, l: Learner, n: Msg)
    requires LearnerOK(c, net, l)
    ensures LearnerOK(c, net + {n}, l)
  {
    forall k | 0 <= k < |l.delivered| ensures Decided(c, net + {n}, k + 1, l.delivered[k]) {
      DecidedGrows(c, net, net + {n}, k + 1, l.delivered[k]);
    }
    forall i | i in l.instances ensures InstOK(c, net + {n}, i, l.instances[i]) {
      if l.instances[i].chosen { DecidedGrows(c, net, net + {n}, i, l.instances[i].value); }
    }
    TrimGrows(c, net, net + {n}, l.trim);
  }

  /** What the rest of the system needs of a learner's announcement. */
  ghost predicate OutOK(c: Config, net: set<Msg>, out: Option<Msg>) {
    out.Some? ==> MsgOK(c, net, out.value) && (out.value.Chosen? || out.value.Trim?)
  }

  lemma GetInstOK(c: Config, net: set<Msg>, l: Learner, i: Iid)
    requires LearnerOK(c, net, l)
    ensures InstOK(c, net, i, GetInst(l, i))
  {}

  /** Counting a vote at the highest ballot seen. */
  lemma CountOK(c: Config, net: set<Msg>, inst: Inst, m: Msg)
    requires NetInv(c, net) && m in net && m.Accepted?
    requires InstOK(c, net, m.iid, inst) && !inst.chosen && !BallotGt(inst.ballot, m.round.ballot)
    ensures var inst' := NewBallot(inst, m.round.ballot, m.value);
      && inst'.value == m.value
      && m.round == Classic(inst'.ballot)
      && InstOK(c, net, m.iid, inst'.(quorum := inst'.quorum + {m.aid}))
      && (m.aid in inst'.quorum ==> inst' == inst)
  {
    var inst' := NewBallot(inst, m.round.ballot, m.value);
    assert MsgOK(c, net, m) && VotesProposed(c, net) && UniqueProposals(net);
    assert Accept(m.iid, m.round, m.value) in net;
    ProposalsAboveZero(c, net, m.iid, m.round, m.value);
    if a :| a in inst'.quorum {
      var n := Accepted(a, m.iid, m.round, inst'.value);
      assert n in net && Accept(n.iid, n.round, n.value) in net;
    }
  }

  /** A quorum at one ballot marks the instance chosen and is announced. */
  lemma QuorumStepOK(c: Config, net: set<Msg>, l: Learner, i: Iid, inst: Inst, r: Round)
    requires ValidConfig(c) && NetInv(c, net) && LearnerOK(c, net, l)
    requires InstOK(c, net, i, inst) && !inst.chosen && |inst.quorum| >= l.q2 && r == Classic(inst.ballot)
    ensures OutOK(c, net, Some(Chosen(i, r, inst.value)))
    ensures LearnerOK(c, net + {Chosen(i, r, inst.value)}, MarkChosen(PutInst(l, i, inst.(chosen := true)), i))
  {
    assert ChosenBy(c, net, i, r, inst.value, inst.quorum);
    QuorumIsChosenOK(c, net, i, r, inst.value, inst.quorum);
    Grows(c, net, MarkChosen(PutInst(l, i, inst.(chosen := true)), i), Chosen(i, r, inst.value));
  }

  lemma PutInstOK(c: Config, net: set<Msg>, l: Learner, i: Iid, inst: Inst)
    requires LearnerOK(c, net, l) && InstOK(c, net, i, inst)
    ensures LearnerOK(c, net, PutInst(l, i, inst))
  {}

  /** A vote that is counted without completing a quorum. */
  lemma CountStepOK(c: Config, net: set<Msg>, l: Learner, m: Msg, inst: Inst)
    requires ValidConfig(c) && NetInv(c, net) && LearnerOK(c, net, l) && m in net && m.Accepted?
    requires InstOK(c, net, m.iid, inst) && !inst.chosen && !BallotGt(inst.ballot, m.round.ballot)
    ensures var inst' := NewBallot(inst, m.round.ballot, m.value);
      var counted := inst'.(quorum := inst'.quorum + {m.aid});
      && LearnerOK(c, net, PutInst(l, m.iid, counted))
      && (m.aid in inst'.quorum ==> counted == inst')
      && (|counted.quorum| >= l.q2 && !counted.chosen ==>
            && OutOK(c, net, Some(Chosen(m.iid, Classic(m.round.ballot), m.value)))
            && LearnerOK(c, net + {Chosen(m.iid, Classic(m.round.ballot), m.value)},
                         MarkChosen(PutInst(l, m.iid, counted.(chosen := true)), m.iid)))
  {
    CountOK(c, net, inst, m);
    var inst' := NewBallot(inst, m.round.ballot, m.value);
    var counted := inst'.(quorum := inst'.quorum + {m.aid});
    PutInstOK(c, net, l, m.iid, counted);
    if |counted.quorum| >= l.q2 && !counted.chosen {
      QuorumStepOK(c, net, l, m.iid, counted, m.round);
    }
  }

  ghost predicate StepFine(c: Config, net: set<Msg>, r: (Learner, Option<Msg>)) {
    OutOK(c, net, r.1) && LearnerOK(c, net + ToSet(r.1), r.0)
  }

  lemma SilentFine(c: Config, net: set<Msg>, l: Learner)
    requires LearnerOK(c, net, l)
    ensures StepFine(c, net, (l, None))
  {
    assert net + {} == net;
  }

  lemma AcceptedStepOK(c: Config, net: set<Msg>, l: Learner, m: Msg)
    requires ValidConfig(c) && NetInv(c, net) && LearnerOK(c, net, l) && m in net && m.Accepted?
    ensures StepFine(c, net, OnAccepted(l, m.aid, m.iid, m.round.ballot, m.value))
  {
    SilentFine(c, net, l);
    var i, inst := m.iid, GetInst(l, m.iid);
    if i >= l.min {
      GetInstOK(c, net, l, i);
      if inst.chosen || BallotGt(inst.ballot, m.round.ballot) {
        PutInstOK(c, net, l, i, inst);
        SilentFine(c, net, PutInst(l, i, inst));
      } else {
        CountStepOK(c, net, l, m, inst);
        var inst' := NewBallot(inst, m.round.ballot, m.value);
        SilentFine(c, net, PutInst(l, i, inst'.(quorum := inst'.quorum + {m.aid})));
      }
    }
  }

  lemma ChosenStepOK(c: Config, net: set<Msg>, l: Learner, m: Msg)
    requires NetInv(c, net) && LearnerOK(c, net, l) && m in net && m.Chosen?
    ensures LearnerOK(c, net, OnChosen(l, m.iid, m.round.ballot, m.value))
  {
    assert MsgOK(c, net, m);
    ChosenOKIsDecided(c, net, m.iid, m.round, m.value);
    GetInstOK(c, net, l, m.iid);
  }

  lemma TrimStepOK(c: Config, net: set<Msg>, l: Learner, m: Msg)
    requires NetInv(c, net) && LearnerOK(c, net, l) && m in net && m.Trim?
    ensures LearnerOK(c, net, l.(trim := m.iid))
  {
    assert MsgOK(c, net, m);
  }

  lemma StepOK(c: Config, net: set<Msg>, l: Learner, m: Msg)
    requires ValidConfig(c) && NetInv(c, net) && LearnerOK(c, net, l) && m in net
    ensures StepFine(c, net, Step(l, m))
  {
    match m
    case Accepted(_, _, _, _) => AcceptedStepOK(c, net, l, m);
    case Chosen(i, r, v) => ChosenStepOK(c, net, l, m); SilentFine(c, net, OnChosen(l, i, r.ballot, v));
    case Trim(t) => TrimStepOK(c, net, l, m); SilentFine(c, net, l.(trim := t));
    case _ => SilentFine(c, net, l);
  }

  lemma DeliverOK(c: Config, net: set<Msg>, l: Learner)
    requires LearnerOK(c, net, l)
    ensures LearnerOK(c, net, Deliver(l))
  {}

  lemma AnnounceOK(c: Config, net: set<Msg>, l: Learner)
    requires LearnerOK(c, net, l)
    ensures var (l', out) := Announce(l); OutOK(c, net, out) && LearnerOK(c, net + ToSet(out), l')
  {
    assert net + {} == net;
    var (l', out) := Announce(l);
    if out.Some? {
      forall i | 0 < i <= l.min - 1 ensures IsDecided(c, net, i) {
        assert Decided(c, net, (i - 1) + 1, l.delivered[i - 1]);
      }
      Grows(c, net, l', out.value);
    }
  }

  /** Any two learners of one run deliver the same sequence, as far as both have got. */
  lemma DeliveredArePrefixes(c: Config, net: set<Msg>, l1: Learner, l2: Learner)
    requires ValidConfig(c) && VotingInv(c, net) && LearnerOK(c, net, l1) && LearnerOK(c, net, l2)
    ensures l1.delivered <= l2.delivered || l2.delivered <= l1.delivered
  {
    forall k | 0 <= k < |l1.delivered| && k < |l2.delivered| ensures l1.delivered[k] == l2.delivered[k] {
      Agreement(c, net, k + 1, l1.delivered[k], l2.delivered[k]);
    }
  }
}
