/** The epoch learner's records are sound counts of votes, and it delivers the decisions in order. */
module EpochLearnerProof {
  import opened Types
  import opened Voting
  import opened EpochNet
  import opened EpochLearner
  import LP = LearnerProof

  /** A record counts real votes for one value. */
  ghost predicate RecordOK(c: Config, net: set<Msg>, i: Iid, rec: BallotRecord) {
    && rec.quorum <= c.acceptors
    && (forall a | a in rec.quorum :: Accepted(a, i, rec.round, rec.value) in net)
  }

  ghost predicate InstOK(c: Config, net: set<Msg>, i: Iid, inst: Inst) {
    && (inst.chosen.Some? ==>
          inst.chosen.value < |inst.records| && Decided(c, net, i, inst.records[inst.chosen.value].value))
    && (inst.chosen.None? ==> forall k | 0 <= k < |inst.records| :: RecordOK(c, net, i, inst.records[k]))
  }

  ghost predicate LearnerOK(c: Config, net: set<Msg>, l: Learner) {
    && l.q2 == c.q2
    && l.min == |l.delivered| + 1
    && LP.DeliveredOK(c, net, l.delivered)
    && (forall i | i in l.instances :: InstOK(c, net, i, l.instances[i]))
    && TrimOK(c, net, l.trim)
  }

  ghost predicate OutOK(c: Config, net: set<Msg>, out: Option<Msg>) {
    out.Some? ==> MsgOK(c, net, out.value) && (out.value.Chosen? || out.value.Trim?)
  }

  ghost predicate StepFine(c: Config, net: set<Msg>, r: (Learner, Option<Msg>)) {
    OutOK(c, net, r.1) && LearnerOK(c, net + ToSet(r.1), r.0)
  }

  lemma SilentFine(c: Config, net: set<Msg>, l: Learner)
    requires LearnerOK(c, net, l)
    ensures StepFine(c, net, (l, None))
  {
    assert net + {} == net;
  }

  lemma InstGrows(c: Config, net: set<Msg>, n: Msg, i: Iid, inst: Inst)
    requires InstOK(c, net, i, inst)
    ensures InstOK(c, net + {n}, i, inst)
  {
    if inst.chosen.Some? {
      DecidedGrows(c, net, net + {n}, i, inst.records[inst.chosen.value].value);
    } else {
      forall k | 0 <= k < |inst.records| ensures RecordOK(c, net + {n}, i, inst.records[k]) {
        assert RecordOK(c, net, i, inst.records[k]);
      }
    }
  }

  lemma Grows(c: Config, net: set<Msg>, l: Learner, n: Msg)
    requires LearnerOK(c, net, l)
    ensures LearnerOK(c, net + {n}, l)
  {
    forall k | 0 <= k < |l.delivered| ensures Decided(c, net + {n}, k + 1, l.delivered[k]) {
      DecidedGrows(c, net, net + {n}, k + 1, l.delivered[k]);
    }
    forall i | i in l.instances ensures InstOK(c, net + {n}, i, l.instances[i]) {
      InstGrows(c, net, n, i, l.instances[i]);
    }
    TrimGrows(c, net, net + {n}, l.trim);
  }

  lemma PutInstOK(c: Config, net: set<Msg>, l: Learner, i: Iid, inst: Inst)
    requires LearnerOK(c, net, l) && InstOK(c, net, i, inst)
    ensures LearnerOK(c, net, PutInst(l, i, inst)) && LearnerOK(c, net, MarkChosen(PutInst(l, i, inst), i))
  {}

  /** The record a vote is counted in carries the vote's value. */
  lemma VotedRecordOK(c: Config, net: set<Msg>, rec: BallotRecord, m: Msg)
    requires VotesProposed(c, net) && UniqueProposals(net) && m in net && m.Accepted?
    requires rec.round == m.round && RecordOK(c, net, m.iid, rec) && (rec.quorum == {} ==> rec.value == [])
    ensures var rec' := AddValue(rec.(quorum := rec.quorum + {m.aid}), m.value);
      rec'.value == m.value && RecordOK(c, net, m.iid, rec')
  {
    assert Accept(m.iid, m.round, m.value) in net;
    if a :| a in rec.quorum {
      var n := Accepted(a, m.iid, m.round, rec.value);
      assert n in net && Accept(n.iid, n.round, n.value) in net;
    }
    assert m == Accepted(m.aid, m.iid, m.round, m.value);
  }

  /** Until an instance is chosen, a record without voters has no value. */
  ghost predicate NoStrayValues(inst: Inst) {
    inst.chosen.None? ==> forall k | 0 <= k < |inst.records| :: inst.records[k].quorum != {}
  }

  lemma AddVoteOK(c: Config, net: set<Msg>, inst: Inst, m: Msg)
    requires VotesProposed(c, net) && UniqueProposals(net) && m in net && m.Accepted?
    requires InstOK(c, net, m.iid, inst) && inst.chosen.None? && NoStrayValues(inst)
    ensures var inst' := AddVote(inst, m.aid, m.round, m.value);
      && InstOK(c, net, m.iid, inst') && NoStrayValues(inst')
      && inst'.records[IndexOf(inst.records, m.round)].value == m.value
  {
    var k := IndexOf(inst.records, m.round);
    var records := WithRecord(inst.records, m.round);
    VotedRecordOK(c, net, records[k], m);
  }

  ghost predicate LearnerInv(c: Config, net: set<Msg>, l: Learner) {
    LearnerOK(c, net, l) && forall i | i in l.instances :: NoStrayValues(l.instances[i])
  }

  lemma QuorumStepOK(c: Config, net: set<Msg>, l: Learner, i: Iid, inst: Inst, k: nat)
    requires LearnerOK(c, net, l) && InstOK(c, net, i, inst) && inst.chosen.None?
    requires k < |inst.records| && |inst.records[k].quorum| >= l.q2
    ensures StepFine(c, net, (MarkChosen(PutInst(l, i, inst.(chosen := Some(k))), i),
                              Some(Chosen(i, inst.records[k].round, inst.records[k].value))))
  {
    var rec := inst.records[k];
    assert RecordOK(c, net, i, rec);
    assert ChosenBy(c, net, i, rec.round, rec.value, rec.quorum);
    ChosenIsDecided(c, net, i, rec.round, rec.value);
    PutInstOK(c, net, l, i, inst.(chosen := Some(k)));
    Grows(c, net, MarkChosen(PutInst(l, i, inst.(chosen := Some(k))), i), Chosen(i, rec.round, rec.value));
  }

  lemma AcceptedStepOK(c: Config, net: set<Msg>, l: Learner, m: Msg)
    requires VotesProposed(c, net) && UniqueProposals(net) && LearnerInv(c, net, l) && m in net && m.Accepted?
    ensures StepFine(c, net, OnAccepted(l, m.aid, m.iid, m.round, m.value))
  {
    var i, inst := m.iid, GetInst(l, m.iid);
    if i < l.min {
      SilentFine(c, net, l);
    } else if inst.chosen.Some? {
      PutInstOK(c, net, l, i, inst);
      SilentFine(c, net, PutInst(l, i, inst));
    } else {
      var k := IndexOf(inst.records, m.round);
      var inst' := AddVote(inst, m.aid, m.round, m.value);
      AddVoteOK(c, net, inst, m);
      if m.aid !in WithRecord(inst.records, m.round)[k].quorum && |inst'.records[k].quorum| >= l.q2 {
        QuorumStepOK(c, net, l, i, inst', k);
      } else {
        PutInstOK(c, net, l, i, inst');
        SilentFine(c, net, PutInst(l, i, inst'));
      }
    }
  }

  /** A chosen message for a round whose votes were seen names their value. */
  lemma ChosenRecordOK(c: Config, net: set<Msg>, inst: Inst, m: Msg)
    requires NetInv(c, net) && m in net && m.Chosen?
    requires InstOK(c, net, m.iid, inst) && inst.chosen.None? && NoStrayValues(inst)
    requires ValidConfig(c)
    ensures var k := IndexOf(inst.records, m.round); var records := WithRecord(inst.records, m.round);
      InstOK(c, net, m.iid, Inst(records[k := AddValue(records[k], m.value)], Some(k)))
  {
    var k, records := IndexOf(inst.records, m.round), WithRecord(inst.records, m.round);
    assert MsgOK(c, net, m);
    ChosenIsDecided(c, net, m.iid, m.round, m.value);
    ChosenIsSettled(c, net, m.iid, m.round, m.value);
    if k < |inst.records| {
      var rec := inst.records[k];
      assert RecordOK(c, net, m.iid, rec);
      var a :| a in rec.quorum;
      SameValue(c, net, Accepted(a, m.iid, m.round, rec.value), m.value);
    }
  }

  lemma SameValue(c: Config, net: set<Msg>, n: Msg, v: Value)
    requires VotesProposed(c, net) && UniqueProposals(net)
    requires n in net && n.Accepted? && Accept(n.iid, n.round, v) in net
    ensures n.value == v
  {
    assert Accept(n.iid, n.round, n.value) in net;
  }

  lemma ChosenStepOK(c: Config, net: set<Msg>, l: Learner, m: Msg)
    requires ValidConfig(c) && NetInv(c, net) && LearnerInv(c, net, l) && m in net && m.Chosen?
    ensures LearnerOK(c, net, OnChosen(l, m.iid, m.round, m.value))
  {
    var i, inst := m.iid, GetInst(l, m.iid);
    if i >= l.min {
      if inst.chosen.Some? {
        PutInstOK(c, net, l, i, inst);
      } else {
        ChosenRecordOK(c, net, inst, m);
        var k, records := IndexOf(inst.records, m.round), WithRecord(inst.records, m.round);
        PutInstOK(c, net, l, i, Inst(records[k := AddValue(records[k], m.value)], Some(k)));
      }
    }
  }

  lemma TrimMsgOK(c: Config, net: set<Msg>, l: Learner, m: Msg)
    requires NetInv(c, net) && LearnerOK(c, net, l) && m in net && m.Trim?
    ensures LearnerOK(c, net, l.(trim := m.iid))
  {
    assert MsgOK(c, net, m);
  }

  lemma StepOK(c: Config, net: set<Msg>, l: Learner, m: Msg)
    requires ValidConfig(c) && NetInv(c, net) && LearnerInv(c, net, l) && m in net
    ensures StepFine(c, net, Step(l, m))
  {
    match m
    case Accepted(_, _, _, _) => AcceptedStepOK(c, net, l, m);
    case Chosen(i, r, v) => ChosenStepOK(c, net, l, m); SilentFine(c, net, OnChosen(l, i, r, v));
    case Trim(t) => TrimMsgOK(c, net, l, m); SilentFine(c, net, l.(trim := t));
    case _ => SilentFine(c, net, l);
  }

  /** Every record of an instance that is not chosen has a voter. */
  lemma StepKeepsVoters(l: Learner, m: Msg)
    requires forall i | i in l.instances :: NoStrayValues(l.instances[i])
    ensures forall i | i in Step(l, m).0.instances :: NoStrayValues(Step(l, m).0.instances[i])
  {
    if m.Accepted? {
      var inst' := AddVote(GetInst(l, m.iid), m.aid, m.round, m.value);
      assert GetInst(l, m.iid).chosen.None? ==> NoStrayValues(inst');
    }
  }

  lemma DeliverOK(c: Config, net: set<Msg>, l: Learner)
    requires LearnerInv(c, net, l)
    ensures LearnerInv(c, net, Deliver(l))
  {}

  lemma AnnounceOK(c: Config, net: set<Msg>, l: Learner)
    requires LearnerOK(c, net, l)
    ensures StepFine(c, net, Announce(l))
  {
    var (l', out) := Announce(l);
    if out.None? {
      SilentFine(c, net, l);
    } else {
      forall i | 0 < i <= l.min - 1 ensures IsDecided(c, net, i) {
        assert Decided(c, net, (i - 1) + 1, l.delivered[i - 1]);
      }
      Grows(c, net, l', out.value);
    }
  }

  lemma DeliveredArePrefixes(c: Config, net: set<Msg>, l1: Learner, l2: Learner)
    requires ValidConfig(c) && VotingInv(c, net) && LearnerOK(c, net, l1) && LearnerOK(c, net, l2)
    ensures l1.delivered <= l2.delivered || l2.delivered <= l1.delivered
  {
    forall k | 0 <= k < |l1.delivered| && k < |l2.delivered| ensures l1.delivered[k] == l2.delivered[k] {
      Agreement(c, net, k + 1, l1.delivered[k], l2.delivered[k]);
    }
  }
}
