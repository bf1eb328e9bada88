/** The epoch learner does not care in which order, or how often, votes arrive: which instances it marks, when it
    announces them, and what it delivers. */
module EpochLearnerOrder {
  import opened Types
  import opened Sets
  import opened EpochLearner

  datatype Input = Vote(a: Aid, i: Iid, r: Round, v: Value) | News(i: Iid, r: Round, v: Value) | DeliverNext

  function Eat(l: Learner, x: Input): Learner {
    match x
    case Vote(a, i, r, v) => OnAccepted(l, a, i, r, v).0
    case News(i, r, v) => OnChosen(l, i, r, v)
    case DeliverNext => Deliver(l)
  }

  function Feed(l: Learner, xs: seq<Input>): Learner {
    if xs == [] then l else Eat(Feed(l, xs[..|xs| - 1]), xs[|xs| - 1])
  }

  /** The distinct acceptors whose votes at round r of instance i have arrived. */
  function Voters(xs: seq<Input>, i: Iid, r: Round): set<Aid> {
    set x | x in xs && x.Vote? && x.i == i && x.r == r :: x.a
  }

  ghost predicate Heard(xs: seq<Input>, i: Iid) { exists x :: x in xs && x.News? && x.i == i }

  ghost predicate Distinct(records: seq<BallotRecord>) {
    forall j, k | 0 <= j < k < |records| :: records[j].round != records[k].round
  }

  /** The records of an instance count exactly the voters, until one of them has a quorum. */
  ghost predicate Counts(inst: Inst, xs: seq<Input>, i: Iid, q2: nat) {
    && Distinct(inst.records)
    && match inst.chosen
       case None =>
         && !Heard(xs, i)
         && (forall k | 0 <= k < |inst.records| ::
               inst.records[k].quorum == Voters(xs, i, inst.records[k].round) && |inst.records[k].quorum| < q2)
         && (forall r :: Voters(xs, i, r) != {} ==> IndexOf(inst.records, r) < |inst.records|)
       case Some(k) =>
         && k < |inst.records|
         && (|| (|inst.records[k].quorum| >= q2 && inst.records[k].quorum <= Voters(xs, i, inst.records[k].round))
             || Heard(xs, i))
  }

  lemma VotersGrow(xs: seq<Input>, x: Input, i: Iid, r: Round)
    ensures Voters(xs + [x], i, r) == Voters(xs, i, r) + if x.Vote? && x.i == i && x.r == r then {x.a} else {}
  {
    assert forall y :: y in xs + [x] <==> y in xs || y == x;
  }

  lemma HeardGrows(xs: seq<Input>, x: Input, i: Iid)
    ensures Heard(xs + [x], i) <==> Heard(xs, i) || (x.News? && x.i == i)
  {
    if Heard(xs, i) {
      var y :| y in xs && y.News? && y.i == i;
      assert y in xs + [x];
    }
    if x.News? && x.i == i { assert x in xs + [x]; }
  }

  /** An input that is not about instance i leaves its record in order. */
  lemma OtherInput(inst: Inst, xs: seq<Input>, x: Input, i: Iid, q2: nat)
    requires Counts(inst, xs, i, q2) && (x.DeliverNext? || x.i != i)
    ensures Counts(inst, xs + [x], i, q2)
  {
    forall r ensures Voters(xs + [x], i, r) == Voters(xs, i, r) { VotersGrow(xs, x, i, r); }
    HeardGrows(xs, x, i);
  }

  lemma AddVoteDistinct(inst: Inst, a: Aid, r: Round, v: Value)
    requires Distinct(inst.records)
    ensures Distinct(AddVote(inst, a, r, v).records)
  {}

  /** After counting a vote every voter has a record. */
  lemma AddVoteCovers(inst: Inst, xs: seq<Input>, x: Input, r: Round)
    requires x.Vote? && (Voters(xs, x.i, r) != {} ==> IndexOf(inst.records, r) < |inst.records|)
    requires Voters(xs + [x], x.i, r) != {}
    ensures var records := AddVote(inst, x.a, x.r, x.v).records; IndexOf(records, r) < |records|
  {
    VotersGrow(xs, x, x.i, r);
    var records := AddVote(inst, x.a, x.r, x.v).records;
    assert records[IndexOf(inst.records, x.r)].round == x.r;
    if r != x.r { assert records[IndexOf(inst.records, r)].round == r; }
  }

  /** After counting a vote each record counts the voters of its round. */
  lemma AddVoteExact(inst: Inst, xs: seq<Input>, x: Input, q2: nat, k: nat)
    requires x.Vote? && Counts(inst, xs, x.i, q2) && inst.chosen.None?
    requires k < |AddVote(inst, x.a, x.r, x.v).records|
    ensures var rec := AddVote(inst, x.a, x.r, x.v).records[k];
      && rec.quorum == Voters(xs + [x], x.i, rec.round)
      && (k != IndexOf(inst.records, x.r) ==> |rec.quorum| < q2)
  {
    var rec := AddVote(inst, x.a, x.r, x.v).records[k];
    VotersGrow(xs, x, x.i, rec.round);
    if k == |inst.records| { assert Voters(xs, x.i, x.r) == {}; }
  }

  lemma VoteCountsUnchosen(l: Learner, xs: seq<Input>, x: Input)
    requires x.Vote? && x.i >= l.min
    requires l.q2 > 0 && Counts(GetInst(l, x.i), xs, x.i, l.q2) && GetInst(l, x.i).chosen.None?
    ensures Counts(GetInst(Eat(l, x), x.i), xs + [x], x.i, l.q2)
  {
    var inst := GetInst(l, x.i);
    var inst' := AddVote(inst, x.a, x.r, x.v);
    var k := IndexOf(inst.records, x.r);
    AddVoteDistinct(inst, x.a, x.r, x.v);
    HeardGrows(xs, x, x.i);
    forall j: nat | j < |inst'.records|
      ensures inst'.records[j].quorum == Voters(xs + [x], x.i, inst'.records[j].round)
      ensures j != k ==> |inst'.records[j].quorum| < l.q2
    {
      AddVoteExact(inst, xs, x, l.q2, j);
    }
    forall r | Voters(xs + [x], x.i, r) != {} ensures IndexOf(inst'.records, r) < |inst'.records| {
      AddVoteCovers(inst, xs, x, r);
    }
    if x.a in WithRecord(inst.records, x.r)[k].quorum {
      assert inst'.records[k].quorum == inst.records[k].quorum;
    }
  }

  lemma VoteCounts(l: Learner, xs: seq<Input>, x: Input)
    requires x.Vote? && x.i >= l.min && l.q2 > 0 && Counts(GetInst(l, x.i), xs, x.i, l.q2)
    ensures Counts(GetInst(Eat(l, x), x.i), xs + [x], x.i, l.q2)
  {
    var inst := GetInst(l, x.i);
    if inst.chosen.Some? {
      MarkedCounts(inst, xs, x, x.i, l.q2);
    } else {
      VoteCountsUnchosen(l, xs, x);
    }
  }

  /** A marked instance stays marked and true. */
  lemma MarkedCounts(inst: Inst, xs: seq<Input>, x: Input, i: Iid, q2: nat)
    requires inst.chosen.Some? && Counts(inst, xs, i, q2)
    ensures Counts(inst, xs + [x], i, q2)
  {
    VotersGrow(xs, x, i, inst.records[inst.chosen.value].round);
    HeardGrows(xs, x, i);
  }

  lemma NewsCounts(l: Learner, xs: seq<Input>, x: Input)
    requires x.News? && x.i >= l.min && Counts(GetInst(l, x.i), xs, x.i, l.q2)
    ensures Counts(GetInst(Eat(l, x), x.i), xs + [x], x.i, l.q2)
  {
    HeardGrows(xs, x, x.i);
    if GetInst(l, x.i).chosen.Some? { MarkedCounts(GetInst(l, x.i), xs, x, x.i, l.q2); }
  }

  lemma {:induction false} FeedCounts(q2: nat, xs: seq<Input>, i: Iid)
    requires q2 > 0 && i >= Feed(Boot(q2), xs).min
    ensures Feed(Boot(q2), xs).q2 == q2
    ensures Counts(GetInst(Feed(Boot(q2), xs), i), xs, i, q2)
    decreases |xs|
  {
    if xs != [] {
      var ys, x := xs[..|xs| - 1], xs[|xs| - 1];
      assert xs == ys + [x];
      FeedCounts(q2, ys, i);
      var l := Feed(Boot(q2), ys);
      if x.DeliverNext? || x.i != i {
        OtherInput(GetInst(l, i), ys, x, i, q2);
      } else if x.Vote? {
        VoteCounts(l, ys, x);
      } else {
        NewsCounts(l, ys, x);
      }
    }
  }

  ghost predicate QuorumArrived(xs: seq<Input>, i: Iid, q2: nat) { exists r :: |Voters(xs, i, r)| >= q2 }

  /** Whatever the order and the repetitions, an undelivered instance is marked chosen exactly when q2 distinct
      acceptors' votes at one and the same round have arrived, or a chosen message has; its records are pairwise
      distinct. */
  lemma ChosenIffQuorum(q2: nat, xs: seq<Input>, i: Iid)
    requires q2 > 0 && i >= Feed(Boot(q2), xs).min
    ensures GetInst(Feed(Boot(q2), xs), i).chosen.Some? <==>
      QuorumArrived(xs, i, q2) || Heard(xs, i)
    ensures Distinct(GetInst(Feed(Boot(q2), xs), i).records)
  {
    FeedCounts(q2, xs, i);
    var inst := GetInst(Feed(Boot(q2), xs), i);
    if inst.chosen.Some? {
      var rec := inst.records[inst.chosen.value];
      if !Heard(xs, i) {
        SubsetSize(rec.quorum, Voters(xs, i, rec.round));
        assert |Voters(xs, i, rec.round)| >= q2;
      }
    } else {
      forall r ensures |Voters(xs, i, r)| < q2 {
        if Voters(xs, i, r) != {} { assert inst.records[IndexOf(inst.records, r)].round == r; }
      }
    }
  }

  /** Two learners fed the same votes agree on what is chosen among what neither has delivered. */
  lemma OrderDoesNotMatter(q2: nat, xs: seq<Input>, ys: seq<Input>, i: Iid)
    requires q2 > 0 && i >= Feed(Boot(q2), xs).min && i >= Feed(Boot(q2), ys).min
    requires forall x: Input | x.Vote? || x.News? :: x in xs <==> x in ys
    ensures GetInst(Feed(Boot(q2), xs), i).chosen.Some? <==> GetInst(Feed(Boot(q2), ys), i).chosen.Some?
  {
    ChosenIffQuorum(q2, xs, i);
    ChosenIffQuorum(q2, ys, i);
    forall r ensures Voters(xs, i, r) == Voters(ys, i, r) {}
    if Heard(xs, i) {
      var x :| x in xs && x.News? && x.i == i;
      assert x in ys;
    }
    if Heard(ys, i) {
      var x :| x in ys && x.News? && x.i == i;
      assert x in xs;
    }
    if r :| |Voters(xs, i, r)| >= q2 { assert |Voters(ys, i, r)| >= q2; }
    if r :| |Voters(ys, i, r)| >= q2 { assert |Voters(xs, i, r)| >= q2; }
  }

  /** A vote for an undelivered instance is announced exactly if it completes the first quorum of an instance of which
      no chosen message arrived. */
  lemma AnnouncedIff(q2: nat, xs: seq<Input>, a: Aid, i: Iid, r: Round, v: Value)
    requires q2 > 0 && i >= Feed(Boot(q2), xs).min
    ensures OnAccepted(Feed(Boot(q2), xs), a, i, r, v).1 ==
      if QuorumArrived(xs + [Vote(a, i, r, v)], i, q2) && !QuorumArrived(xs, i, q2) && !Heard(xs, i)
      then Some(Chosen(i, r, v)) else None
  {
    var x, l := Vote(a, i, r, v), Feed(Boot(q2), xs);
    assert (xs + [x])[..|xs|] == xs;
    FeedCounts(q2, xs, i);
    ChosenIffQuorum(q2, xs, i);
    ChosenIffQuorum(q2, xs + [x], i);
    HeardGrows(xs, x, i);
  }

  // ---------------------------------------------------------------- delivery

  predicate Marked(inst: Inst) { ChosenValue(inst).Some? }

  /** The values of n marked instances from `from` on. */
  function Values(l: Learner, from: Iid, n: nat): (vs: seq<Value>)
    requires forall i | from <= i < from + n :: Marked(GetInst(l, i))
    ensures |vs| == n
  {
    if n == 0 then []
    else
      var last := GetInst(l, from + n - 1);
      assert Marked(last);
      Values(l, from, n - 1) + [ChosenValue(last).value]
  }

  function Deliveries(n: nat): seq<Input> { if n == 0 then [] else Deliveries(n - 1) + [DeliverNext] }

  /** As many deliveries as there are marked instances in a row hand out their values in order, and no delivery goes
      past an unmarked one. */
  lemma {:induction false} DeliversInOrder(l: Learner, n: nat)
    requires forall i | l.min <= i < l.min + n :: Marked(GetInst(l, i))
    ensures var l' := Feed(l, Deliveries(n));
      && l'.delivered == l.delivered + Values(l, l.min, n) && l'.min == l.min + n
      && (forall i | i >= l'.min :: GetInst(l', i) == GetInst(l, i))
      && (!Marked(GetInst(l', l'.min)) ==> Eat(l', DeliverNext) == l')
  {
    if n > 0 {
      DeliversInOrder(l, n - 1);
      var ds := Deliveries(n);
      assert ds[..|ds| - 1] == Deliveries(n - 1) && ds[|ds| - 1] == DeliverNext;
      var l' := Feed(l, Deliveries(n - 1));
      assert GetInst(l', l'.min) == GetInst(l, l.min + n - 1) && Marked(GetInst(l, l.min + n - 1));
    }
  }

  /** What is marked can be delivered. */
  lemma MarkedMeansChosen(q2: nat, xs: seq<Input>, i: Iid)
    requires q2 > 0 && i >= Feed(Boot(q2), xs).min
    ensures Marked(GetInst(Feed(Boot(q2), xs), i)) <==> GetInst(Feed(Boot(q2), xs), i).chosen.Some?
  {
    FeedCounts(q2, xs, i);
  }

  /** The largest instance that was ever marked, delivered or not; 0 if none was. */
  ghost predicate HighestKnown(l: Learner) {
    && (forall i | i in l.instances && l.instances[i].chosen.Some? :: i <= l.highest)
    && l.min <= l.highest + 1
    && (l.highest < l.min || (l.highest in l.instances && l.instances[l.highest].chosen.Some?))
  }

  lemma EatHighest(l: Learner, x: Input)
    requires HighestKnown(l)
    ensures HighestKnown(Eat(l, x))
  {}

  lemma {:induction false} FeedHighest(q2: nat, xs: seq<Input>)
    ensures HighestKnown(Feed(Boot(q2), xs))
    decreases |xs|
  {
    if xs != [] {
      FeedHighest(q2, xs[..|xs| - 1]);
      EatHighest(Feed(Boot(q2), xs[..|xs| - 1]), xs[|xs| - 1]);
    }
  }

  /** A trim point is announced exactly when something new was delivered and nothing marked lies beyond the instance
      that is due; it is the last delivered instance. */
  lemma TrimAnnouncedIff(q2: nat, xs: seq<Input>, trim: Iid)
    ensures var l := Feed(Boot(q2), xs).(trim := trim);
      Announce(l).1 ==
        if l.min - 1 > trim && (forall i | i in l.instances && l.instances[i].chosen.Some? :: i <= l.min)
        then Some(Trim(l.min - 1)) else None
  {
    FeedHighest(q2, xs);
  }
}
