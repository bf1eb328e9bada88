/** What the learner makes of any sequence of votes and chosen messages: which instances it marks, when it announces
    them, and what it delivers. */
module LearnerOrder {
  import opened Types
  import opened Sets
  import opened Learner

  datatype Input = Vote(a: Aid, i: Iid, b: Ballot, v: Value) | News(i: Iid, b: Ballot, v: Value) | DeliverNext

  function Eat(l: Learner, x: Input): Learner {
    match x
    case Vote(a, i, b, v) => OnAccepted(l, a, i, b, v).0
    case News(i, b, v) => OnChosen(l, i, b, v)
    case DeliverNext => Deliver(l)
  }

  function Feed(l: Learner, xs: seq<Input>): Learner {
    if xs == [] then l else Eat(Feed(l, xs[..|xs| - 1]), xs[|xs| - 1])
  }

  // ---------------------------------------------------------------- the history of an instance

  /** The distinct acceptors whose votes at ballot b of instance i have arrived. */
  function Voters(xs: seq<Input>, i: Iid, b: Ballot): set<Aid> {
    set x | x in xs && x.Vote? && x.i == i && x.b == b :: x.a
  }

  /** No vote for the instance lies above the ballot. */
  ghost predicate NoneAbove(xs: seq<Input>, i: Iid, b: Ballot) {
    forall x | x in xs && x.Vote? && x.i == i :: BallotGe(b, x.b)
  }

  /** At some time q2 votes at ballot b had arrived and none above it. */
  ghost predicate QuorumAt(xs: seq<Input>, i: Iid, b: Ballot, q2: nat) {
    exists k: nat :: k <= |xs| && |Voters(xs[..k], i, b)| >= q2 && NoneAbove(xs[..k], i, b)
  }

  ghost predicate QuorumInTime(xs: seq<Input>, i: Iid, q2: nat) { exists b :: QuorumAt(xs, i, b, q2) }

  ghost predicate Heard(xs: seq<Input>, i: Iid) { exists x :: x in xs && x.News? && x.i == i }

  /** A ballot and value that arrived in one vote or one chosen message for the instance. */
  ghost predicate Arrived(xs: seq<Input>, i: Iid, b: Ballot, v: Value) {
    exists x :: x in xs && (x.Vote? || x.News?) && x.i == i && x.b == b && x.v == v
  }

  /** What the record of an instance says about its history. */
  ghost predicate Tells(inst: Inst, xs: seq<Input>, i: Iid, q2: nat) {
    && (inst.ballot != INVALID_BALLOT ==> Arrived(xs, i, inst.ballot, inst.value))
    && if inst.chosen then QuorumInTime(xs, i, q2) || Heard(xs, i)
       else
         && !QuorumInTime(xs, i, q2) && !Heard(xs, i)
         && NoneAbove(xs, i, inst.ballot) && (inst.ballot == INVALID_BALLOT || Voters(xs, i, inst.ballot) != {})
         && inst.quorum == Voters(xs, i, inst.ballot)
  }

  lemma VotersGrow(xs: seq<Input>, x: Input, i: Iid, b: Ballot)
    ensures Voters(xs + [x], i, b) == Voters(xs, i, b) + if x.Vote? && x.i == i && x.b == b then {x.a} else {}
    ensures NoneAbove(xs + [x], i, b) <==> NoneAbove(xs, i, b) && (x.Vote? && x.i == i ==> BallotGe(b, x.b))
  {
    assert forall y :: y in xs + [x] <==> y in xs || y == x;
  }

  /** Only the newest moment can add a quorum. */
  lemma QuorumGrows(xs: seq<Input>, x: Input, i: Iid, b: Ballot, q2: nat)
    ensures QuorumAt(xs + [x], i, b, q2) <==>
      QuorumAt(xs, i, b, q2) || (|Voters(xs + [x], i, b)| >= q2 && NoneAbove(xs + [x], i, b))
  {
    var all := xs + [x];
    forall k: nat | k <= |xs| ensures all[..k] == xs[..k] {}
    assert all[..|all|] == all;
    if QuorumAt(all, i, b, q2) {
      var k: nat :| k <= |all| && |Voters(all[..k], i, b)| >= q2 && NoneAbove(all[..k], i, b);
      if k <= |xs| { assert |Voters(xs[..k], i, b)| >= q2; }
    }
    if QuorumAt(xs, i, b, q2) {
      var k: nat :| k <= |xs| && |Voters(xs[..k], i, b)| >= q2 && NoneAbove(xs[..k], i, b);
      assert |Voters(all[..k], i, b)| >= q2 && NoneAbove(all[..k], i, b);
    }
  }

  lemma HeardGrows(xs: seq<Input>, x: Input, i: Iid)
    ensures Heard(xs + [x], i) <==> Heard(xs, i) || (x.News? && x.i == i)
  {
    if Heard(xs, i) {
      var y :| y in xs && y.News? && y.i == i;
      assert y in xs + [x];
    }
    if x.News? && x.i == i { assert x in xs + [x]; }
  }

  lemma ArrivedGrows(xs: seq<Input>, x: Input, i: Iid, b: Ballot, v: Value)
    requires Arrived(xs, i, b, v)
    ensures Arrived(xs + [x], i, b, v)
  {
    var y :| y in xs && (y.Vote? || y.News?) && y.i == i && y.b == b && y.v == v;
    assert y in xs + [x];
  }

  lemma NewestArrived(xs: seq<Input>, x: Input)
    requires x.Vote? || x.News?
    ensures Arrived(xs + [x], x.i, x.b, x.v)
  {
    assert x in xs + [x];
  }

  // ---------------------------------------------------------------- one input

  /** An input about another instance changes nothing. */
  lemma OtherInput(inst: Inst, xs: seq<Input>, x: Input, i: Iid, q2: nat)
    requires q2 > 0 && Tells(inst, xs, i, q2) && (x.DeliverNext? || x.i != i)
    ensures Tells(inst, xs + [x], i, q2)
  {
    forall b
      ensures Voters(xs + [x], i, b) == Voters(xs, i, b) && (NoneAbove(xs + [x], i, b) <==> NoneAbove(xs, i, b))
    {
      VotersGrow(xs, x, i, b);
    }
    HeardGrows(xs, x, i);
    if Arrived(xs, i, inst.ballot, inst.value) { ArrivedGrows(xs, x, i, inst.ballot, inst.value); }
    MarksStay(xs, x, i, q2);
    forall b | QuorumAt(xs + [x], i, b, q2) ensures QuorumAt(xs, i, b, q2) {
      QuorumGrows(xs, x, i, b, q2);
      assert xs[..|xs|] == xs;
    }
  }

  lemma MarksStay(xs: seq<Input>, x: Input, i: Iid, q2: nat)
    ensures QuorumInTime(xs, i, q2) ==> QuorumInTime(xs + [x], i, q2)
  {
    if QuorumInTime(xs, i, q2) {
      var b :| QuorumAt(xs, i, b, q2);
      QuorumGrows(xs, x, i, b, q2);
    }
  }

  /** A marked record stays marked and true. */
  lemma MarkedTells(inst: Inst, xs: seq<Input>, x: Input, i: Iid, q2: nat)
    requires inst.chosen && Tells(inst, xs, i, q2)
    ensures Tells(inst, xs + [x], i, q2)
  {
    MarksStay(xs, x, i, q2);
    HeardGrows(xs, x, i);
    if Arrived(xs, i, inst.ballot, inst.value) { ArrivedGrows(xs, x, i, inst.ballot, inst.value); }
  }

  lemma NewsTells(inst: Inst, xs: seq<Input>, x: Input, q2: nat)
    requires x.News?
    ensures Tells(inst.(ballot := x.b, value := x.v, chosen := true), xs + [x], x.i, q2)
  {
    HeardGrows(xs, x, x.i);
    NewestArrived(xs, x);
  }

  /** With the ballot that leads, a quorum at any ballot is a quorum at it. */
  lemma LeaderDecides(xs: seq<Input>, i: Iid, b: Ballot, lead: Ballot, q2: nat)
    requires q2 > 0 && |Voters(xs, i, b)| >= q2 && NoneAbove(xs, i, b)
    requires NoneAbove(xs, i, lead) && Voters(xs, i, lead) != {}
    ensures b == lead
  {
    var a :| a in Voters(xs, i, b);
    var a' :| a' in Voters(xs, i, lead);
    var y :| y in xs && y.Vote? && y.i == i && y.b == b && y.a == a;
    var y' :| y' in xs && y'.Vote? && y'.i == i && y'.b == lead && y'.a == a';
  }

  /** A vote below the leading ballot counts for nothing. */
  lemma LateVoteTells(inst: Inst, xs: seq<Input>, x: Input, q2: nat)
    requires q2 > 0 && x.Vote? && !inst.chosen && Tells(inst, xs, x.i, q2) && BallotGt(inst.ballot, x.b)
    ensures Tells(inst, xs + [x], x.i, q2)
  {
    var i := x.i;
    VotersGrow(xs, x, i, inst.ballot);
    HeardGrows(xs, x, i);
    ArrivedGrows(xs, x, i, inst.ballot, inst.value);
    forall b ensures !QuorumAt(xs + [x], i, b, q2) {
      QuorumGrows(xs, x, i, b, q2);
      if |Voters(xs + [x], i, b)| >= q2 && NoneAbove(xs + [x], i, b) {
        LeaderDecides(xs + [x], i, b, inst.ballot, q2);
        assert xs[..|xs|] == xs && QuorumAt(xs, i, b, q2);
      }
    }
  }

  /** A vote at the leading ballot, or at a new one, is counted there. */
  lemma VoteCounted(inst: Inst, xs: seq<Input>, x: Input, q2: nat)
    requires q2 > 0 && x.Vote? && !inst.chosen && Tells(inst, xs, x.i, q2) && !BallotGt(inst.ballot, x.b)
    ensures var inst' := NewBallot(inst, x.b, x.v);
      && inst'.ballot == x.b && NoneAbove(xs + [x], x.i, x.b)
      && Voters(xs + [x], x.i, x.b) == inst'.quorum + {x.a}
      && (inst'.ballot == INVALID_BALLOT || Arrived(xs + [x], x.i, inst'.ballot, inst'.value))
  {
    var i := x.i;
    VotersGrow(xs, x, i, x.b);
    NewestArrived(xs, x);
    if BallotGt(x.b, inst.ballot) {
      assert Voters(xs, i, x.b) == {};
    } else if inst.ballot != INVALID_BALLOT {
      ArrivedGrows(xs, x, i, inst.ballot, inst.value);
    }
  }

  /** After a counted vote there is a quorum exactly if there are enough votes at the leading ballot. */
  lemma CountDecides(xs: seq<Input>, x: Input, q2: nat)
    requires q2 > 0 && x.Vote? && NoneAbove(xs + [x], x.i, x.b) && !QuorumInTime(xs, x.i, q2)
    ensures QuorumInTime(xs + [x], x.i, q2) <==> |Voters(xs + [x], x.i, x.b)| >= q2
  {
    var i := x.i;
    VotersGrow(xs, x, i, x.b);
    QuorumGrows(xs, x, i, x.b, q2);
    forall b | QuorumAt(xs + [x], i, b, q2) ensures |Voters(xs + [x], i, x.b)| >= q2 {
      QuorumGrows(xs, x, i, b, q2);
      LeaderDecides(xs + [x], i, b, x.b, q2);
    }
  }

  lemma VoteTells(l: Learner, xs: seq<Input>, x: Input)
    requires x.Vote? && l.q2 > 0 && x.i >= l.min && Tells(GetInst(l, x.i), xs, x.i, l.q2)
    ensures Tells(GetInst(Eat(l, x), x.i), xs + [x], x.i, l.q2)
  {
    var inst, i := GetInst(l, x.i), x.i;
    if inst.chosen {
      MarkedTells(inst, xs, x, i, l.q2);
    } else if BallotGt(inst.ballot, x.b) {
      LateVoteTells(inst, xs, x, l.q2);
    } else {
      CountTells(inst, xs, x, l.q2);
    }
  }

  lemma CountTells(inst: Inst, xs: seq<Input>, x: Input, q2: nat)
    requires q2 > 0 && x.Vote? && !inst.chosen && Tells(inst, xs, x.i, q2) && !BallotGt(inst.ballot, x.b)
    ensures var inst' := NewBallot(inst, x.b, x.v);
      var counted := inst'.(quorum := inst'.quorum + {x.a});
      && Tells(counted.(chosen := |counted.quorum| >= q2), xs + [x], x.i, q2)
      && (x.a in inst'.quorum ==> counted == inst' && |inst'.quorum| < q2)
  {
    VoteCounted(inst, xs, x, q2);
    CountDecides(xs, x, q2);
    HeardGrows(xs, x, x.i);
    var inst' := NewBallot(inst, x.b, x.v);
    if x.a in inst'.quorum {
      assert inst'.quorum + {x.a} == inst'.quorum && inst' == inst;
      StillNoQuorum(inst, xs, q2, x.i);
    }
  }

  lemma StillNoQuorum(inst: Inst, xs: seq<Input>, q2: nat, i: Iid)
    requires !inst.chosen && Tells(inst, xs, i, q2)
    ensures |inst.quorum| < q2
  {
    assert xs[..|xs|] == xs;
    assert |inst.quorum| >= q2 ==> QuorumAt(xs, i, inst.ballot, q2);
  }

  lemma EatTells(l: Learner, xs: seq<Input>, x: Input, i: Iid)
    requires l.q2 > 0 && i >= Eat(l, x).min && Tells(GetInst(l, i), xs, i, l.q2)
    ensures Tells(GetInst(Eat(l, x), i), xs + [x], i, l.q2)
  {
    if x.DeliverNext? || x.i != i {
      OtherInput(GetInst(l, i), xs, x, i, l.q2);
    } else if x.Vote? {
      VoteTells(l, xs, x);
    } else if GetInst(l, i).chosen {
      MarkedTells(GetInst(l, i), xs, x, i, l.q2);
    } else {
      NewsTells(GetInst(l, i), xs, x, l.q2);
    }
  }

  lemma {:induction false} FeedTells(q2: nat, xs: seq<Input>, i: Iid)
    requires q2 > 0 && i >= Feed(Boot(q2), xs).min
    ensures Feed(Boot(q2), xs).q2 == q2 && Tells(GetInst(Feed(Boot(q2), xs), i), xs, i, q2)
    decreases |xs|
  {
    if xs != [] {
      var ys, x := xs[..|xs| - 1], xs[|xs| - 1];
      assert xs == ys + [x];
      FeedTells(q2, ys, i);
      EatTells(Feed(Boot(q2), ys), ys, x, i);
    }
  }

  // ---------------------------------------------------------------- theorems

  /** An undelivered instance is marked exactly if a chosen message for it arrived, or the votes of q2 acceptors at one
      ballot did before any vote at a higher one. While it is unmarked, its ballot is the highest that arrived and its
      quorum the acceptors heard at that ballot. */
  lemma ChosenIffQuorum(q2: nat, xs: seq<Input>, i: Iid)
    requires q2 > 0 && i >= Feed(Boot(q2), xs).min
    ensures var inst := GetInst(Feed(Boot(q2), xs), i);
      && (inst.chosen <==> QuorumInTime(xs, i, q2) || Heard(xs, i))
      && (inst.ballot != INVALID_BALLOT ==> Arrived(xs, i, inst.ballot, inst.value))
      && (!inst.chosen ==>
            && NoneAbove(xs, i, inst.ballot) && (inst.ballot == INVALID_BALLOT || Voters(xs, i, inst.ballot) != {})
            && inst.quorum == Voters(xs, i, inst.ballot))
  {
    FeedTells(q2, xs, i);
  }

  /** A vote for an undelivered instance is announced exactly if it completes the first quorum of an instance of which
      no chosen message arrived. */
  lemma AnnouncedIff(q2: nat, xs: seq<Input>, a: Aid, i: Iid, b: Ballot, v: Value)
    requires q2 > 0 && i >= Feed(Boot(q2), xs).min
    ensures OnAccepted(Feed(Boot(q2), xs), a, i, b, v).1 ==
      if QuorumInTime(xs + [Vote(a, i, b, v)], i, q2) && !QuorumInTime(xs, i, q2) && !Heard(xs, i)
      then Some(Chosen(i, Classic(b), v)) else None
  {
    var x := Vote(a, i, b, v);
    FeedTells(q2, xs, i);
    VoteTells(Feed(Boot(q2), xs), xs, x);
    HeardGrows(xs, x, i);
    MarksStay(xs, x, i, q2);
  }

  // ---------------------------------------------------------------- delivery

  /** The largest instance that was ever marked, delivered or not; 0 if none was. */
  ghost predicate HighestKnown(l: Learner) {
    && (forall i | i in l.instances && l.instances[i].chosen :: i <= l.highest)
    && l.min <= l.highest + 1
    && (l.highest < l.min || (l.highest in l.instances && l.instances[l.highest].chosen))
  }

  lemma {:induction false} FeedHighest(q2: nat, xs: seq<Input>)
    ensures HighestKnown(Feed(Boot(q2), xs))
    decreases |xs|
  {
    if xs != [] {
      FeedHighest(q2, xs[..|xs| - 1]);
      EatHighest(Feed(Boot(q2), xs[..|xs| - 1]), xs[|xs| - 1]);
    }
  }

  lemma EatHighest(l: Learner, x: Input)
    requires HighestKnown(l)
    ensures HighestKnown(Eat(l, x))
  {}

  /** A trim point is announced exactly when something new was delivered and nothing marked lies beyond the instance
      that is due; it is the last delivered instance. */
  lemma TrimAnnouncedIff(q2: nat, xs: seq<Input>, trim: Iid)
    ensures var l := Feed(Boot(q2), xs).(trim := trim);
      Announce(l).1 == if l.min - 1 > trim && (forall i | i in l.instances && l.instances[i].chosen :: i <= l.min)
                       then Some(Trim(l.min - 1)) else None
  {
    FeedHighest(q2, xs);
  }

  /** The values of n instances from `from` on. */
  function Values(l: Learner, from: Iid, n: nat): (vs: seq<Value>)
    ensures |vs| == n
  {
    if n == 0 then [] else Values(l, from, n - 1) + [GetInst(l, from + n - 1).value]
  }

  ghost predicate AllMarked(l: Learner, from: Iid, n: nat) {
    forall i | from <= i < from + n :: GetInst(l, i).chosen
  }

  function Deliveries(n: nat): seq<Input> { if n == 0 then [] else Deliveries(n - 1) + [DeliverNext] }

  /** As many deliveries as there are marked instances in a row hand out their values in order, and no delivery goes
      past an unmarked one. */
  lemma {:induction false} DeliversInOrder(l: Learner, n: nat)
    requires AllMarked(l, l.min, n)
    ensures var l' := Feed(l, Deliveries(n));
      && l'.delivered == l.delivered + Values(l, l.min, n) && l'.min == l.min + n
      && (forall i | i >= l'.min :: GetInst(l', i) == GetInst(l, i))
      && (!GetInst(l', l'.min).chosen ==> Eat(l', DeliverNext) == l')
  {
    if n > 0 {
      DeliversInOrder(l, n - 1);
      var ds := Deliveries(n);
      assert ds[..|ds| - 1] == Deliveries(n - 1) && ds[|ds| - 1] == DeliverNext;
    }
  }
}
