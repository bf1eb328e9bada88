/** What the epoch acceptors answer, told from the messages and from the acceptor's own history: the epoch it stored,
    and the ballot it granted last since its last crash. */
module EpochAcceptorAnswers {
  import opened Types
  import opened Voting
  import opened EpochNet
  import opened EpochSystem
  import opened EpochSafety
  import M = Memory
  import EA = EpochAcceptor
  import EAP = EpochAcceptorProof

  // ---------------------------------------------------------------- an acceptor's history

  /** What acceptor a answers to event e in state s. */
  ghost function Answer(s: Sys, e: Event, a: Aid): Option<Msg> {
    if Enabled(s, e) && e.AcceptorGets? && e.a == a then EA.Step(s.acceptors[a], e.m).1 else None
  }

  /** The answer promises a round or votes at it. */
  predicate Grants(out: Option<Msg>) { out.Some? && (out.value.Promise? || out.value.Accepted?) }

  ghost predicate IsCrash(e: Event, a: Aid) { e.AcceptorCrashes? && e.a == a }

  ghost predicate IsNews(e: Event, a: Aid, i: Iid) { e.AcceptorGets? && e.a == a && e.m.Chosen? && e.m.iid == i }

  /** The epoch on disk: one more at every crash, and raised by every notice and every round granted. */
  ghost function StoredEpoch(s: Sys, es: seq<Event>, a: Aid): nat {
    if es == [] then 1
    else
      var before, e := es[..|es| - 1], es[|es| - 1];
      var was, out := StoredEpoch(s, before, a), Answer(Run(s, before), e, a);
      if !Enabled(Run(s, before), e) then was
      else if IsCrash(e, a) then was + 1
      else if e.AcceptorGets? && e.a == a && e.m.NewEpoch? then Max(was, e.m.epoch)
      else if Grants(out) then Max(was, out.value.round.epoch)
      else was
  }

  /** The ballot granted last for the instance since the last crash; the invalid one if none was. */
  ghost function LastGranted(s: Sys, es: seq<Event>, a: Aid, i: Iid): Ballot {
    if es == [] then INVALID_BALLOT
    else
      var before, e := es[..|es| - 1], es[|es| - 1];
      var was, out := LastGranted(s, before, a, i), Answer(Run(s, before), e, a);
      if !Enabled(Run(s, before), e) then was
      else if IsCrash(e, a) then INVALID_BALLOT
      else if Grants(out) && out.value.iid == i then out.value.round.ballot
      else was
  }

  /** The acceptor was told that the instance is chosen, and has not crashed since. */
  ghost predicate Told(s: Sys, es: seq<Event>, a: Aid, i: Iid) {
    es != [] &&
      var before, e := es[..|es| - 1], es[|es| - 1];
      if !Enabled(Run(s, before), e) then Told(s, before, a, i)
      else IsNews(e, a, i) || (Told(s, before, a, i) && !IsCrash(e, a))
  }

  // ---------------------------------------------------------------- one step

  /** What a message does to epoch, promise and flag of an instance that stays untrimmed. */
  lemma MessageMoves(x: EA.EpAcceptor, m: Msg, i: Iid)
    requires x.epoch == x.disk.epoch
    ensures var (x', out) := EA.Step(x, m);
      && x'.epoch == x'.disk.epoch ==
           (if m.NewEpoch? then Max(x.epoch, m.epoch)
            else if Grants(out) then Max(x.epoch, out.value.round.epoch) else x.epoch)
      && x'.trim >= x.trim
      && (i > x'.trim ==> (i in x'.mem.base.chosen <==> i in x.mem.base.chosen || (m.Chosen? && m.iid == i)))
      && (EAP.Open(x', i) ==>
            M.LastPromise(x'.mem.base, i) ==
              if Grants(out) && out.value.iid == i then out.value.round.ballot else M.LastPromise(x.mem.base, i))
  {}

  lemma CrashMoves(x: EA.EpAcceptor, i: Iid)
    ensures var x' := EA.Crash(x).0;
      && x'.epoch == x'.disk.epoch == x.disk.epoch + 1
      && M.LastPromise(x'.mem.base, i) == INVALID_BALLOT && i !in x'.mem.base.chosen
  {}

  /** In every run the acceptor's epoch is the stored one, an open instance's promise is the ballot granted last, and an
      untrimmed instance is flagged exactly if the acceptor was told of its decision since its last crash. */
  lemma {:induction false} HistoryInEveryRun(s: Sys, es: seq<Event>, a: Aid, i: Iid)
    requires a in s.acceptors && s.acceptors[a] == EA.Boot(a)
    ensures a in Run(s, es).acceptors
    ensures var x := Run(s, es).acceptors[a];
      && x.epoch == x.disk.epoch == StoredEpoch(s, es, a)
      && (i > x.trim ==> (i in x.mem.base.chosen <==> Told(s, es, a, i)))
      && (EAP.Open(x, i) ==> M.LastPromise(x.mem.base, i) == LastGranted(s, es, a, i))
    decreases |es|
  {
    if es != [] {
      var before, e := es[..|es| - 1], es[|es| - 1];
      HistoryInEveryRun(s, before, a, i);
      var x := Run(s, before).acceptors[a];
      if Enabled(Run(s, before), e) && e.AcceptorGets? && e.a == a {
        MessageMoves(x, e.m, i);
      } else if Enabled(Run(s, before), e) && IsCrash(e, a) {
        CrashMoves(x, i);
      }
    }
  }

  // ---------------------------------------------------------------- answers

  /** (r, v) is the highest vote that a cast for i; (ZERO, []) if it cast none. */
  ghost predicate IsHighestVote(net: set<Msg>, a: Aid, i: Iid, r: Round, v: Value) {
    && (forall m | m in net && m.Accepted? && m.aid == a && m.iid == i :: RoundGe(r, m.round))
    && (Accepted(a, i, r, v) in net || ((r, v) == (ZERO, []) && !HasVoted(net, a, i)))
  }

  ghost predicate HasVoted(net: set<Msg>, a: Aid, i: Iid) {
    exists m :: m in net && m.Accepted? && m.aid == a && m.iid == i
  }

  lemma OpenVote(c: Config, net: set<Msg>, x: EA.EpAcceptor, i: Iid)
    requires NetInv(c, net) && EAP.EpOK(c, net, x) && EAP.Open(x, i)
    ensures var vote := EA.GetVote(x.mem, i);
      && IsHighestVote(net, x.id, i, EA.ReportedRound(vote), EA.ReportedValue(vote))
      && (vote.Some? <==> HasVoted(net, x.id, i))
      && (vote.Some? ==> BallotGt(vote.value.0.ballot, INVALID_BALLOT))
  {
    assert EAP.Agrees(x, i);
    var vote := EA.GetVote(x.mem, i);
    if vote.Some? {
      var m := Accepted(x.id, i, vote.value.0, vote.value.1);
      assert m in net && VotesProposed(c, net);
      var n := Accept(i, m.round, m.value);
      assert n in net && MsgOK(c, net, n);
    }
  }

  /** The lowest round still granted. */
  ghost function Floor(s: Sys, es: seq<Event>, a: Aid, i: Iid): Round {
    Round(StoredEpoch(s, es, a), LastGranted(s, es, a, i))
  }

  /** The instance is neither trimmed nor known to the acceptor to be decided. */
  ghost predicate IsOpen(s: Sys, es: seq<Event>, a: Aid, i: Iid) {
    a in s.acceptors && a in Run(s, es).acceptors && i > Run(s, es).acceptors[a].trim && !Told(s, es, a, i)
  }

  lemma OpenState(c: Config, s: Sys, es: seq<Event>, a: Aid, i: Iid)
    requires ValidConfig(c) && Init(c, s) && IsOpen(s, es, a, i)
    ensures var x := Run(s, es).acceptors[a];
      && x.id == a && EAP.Open(x, i) && EA.Floor(x, i) == Floor(s, es, a, i)
      && x.epoch == StoredEpoch(s, es, a)
      && var vote := EA.GetVote(x.mem, i);
         && IsHighestVote(Run(s, es).net, a, i, EA.ReportedRound(vote), EA.ReportedValue(vote))
         && (vote.Some? <==> HasVoted(Run(s, es).net, a, i))
         && (vote.Some? ==> BallotGt(vote.value.0.ballot, INVALID_BALLOT))
  {
    RunIsFine(c, s, es);
    HistoryInEveryRun(s, es, a, i);
    var x := Run(s, es).acceptors[a];
    assert AcceptorOK(c, Run(s, es).net, a, x);
    OpenVote(c, Run(s, es).net, x, i);
  }

  /** In every run an open instance's prepare is granted exactly when it is not below the floor, with the highest vote
      cast, and refused with the floor otherwise. A prepare that names no epoch stands for one in the stored epoch. */
  lemma PreparesInEveryRun(c: Config, s: Sys, es: seq<Event>, a: Aid, i: Iid, m: Msg)
    requires ValidConfig(c) && Init(c, s) && IsOpen(s, es, a, i)
    requires (m.Prepare? || m.StandardPrepare?) && m.iid == i
    ensures var r := if m.Prepare? then m.round else Round(StoredEpoch(s, es, a), m.ballot);
      var f, out := Floor(s, es, a, i), EA.Step(Run(s, es).acceptors[a], m).1;
      if RoundGe(r, f) then
        exists lr, lv :: out == Some(Promise(a, i, r, lr, lv)) && IsHighestVote(Run(s, es).net, a, i, lr, lv)
      else out == Some(Preempted(a, i, r, f))
  {
    OpenState(c, s, es, a, i);
  }

  /** A proposal is voted for exactly when it is not below the floor, and refused with the floor otherwise. */
  lemma AcceptsInEveryRun(c: Config, s: Sys, es: seq<Event>, a: Aid, i: Iid, r: Round, v: Value)
    requires ValidConfig(c) && Init(c, s) && IsOpen(s, es, a, i)
    ensures var f, out := Floor(s, es, a, i), EA.Step(Run(s, es).acceptors[a], Accept(i, r, v)).1;
      out == Some(if RoundGe(r, f) then Accepted(a, i, r, v) else Preempted(a, i, r, f))
  {
    OpenState(c, s, es, a, i);
  }

  /** A repetition names the highest vote, and is refused exactly if there is none. */
  lemma RepeatsInEveryRun(c: Config, s: Sys, es: seq<Event>, a: Aid, i: Iid)
    requires ValidConfig(c) && Init(c, s) && IsOpen(s, es, a, i)
    ensures var net, out := Run(s, es).net, EA.OnRepeat(Run(s, es).acceptors[a], i);
      if HasVoted(net, a, i) then
        exists r, v :: out == Some(Accepted(a, i, r, v)) && IsHighestVote(net, a, i, r, v)
      else out == None
  {
    OpenState(c, s, es, a, i);
  }

  /** What the acceptor was told is decided, it answers with the decision. */
  lemma DecisionsInEveryRun(c: Config, s: Sys, es: seq<Event>, a: Aid, i: Iid, m: Msg)
    requires ValidConfig(c) && Init(c, s) && a in s.acceptors && Told(s, es, a, i)
    requires a in Run(s, es).acceptors && i > Run(s, es).acceptors[a].trim
    requires (m.Prepare? || m.StandardPrepare? || m.Accept?) && m.iid == i
    ensures var x := Run(s, es).acceptors[a];
      IsDecision(c, Run(s, es).net, i, EA.Step(x, m).1) && IsDecision(c, Run(s, es).net, i, EA.OnRepeat(x, i))
  {
    RunIsFine(c, s, es);
    HistoryInEveryRun(s, es, a, i);
    var x := Run(s, es).acceptors[a];
    assert AcceptorOK(c, Run(s, es).net, a, x);
    assert EAP.FlagOK(c, Run(s, es).net, x, i);
    ChosenIsDecided(c, Run(s, es).net, i, EA.GetVote(x.mem, i).value.0, EA.GetVote(x.mem, i).value.1);
  }

  /** The answer is a chosen message with the decided value. */
  ghost predicate IsDecision(c: Config, net: set<Msg>, i: Iid, out: Option<Msg>) {
    out.Some? && out.value.Chosen? && out.value.iid == i && Decided(c, net, i, out.value.value)
  }

  /** An acceptor that learns the decision of i after those of all earlier instances trims itself up to i. */
  lemma SelfTrimsInEveryRun(c: Config, s: Sys, es: seq<Event>, a: Aid, i: Iid, r: Round, v: Value)
    requires ValidConfig(c) && Init(c, s) && IsOpen(s, es, a, i)
    requires forall j: Iid | 0 < j < i :: j <= Run(s, es).acceptors[a].trim || Told(s, es, a, j)
    ensures EA.Step(Run(s, es).acceptors[a], Chosen(i, r, v)).0.trim >= i
  {
    RunIsFine(c, s, es);
    var x := Run(s, es).acceptors[a];
    assert AcceptorOK(c, Run(s, es).net, a, x);
    forall j: Iid | x.trim < j <= i ensures j in x.mem.base.chosen <==> j != i { HistoryInEveryRun(s, es, a, j); }
    ChosenTrims(x, i, r, v);
  }

  lemma ChosenTrims(x: EA.EpAcceptor, i: Iid, r: Round, v: Value)
    requires x.trim < i && x.trim <= x.mem.base.minChosen
    requires forall j: Iid | x.trim < j <= i :: j in x.mem.base.chosen <==> j != i
    ensures EA.OnChosen(x, i, r, v).trim >= i
  {
    assert M.SetChosen(x.mem.base, i).minChosen >= i;
  }
}
