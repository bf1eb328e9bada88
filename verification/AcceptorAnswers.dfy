/** What the acceptors of the protocol without epochs answer, told from the messages alone: when they promise, when
    they vote, and what exactly a refusal, a report and a repetition say. */
module AcceptorAnswers {
  import opened Types
  import opened Memory
  import opened Voting
  import opened ClassicNet
  import opened ClassicSystem
  import opened ClassicSafety
  import SA = StandardAcceptor
  import SAP = StandardAcceptorProof
  import WA = WriteAheadAcceptor
  import WAP = WriteAheadAcceptorProof
  import WW = WriteAheadWindow

  /** b is at least every ballot that acceptor a promised or voted at for instance i. */
  ghost predicate AtLeastAll(net: set<Msg>, a: Aid, i: Iid, b: Ballot) {
    forall m | m in net && (m.Promise? || m.Accepted?) && m.aid == a && m.iid == i :: BallotGe(b, m.round.ballot)
  }

  /** The highest of those ballots; the invalid one if there is none. */
  ghost predicate IsHighest(net: set<Msg>, a: Aid, i: Iid, b: Ballot) {
    AtLeastAll(net, a, i, b) && SAP.Made(net, a, i, b)
  }

  /** (r, v) is the highest vote that a cast for i; (ZERO, []) if it cast none. */
  ghost predicate IsHighestVote(net: set<Msg>, a: Aid, i: Iid, r: Round, v: Value) {
    && (forall m | m in net && m.Accepted? && m.aid == a && m.iid == i :: BallotGe(r.ballot, m.round.ballot))
    && (Accepted(a, i, r, v) in net || ((r, v) == (ZERO, []) && !HasVoted(net, a, i)))
  }

  ghost predicate HasVoted(net: set<Msg>, a: Aid, i: Iid) {
    exists m :: m in net && m.Accepted? && m.aid == a && m.iid == i
  }

  /** The instance is neither trimmed nor flagged chosen. */
  ghost predicate Open(x: SA.StdAcceptor, i: Iid) { i > x.trim && i !in x.mem.chosen }

  /** The state of a standard acceptor after a run. */
  ghost predicate IsStd(s: Sys, es: seq<Event>, a: Aid) {
    a in Run(s, es).acceptors && Run(s, es).acceptors[a].Std?
  }

  lemma RunIsFine(c: Config, s: Sys, es: seq<Event>)
    requires ValidConfig(c) && Init(c, s)
    ensures Inv(c, Run(s, es))
  {
    InitOK(c, s);
    RunKeepsInv(c, s, es);
  }

  /** The record of an open instance: its promise is the highest made, its vote the highest cast. */
  lemma OpenRecord(c: Config, net: set<Msg>, x: SA.StdAcceptor, i: Iid)
    requires NetInv(c, net) && SAP.StdOK(c, net, x) && Open(x, i)
    ensures var r := Info(x.mem, i);
      && IsHighest(net, x.id, i, r.promise)
      && (if BallotGt(r.valueBallot, INVALID_BALLOT) then Accepted(x.id, i, Classic(r.valueBallot), r.value) in net
          else r.valueBallot == INVALID_BALLOT && !HasVoted(net, x.id, i))
      && IsHighestVote(net, x.id, i, Classic(r.valueBallot),
                       if BallotGt(r.valueBallot, INVALID_BALLOT) then r.value else [])
  {
    assert SAP.Agrees(x, i);
    var r := Info(x.mem, i);
    assert SAP.RecordOK(net, x.id, i, r);
    forall m | m in net && m.Accepted? && m.aid == x.id && m.iid == i
      ensures BallotGe(r.valueBallot, m.round.ballot) && BallotGt(m.round.ballot, INVALID_BALLOT)
    {
      assert VotesProposed(c, net) && MsgOK(c, net, m);
      ProposalsAboveZero(c, net, m.iid, m.round, m.value);
    }
    if r.valueBallot != INVALID_BALLOT {
      var m := Accepted(x.id, i, Classic(r.valueBallot), r.value);
      assert m in net && BallotGt(m.round.ballot, INVALID_BALLOT);
    }
  }

  /** In every run a standard acceptor promises a ballot for an open instance exactly when it is at least every ballot
      it promised or voted at there, reporting its highest vote. Otherwise it names the highest of those ballots, which
      lies above the one asked for. */
  lemma PreparesInEveryRun(c: Config, s: Sys, es: seq<Event>, a: Aid, i: Iid, b: Ballot)
    requires ValidConfig(c) && Init(c, s) && IsStd(s, es, a) && Open(Run(s, es).acceptors[a].s, i)
    ensures var net := Run(s, es).net;
      var out := AcceptorStep(Run(s, es).acceptors[a], Prepare(i, Classic(b))).1;
      if AtLeastAll(net, a, i, b) then
        exists lr, lv :: out == Some(Promise(a, i, Classic(b), lr, lv)) && IsHighestVote(net, a, i, lr, lv)
      else
        exists h :: out == Some(Preempted(a, i, Classic(b), Classic(h))) && IsHighest(net, a, i, h) && BallotGt(h, b)
  {
    RunIsFine(c, s, es);
    assert AcceptorOK(c, Run(s, es).net, a, Run(s, es).acceptors[a]);
    OpenRecord(c, Run(s, es).net, Run(s, es).acceptors[a].s, i);
    HighestDecides(Run(s, es).net, a, i, Info(Run(s, es).acceptors[a].s.mem, i).promise, b);
  }

  lemma HighestDecides(net: set<Msg>, a: Aid, i: Iid, h: Ballot, b: Ballot)
    requires IsHighest(net, a, i, h)
    ensures AtLeastAll(net, a, i, b) <==> BallotGe(b, h)
  {
    if AtLeastAll(net, a, i, b) && h != INVALID_BALLOT {
      if lr, lv :| Promise(a, i, Classic(h), lr, lv) in net {
        var m := Promise(a, i, Classic(h), lr, lv);
        assert m in net && BallotGe(b, m.round.ballot);
      } else {
        var v :| Accepted(a, i, Classic(h), v) in net;
        var m := Accepted(a, i, Classic(h), v);
        assert m in net && BallotGe(b, m.round.ballot);
      }
    }
  }

  /** It votes under the same condition and refuses in the same way. */
  lemma AcceptsInEveryRun(c: Config, s: Sys, es: seq<Event>, a: Aid, i: Iid, b: Ballot, v: Value)
    requires ValidConfig(c) && Init(c, s) && IsStd(s, es, a) && Open(Run(s, es).acceptors[a].s, i)
    ensures var net := Run(s, es).net;
      var out := AcceptorStep(Run(s, es).acceptors[a], Accept(i, Classic(b), v)).1;
      if AtLeastAll(net, a, i, b) then out == Some(Accepted(a, i, Classic(b), v))
      else
        exists h :: out == Some(Preempted(a, i, Classic(b), Classic(h))) && IsHighest(net, a, i, h) && BallotGt(h, b)
  {
    RunIsFine(c, s, es);
    assert AcceptorOK(c, Run(s, es).net, a, Run(s, es).acceptors[a]);
    OpenRecord(c, Run(s, es).net, Run(s, es).acceptors[a].s, i);
    HighestDecides(Run(s, es).net, a, i, Info(Run(s, es).acceptors[a].s.mem, i).promise, b);
  }

  /** Asked to repeat itself on an open instance it names its highest vote, and keeps silent exactly if it cast none. */
  lemma RepeatsInEveryRun(c: Config, s: Sys, es: seq<Event>, a: Aid, i: Iid)
    requires ValidConfig(c) && Init(c, s) && IsStd(s, es, a) && Open(Run(s, es).acceptors[a].s, i)
    ensures var net := Run(s, es).net;
      var out := AcceptorRepeat(Run(s, es).acceptors[a], i);
      if HasVoted(net, a, i) then
        exists r, v :: out == Some(Accepted(a, i, r, v)) && IsHighestVote(net, a, i, r, v)
      else out == None
  {
    RunIsFine(c, s, es);
    assert AcceptorOK(c, Run(s, es).net, a, Run(s, es).acceptors[a]);
    var x := Run(s, es).acceptors[a].s;
    OpenRecord(c, Run(s, es).net, x, i);
    assert SAP.Agrees(x, i) && SAP.RecordOK(Run(s, es).net, a, i, Info(x.mem, i));
  }

  // ---------------------------------------------------------------- flags

  ghost predicate Flagged(x: Acceptor, i: Iid) {
    match x case Std(s) => i in s.mem.chosen case Wa(w) => i in w.vol.chosen
  }

  /** An instance that is flagged and not trimmed is answered with its decision, whatever was asked. */
  lemma FlaggedInEveryRun(c: Config, s: Sys, es: seq<Event>, a: Aid, i: Iid, m: Msg)
    requires ValidConfig(c) && Init(c, s) && a in Run(s, es).acceptors && m in Run(s, es).net
    requires (m.Prepare? || m.Accept?) && m.iid == i
    requires var x := Run(s, es).acceptors[a]; Flagged(x, i) && i > AcceptorTrim(x)
    ensures var x := Run(s, es).acceptors[a];
      && IsDecision(c, Run(s, es).net, i, AcceptorStep(x, m).1)
      && IsDecision(c, Run(s, es).net, i, AcceptorRepeat(x, i))
  {
    RunIsFine(c, s, es);
    var net, x := Run(s, es).net, Run(s, es).acceptors[a];
    assert AcceptorOK(c, net, a, x);
    match x
    case Std(y) => StdFlagged(c, net, y, i, m);
    case Wa(w) => WaFlagged(c, net, w, i, m);
  }

  lemma StdFlagged(c: Config, net: set<Msg>, x: SA.StdAcceptor, i: Iid, m: Msg)
    requires SAP.StdOK(c, net, x) && i in x.mem.chosen && i > x.trim && (m.Prepare? || m.Accept?) && m.iid == i
    ensures IsDecision(c, net, i, SA.Step(x, m).1) && IsDecision(c, net, i, SA.OnRepeat(x, i))
  {
    assert SAP.FlagOK(c, net, x, i);
    ChosenOKIsDecided(c, net, i, Classic(Info(x.mem, i).valueBallot), Info(x.mem, i).value);
  }

  lemma WaFlagged(c: Config, net: set<Msg>, w: WA.WaAcceptor, i: Iid, m: Msg)
    requires WAP.WaOK(c, net, w) && i in w.vol.chosen && i > w.trim && (m.Prepare? || m.Accept?) && m.iid == i
    ensures IsDecision(c, net, i, WA.Step(w, m).1) && IsDecision(c, net, i, WA.OnRepeat(w, i))
  {
    assert WAP.FlagOK(c, net, w, i) && WW.StoresAgree(w, i);
    ChosenOKIsDecided(c, net, i, Classic(LastAccept(w.vol, i).0), LastAccept(w.vol, i).1);
  }

  /** The answer is a chosen message with the decided value. */
  ghost predicate IsDecision(c: Config, net: set<Msg>, i: Iid, out: Option<Msg>) {
    out.Some? && out.value.Chosen? && out.value.iid == i && Decided(c, net, i, out.value.value)
  }

  ghost predicate IsCrash(e: Event, a: Aid) { e.AcceptorCrashes? && e.a == a }

  ghost predicate IsNews(e: Event, a: Aid, i: Iid) { e.AcceptorGets? && e.a == a && e.m.Chosen? && e.m.iid == i }

  /** The acceptor was told that the instance is chosen, and has not crashed since. */
  ghost predicate Told(s: Sys, es: seq<Event>, a: Aid, i: Iid) {
    es != [] &&
      var before, e := es[..|es| - 1], es[|es| - 1];
      if !Enabled(Run(s, before), e) then Told(s, before, a, i)
      else IsNews(e, a, i) || (Told(s, before, a, i) && !IsCrash(e, a))
  }

  /** Acceptor a after one event. */
  ghost function Moved(x: Acceptor, a: Aid, e: Event): Acceptor {
    match e
    case AcceptorGets(b, m) => if b == a then AcceptorStep(x, m).0 else x
    case AcceptorCrashes(b, n) => if b == a then AcceptorCrash(x, n) else x
    case AcceptorRenews(b) => if b == a then AcceptorRenew(x) else x
    case _ => x
  }

  lemma ApplyMoves(s: Sys, e: Event, a: Aid)
    requires a in s.acceptors && Enabled(s, e)
    ensures a in Apply(s, e).acceptors && Apply(s, e).acceptors[a] == Moved(s.acceptors[a], a, e)
  {}

  /** What one event does to the flag of an untrimmed instance. */
  ghost predicate FlagMoves(x: Acceptor, x': Acceptor, i: Iid, news: bool, crash: bool) {
    && (AcceptorTrim(x') >= AcceptorTrim(x) || crash)
    && (i > AcceptorTrim(x') ==> (Flagged(x', i) <==> news || (Flagged(x, i) && !crash)))
  }

  lemma MessageMovesFlag(x: Acceptor, m: Msg, i: Iid)
    ensures FlagMoves(x, AcceptorStep(x, m).0, i, m.Chosen? && m.iid == i, false)
  {}

  lemma CrashMovesFlag(c: Config, net: set<Msg>, a: Aid, x: Acceptor, n: Iid, i: Iid)
    requires AcceptorOK(c, net, a, x)
    ensures FlagMoves(x, AcceptorCrash(x, n), i, false, true)
    ensures FlagMoves(x, AcceptorRenew(x), i, false, false)
  {
    if x.Wa? {
      WW.CrashLocal(x.w, n);
      WW.FlushLocal(x.w);
    }
  }

  /** One event: a chosen message flags its instance, a crash clears the flags, and nothing else touches those of
      untrimmed instances. */
  lemma EventMovesFlag(c: Config, net: set<Msg>, x: Acceptor, e: Event, a: Aid, i: Iid)
    requires AcceptorOK(c, net, a, x)
    ensures FlagMoves(x, Moved(x, a, e), i, IsNews(e, a, i), IsCrash(e, a))
  {
    match e
    case AcceptorGets(_, m) => MessageMovesFlag(x, m, i);
    case AcceptorCrashes(_, n) => CrashMovesFlag(c, net, a, x, n, i);
    case _ => CrashMovesFlag(c, net, a, x, 0, i);
  }

  /** In every run an untrimmed instance is flagged exactly if the acceptor was told of its decision since its last
      crash. */
  lemma {:induction false} FlagsInEveryRun(c: Config, s: Sys, es: seq<Event>, a: Aid, i: Iid)
    requires ValidConfig(c) && Init(c, s) && a in s.acceptors
    ensures a in Run(s, es).acceptors
    ensures i > AcceptorTrim(Run(s, es).acceptors[a]) ==> (Flagged(Run(s, es).acceptors[a], i) <==> Told(s, es, a, i))
    decreases |es|
  {
    if es != [] {
      var before, e := es[..|es| - 1], es[|es| - 1];
      FlagsInEveryRun(c, s, before, a, i);
      RunIsFine(c, s, before);
      if Enabled(Run(s, before), e) {
        ApplyMoves(Run(s, before), e, a);
        EventMovesFlag(c, Run(s, before).net, Run(s, before).acceptors[a], e, a, i);
      }
    }
  }

  // ---------------------------------------------------------------- trim points

  /** A standard acceptor that learns the decision of i after those of all earlier instances trims itself up to i. */
  lemma SelfTrimsInEveryRun(c: Config, s: Sys, es: seq<Event>, a: Aid, i: Iid, r: Round, v: Value)
    requires ValidConfig(c) && Init(c, s) && a in s.acceptors && IsStd(s, es, a) && !Told(s, es, a, i)
    requires forall j: Iid | 0 < j < i :: j <= Run(s, es).acceptors[a].s.trim || Told(s, es, a, j)
    ensures AcceptorTrim(AcceptorStep(Run(s, es).acceptors[a], Chosen(i, r, v)).0) >= i
  {
    RunIsFine(c, s, es);
    var x := Run(s, es).acceptors[a].s;
    assert AcceptorOK(c, Run(s, es).net, a, Std(x));
    if i > x.trim {
      forall j: Iid | x.trim < j <= i ensures j in x.mem.chosen <==> j != i { FlagsInEveryRun(c, s, es, a, j); }
      ChosenTrims(x, i, r.ballot, v);
    }
  }

  lemma ChosenTrims(x: SA.StdAcceptor, i: Iid, b: Ballot, v: Value)
    requires x.trim < i && x.trim <= x.mem.minChosen
    requires forall j: Iid | x.trim < j <= i :: j in x.mem.chosen <==> j != i
    ensures SA.OnChosen(x, i, b, v).trim >= i
  {
    assert SetChosen(x.mem, i).minChosen >= i;
  }

  /** The largest trim point that acceptor a was ever sent. */
  ghost function HighestTrim(s: Sys, es: seq<Event>, a: Aid): Iid {
    if es == [] then 0
    else
      var before, e := es[..|es| - 1], es[|es| - 1];
      var t := HighestTrim(s, before, a);
      if Enabled(Run(s, before), e) && e.AcceptorGets? && e.a == a && e.m.Trim? then Max(t, e.m.iid) else t
  }

  lemma WaTrimMoves(c: Config, net: set<Msg>, x: Acceptor, e: Event, a: Aid)
    requires AcceptorOK(c, net, a, x) && x.Wa?
    ensures var x' := Moved(x, a, e);
      && x'.Wa?
      && x'.w.trim == if e.AcceptorGets? && e.a == a && e.m.Trim? then Max(x.w.trim, e.m.iid) else x.w.trim
  {
    match e
    case AcceptorGets(_, m) => WaMessageTrim(x.w, m);
    case AcceptorCrashes(_, n) => WaInternalTrim(x.w, n);
    case _ => WaInternalTrim(x.w, 0);
  }

  lemma WaMessageTrim(w: WA.WaAcceptor, m: Msg)
    ensures WA.Step(w, m).0.trim == if m.Trim? then Max(w.trim, m.iid) else w.trim
  {}

  lemma WaInternalTrim(w: WA.WaAcceptor, n: Iid)
    requires WW.Local(w)
    ensures WA.Crash(w, n).trim == WA.Flush(w).trim == w.trim
  {
    WW.FlushLocal(w);
    WW.CrashLocal(w, n);
  }

  /** A write-ahead acceptor's trim point is the largest it was ever sent, crashes or not. */
  lemma {:induction false} WaTrimsInEveryRun(c: Config, s: Sys, es: seq<Event>, a: Aid)
    requires ValidConfig(c) && Init(c, s) && a in s.acceptors && s.acceptors[a].Wa?
    ensures a in Run(s, es).acceptors && Run(s, es).acceptors[a].Wa?
    ensures Run(s, es).acceptors[a].w.trim == HighestTrim(s, es, a)
    decreases |es|
  {
    if es == [] {
      var w, k :| s.acceptors[a] == Wa(WA.Boot(a, w, k));
    } else {
      var before, e := es[..|es| - 1], es[|es| - 1];
      WaTrimsInEveryRun(c, s, before, a);
      RunIsFine(c, s, before);
      if Enabled(Run(s, before), e) {
        ApplyMoves(Run(s, before), e, a);
        WaTrimMoves(c, Run(s, before).net, Run(s, before).acceptors[a], e, a);
      }
    }
  }
}
