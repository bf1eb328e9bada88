/** Until an instance is learned chosen, the write-ahead acceptor with all its crashes behaves like an acceptor that
    syncs every promise and may raise it on its own; and it syncs far less often. */
module WriteAheadRefinement {
  import opened Types
  import opened Memory
  import WA = WriteAheadAcceptor
  import opened WriteAheadWindow

  type Acceptor = WA.WaAcceptor

  datatype Event =
    | GetsPrepare(i: Iid, b: Ballot)
    | GetsAccept(i: Iid, b: Ballot, v: Value)
    | GetsChosen(i: Iid, b: Ballot, v: Value)
    | GetsRepeat(i: Iid)
    | GetsTrim(t: Iid)
    | Renews
    | Crashes(maxInited: Iid)

  function Step(a: Acceptor, e: Event): (Acceptor, Option<Msg>) {
    match e
    case GetsPrepare(i, b) => WA.OnPrepare(a, i, b)
    case GetsAccept(i, b, v) => WA.OnAccept(a, i, b, v)
    case GetsChosen(i, b, v) => (WA.OnChosen(a, i, b, v), None)
    case GetsRepeat(i) => (a, WA.OnRepeat(a, i))
    case GetsTrim(t) => (WA.OnTrim(a, t), None)
    case Renews => (WA.Flush(a), None)
    case Crashes(n) => (WA.Crash(a, n), None)
  }

  function After(a: Acceptor, es: seq<Event>): Acceptor {
    if es == [] then a else Step(After(a, es[..|es| - 1]), es[|es| - 1]).0
  }

  /** What is answered to the k-th event. */
  function Reply(a: Acceptor, es: seq<Event>, k: nat): Option<Msg>
    requires k < |es|
  {
    Step(After(a, es[..k]), es[k]).1
  }

  // ---------------------------------------------------------------- the acceptor that syncs every promise

  /** One instance of an acceptor whose record is always on disk. */
  function Prepared(id: Aid, i: Iid, s: Record, b: Ballot): (Record, Option<Msg>) {
    if BallotGe(b, s.promise) then
      (s.(promise := b), Some(Promise(id, i, Classic(b), Classic(s.valueBallot), s.value)))
    else (s, Some(Preempted(id, i, Classic(b), Classic(s.promise))))
  }

  function Voted(id: Aid, i: Iid, s: Record, b: Ballot, v: Value): (Record, Option<Msg>) {
    if BallotGe(b, s.promise) then (Record(b, b, v), Some(Accepted(id, i, Classic(b), v)))
    else (s, Some(Preempted(id, i, Classic(b), Classic(s.promise))))
  }

  /** Asked to repeat itself, it names the vote on record. A vote at the invalid ballot under no promise, which no
      proposer asks for, may be passed over in silence. */
  ghost predicate Repeated(id: Aid, i: Iid, s: Record, out: Option<Msg>) {
    && (out.Some? ==> out.value == Accepted(id, i, Classic(s.valueBallot), s.value) && |s.value| > 0)
    && (|s.value| > 0 && BallotGt(s.promise, INVALID_BALLOT) ==> out.Some?)
  }

  /** A crash costs it nothing; its promise may rise by itself. */
  ghost predicate Raised(s: Record, s': Record) {
    s' == s.(promise := s'.promise) && BallotGe(s'.promise, s.promise)
  }

  ghost predicate SyncedStep(id: Aid, i: Iid, s: Record, e: Event, s': Record, out: Option<Msg>) {
    match e
    case GetsPrepare(j, b) => if j == i then (s', out) == Prepared(id, i, s, b) else s' == s
    case GetsAccept(j, b, v) => if j == i then (s', out) == Voted(id, i, s, b, v) else s' == s
    case GetsRepeat(j) => s' == s && (j == i ==> Repeated(id, i, s, out))
    case Crashes(_) => Raised(s, s')
    case _ => s' == s
  }

  // ---------------------------------------------------------------- refinement

  /** The events say nothing about instance i being chosen, and leave it untrimmed. */
  ghost predicate Unlearned(a: Acceptor, es: seq<Event>, i: Iid) {
    && Local(a) && i !in a.vol.chosen
    && (forall e | e in es :: !(e.GetsChosen? && e.i == i))
    && i > After(a, es).trim
  }

  /** One step of the write-ahead acceptor is one step of the syncing one, seen through the promise made. */
  lemma StepRefines(a: Acceptor, e: Event, i: Iid)
    requires Local(a) && i !in a.vol.chosen && !(e.GetsChosen? && e.i == i) && i > a.trim
    ensures SyncedStep(a.id, i, Info(a.vol, i), e, Info(Step(a, e).0.vol, i), Step(a, e).1)
    ensures i !in Step(a, e).0.vol.chosen && Step(a, e).0.id == a.id && Step(a, e).0.window == a.window
  {
    match e
    case GetsPrepare(j, b) => PrepareRefines(a, j, b, i);
    case Crashes(n) => CrashRefines(a, n, i);
    case Renews => FlushLocal(a);
    case GetsRepeat(j) => assert StoresAgree(a, i) && WindowOK(a, i);
    case _ =>
  }

  lemma PrepareRefines(a: Acceptor, j: Iid, b: Ballot, i: Iid)
    requires Local(a) && i !in a.vol.chosen && i > a.trim
    ensures var (a', out) := WA.OnPrepare(a, j, b);
      && (if j == i then (Info(a'.vol, i), out) == Prepared(a.id, i, Info(a.vol, i), b)
          else Info(a'.vol, i) == Info(a.vol, i))
      && i !in a'.vol.chosen && a'.id == a.id && a'.window == a.window
  {}

  lemma CrashRefines(a: Acceptor, n: Iid, i: Iid)
    requires Local(a) && i !in a.vol.chosen && i > a.trim
    ensures Raised(Info(a.vol, i), Info(WA.Crash(a, n).vol, i)) && i !in WA.Crash(a, n).vol.chosen
    ensures WA.Crash(a, n).id == a.id && WA.Crash(a, n).window == a.window
  {
    CrashLocal(a, n);
    CrashKeepsWindow(a, n);
    assert WindowOK(a, i);
  }

  lemma CrashKeepsWindow(a: Acceptor, n: Iid)
    requires Local(a)
    ensures WA.Crash(a, n).window == a.window
  {
    RenewStableKeeps(a.(dup := Rebuild(a.disk, a.trim), vol := Rebuild(a.disk, a.trim), flagged := []), a.trim + 1, n);
  }

  lemma {:induction false} RenewStableKeeps(a: Acceptor, from: Iid, to: Iid)
    ensures WA.RenewStable(a, from, to).window == a.window
    decreases if from <= to then to - from + 1 else 0
  {
    if from <= to {
      RenewStableKeeps(WA.WriteWindow(a, from, DiskRecord(a.disk, from).promise.number), from + 1, to);
    }
  }

  lemma StepLocal(a: Acceptor, e: Event)
    requires Local(a)
    ensures Local(Step(a, e).0)
    ensures Step(a, e).0.trim >= a.trim
    ensures !e.GetsChosen? ==> NoLower(a, Step(a, e).0)
  {
    match e
    case GetsPrepare(i, b) => PrepareLocal(a, i, b);
    case GetsAccept(i, b, v) => AcceptLocal(a, i, b, v);
    case GetsChosen(i, b, v) => ChosenLocal(a, i, b, v);
    case GetsRepeat(_) =>
    case GetsTrim(t) => TrimLocal(a, t);
    case Renews => FlushLocal(a);
    case Crashes(n) => CrashLocal(a, n);
  }

  lemma {:induction false} AfterLocal(a: Acceptor, es: seq<Event>)
    requires Local(a)
    ensures Local(After(a, es)) && After(a, es).trim >= a.trim
    decreases |es|
  {
    if es != [] {
      AfterLocal(a, es[..|es| - 1]);
      StepLocal(After(a, es[..|es| - 1]), es[|es| - 1]);
    }
  }

  /** A run that leaves i unlearned does so at every point. */
  lemma {:induction false} UnlearnedPrefix(a: Acceptor, es: seq<Event>, i: Iid, k: nat)
    requires Unlearned(a, es, i) && k <= |es|
    ensures Unlearned(a, es[..k], i)
    decreases |es|
  {
    if k < |es| {
      var init := es[..|es| - 1];
      AfterLocal(a, init);
      StepLocal(After(a, init), es[|es| - 1]);
      assert Unlearned(a, init, i);
      UnlearnedPrefix(a, init, i, k);
      assert init[..k] == es[..k];
    } else {
      assert es[..k] == es;
    }
  }

  lemma {:induction false} UnlearnedUnflagged(a: Acceptor, es: seq<Event>, i: Iid)
    requires Unlearned(a, es, i)
    ensures Local(After(a, es)) && i !in After(a, es).vol.chosen
    ensures After(a, es).id == a.id && After(a, es).window == a.window
    decreases |es|
  {
    if es != [] {
      var init := es[..|es| - 1];
      UnlearnedPrefix(a, es, i, |init|);
      UnlearnedUnflagged(a, init, i);
      StepRefines(After(a, init), es[|es| - 1], i);
      StepLocal(After(a, init), es[|es| - 1]);
    }
  }

  /** Refinement. Every reply about an instance that has not been learned chosen, at any point of any run with any
      number of crashes, is the reply of the acceptor that syncs each promise and may raise it at a crash. */
  lemma Refines(a: Acceptor, es: seq<Event>, i: Iid, k: nat)
    requires Unlearned(a, es, i) && k < |es|
    ensures SyncedStep(a.id, i, Info(After(a, es[..k]).vol, i), es[k],
                       Info(After(a, es[..k + 1]).vol, i), Reply(a, es, k))
  {
    UnlearnedPrefix(a, es, i, k);
    UnlearnedUnflagged(a, es[..k], i);
    assert es[..k + 1][..k] == es[..k];
    StepRefines(After(a, es[..k]), es[k], i);
  }

  // ---------------------------------------------------------------- no reply contradicts an earlier one

  lemma SyncedRises(id: Aid, i: Iid, s: Record, e: Event, s': Record, out: Option<Msg>)
    requires SyncedStep(id, i, s, e, s', out) && BallotGe(s.promise, s.valueBallot)
    ensures BallotGe(s'.promise, s.promise) && BallotGe(s'.valueBallot, s.valueBallot)
  {}

  /** Promises and votes only rise. */
  lemma {:induction false} RecordsRise(a: Acceptor, es: seq<Event>, i: Iid, j: nat, k: nat)
    requires Unlearned(a, es, i) && j <= k <= |es|
    ensures var s, s' := Info(After(a, es[..j]).vol, i), Info(After(a, es[..k]).vol, i);
      BallotGe(s'.promise, s.promise) && BallotGe(s'.valueBallot, s.valueBallot)
    decreases k - j
  {
    if j < k {
      RecordsRise(a, es, i, j, k - 1);
      UnlearnedPrefix(a, es, i, k - 1);
      UnlearnedUnflagged(a, es[..k - 1], i);
      assert StoresAgree(After(a, es[..k - 1]), i);
      Refines(a, es, i, k - 1);
      SyncedRises(a.id, i, Info(After(a, es[..k - 1]).vol, i), es[k - 1],
                  Info(After(a, es[..k]).vol, i), Reply(a, es, k - 1));
    }
  }

  /** A vote never goes below an earlier promise, and a promise never hides an earlier vote, whatever crashed in
      between. */
  lemma NoContradiction(a: Acceptor, es: seq<Event>, i: Iid, j: nat, k: nat)
    requires Unlearned(a, es, i) && j < k < |es|
    requires es[j].GetsPrepare? || es[j].GetsAccept?
    requires es[k].GetsPrepare? || es[k].GetsAccept?
    requires es[j].i == i && es[k].i == i
    ensures Reply(a, es, j).Some? && Reply(a, es, k).Some?
    ensures var p, m := Reply(a, es, j).value, Reply(a, es, k).value;
      && (p.Promise? && m.Accepted? ==> BallotGe(m.round.ballot, p.round.ballot))
      && (p.Accepted? && m.Promise? ==> BallotGe(m.lastRound.ballot, p.round.ballot))
      && (p.Promise? && m.Promise? ==> BallotGe(m.round.ballot, p.round.ballot))
  {
    Refines(a, es, i, j);
    Refines(a, es, i, k);
    RecordsRise(a, es, i, j + 1, k);
  }

  /** A repeated vote is at least every vote answered before. */
  lemma RepeatsLatestVote(a: Acceptor, es: seq<Event>, i: Iid, j: nat, k: nat)
    requires Unlearned(a, es, i) && j < k < |es| && es[j].GetsAccept? && es[j].i == i && es[k] == GetsRepeat(i)
    requires Reply(a, es, j) == Some(Accepted(a.id, i, Classic(es[j].b), es[j].v)) && Reply(a, es, k).Some?
    ensures Reply(a, es, k).value.Accepted? && BallotGe(Reply(a, es, k).value.round.ballot, es[j].b)
  {
    Refines(a, es, i, j);
    Refines(a, es, i, k);
    RecordsRise(a, es, i, j + 1, k);
  }

  /** From the first boot on, whatever vote is on record was cast and answered before. */
  lemma {:induction false} VoteWasCast(id: Aid, window: nat, catchup: nat, es: seq<Event>, i: Iid)
    requires Unlearned(WA.Boot(id, window, catchup), es, i)
    ensures var a := WA.Boot(id, window, catchup); var s := Info(After(a, es).vol, i);
      |s.value| > 0 ==> exists j ::
        && 0 <= j < |es|
        && es[j] == GetsAccept(i, s.valueBallot, s.value)
        && Reply(a, es, j) == Some(Accepted(id, i, Classic(s.valueBallot), s.value))
    decreases |es|
  {
    var a := WA.Boot(id, window, catchup);
    BootLocal(id, window, catchup);
    if es != [] {
      var k := |es| - 1;
      UnlearnedPrefix(a, es, i, k);
      VoteWasCast(id, window, catchup, es[..k], i);
      Refines(a, es, i, k);
      assert es[..k + 1] == es;
      var s, s' := Info(After(a, es[..k]).vol, i), Info(After(a, es).vol, i);
      if |s'.value| > 0 && (s.valueBallot, s.value) == (s'.valueBallot, s'.value) {
        var j :| 0 <= j < k && es[..k][j] == GetsAccept(i, s.valueBallot, s.value)
          && Reply(a, es[..k], j) == Some(Accepted(id, i, Classic(s.valueBallot), s.value));
        assert es[..k][..j] == es[..j];
        assert es[j] == GetsAccept(i, s'.valueBallot, s'.value) && Reply(a, es, j) == Reply(a, es[..k], j);
      } else if |s'.value| > 0 {
        assert es[k] == GetsAccept(i, s'.valueBallot, s'.value);
      }
    }
  }

  // ---------------------------------------------------------------- how often it syncs

  /** The prepare is granted above the stable promise, so a window is written before the answer. */
  predicate SyncsFor(a: Acceptor, e: Event, i: Iid) {
    && e.GetsPrepare? && e.i == i && i > a.trim && i !in a.vol.chosen
    && BallotGe(e.b, LastPromise(a.vol, i)) && BallotGt(e.b, LastPromise(a.dup, i))
  }

  /** The ballot numbers of the prepares for i that cost a disk write, in order. */
  function Writes(a: Acceptor, es: seq<Event>, i: Iid): seq<nat> {
    if es == [] then []
    else
      var init := es[..|es| - 1];
      var e := es[|es| - 1];
      Writes(a, init, i) + if SyncsFor(After(a, init), e, i) then [e.b.number] else []
  }

  ghost predicate Spaced(ws: seq<nat>, gap: nat) {
    forall k | 0 < k < |ws| :: ws[k] >= ws[k - 1] + gap
  }

  /** One step: the stable promise does not fall, and a write puts it a window above the promise. */
  lemma WriteStep(a: Acceptor, e: Event, i: Iid)
    requires Local(a) && i > a.trim && !(e.GetsChosen? && e.i == i)
    ensures var stable, stable' := LastPromise(a.dup, i), LastPromise(Step(a, e).0.dup, i);
      && BallotGe(stable', stable)
      && (SyncsFor(a, e, i) ==> stable' == WA.Ahead(e.b.number, a.window) && BallotGt(e.b, stable))
  {
    if !e.GetsChosen? { StepLocal(a, e); }
  }

  /** The writes so far are spaced, and the stable promise lies a window above the last of them. */
  ghost predicate Led(stable: Ballot, ws: seq<nat>, window: nat) {
    Spaced(ws, window + 1) && (ws != [] ==> BallotGe(stable, WA.Ahead(ws[|ws| - 1], window)))
  }

  lemma LedOn(stable: Ballot, stable': Ballot, ws: seq<nat>, window: nat)
    requires Led(stable, ws, window) && BallotGe(stable', stable)
    ensures Led(stable', ws, window)
  {}

  lemma LedWrite(stable: Ballot, ws: seq<nat>, window: nat, b: Ballot)
    requires Led(stable, ws, window) && BallotGt(b, stable)
    ensures Led(WA.Ahead(b.number, window), ws + [b.number], window)
  {}

  /** A step of a run that leaves the writes led. */
  lemma LedStep(a: Acceptor, e: Event, i: Iid, ws: seq<nat>)
    requires Local(a) && i > a.trim && !(e.GetsChosen? && e.i == i) && Led(LastPromise(a.dup, i), ws, a.window)
    ensures Led(LastPromise(Step(a, e).0.dup, i), ws + if SyncsFor(a, e, i) then [e.b.number] else [], a.window)
  {
    WriteStep(a, e, i);
    if SyncsFor(a, e, i) {
      LedWrite(LastPromise(a.dup, i), ws, a.window, e.b);
    } else {
      assert ws + [] == ws;
      LedOn(LastPromise(a.dup, i), LastPromise(Step(a, e).0.dup, i), ws, a.window);
    }
  }

  lemma {:induction false} WritesLed(a: Acceptor, es: seq<Event>, i: Iid)
    requires Unlearned(a, es, i)
    ensures Led(LastPromise(After(a, es).dup, i), Writes(a, es, i), a.window)
    decreases |es|
  {
    if es != [] {
      var init, e := es[..|es| - 1], es[|es| - 1];
      UnlearnedPrefix(a, es, i, |init|);
      UnlearnedUnflagged(a, init, i);
      WritesLed(a, init, i);
      LedStep(After(a, init), e, i, Writes(a, init, i));
    }
  }

  lemma {:induction false} SpacedFar(ws: seq<nat>, gap: nat, k: nat)
    requires Spaced(ws, gap) && k < |ws|
    ensures ws[k] >= ws[0] + k * gap
  {
    if k > 0 {
      SpacedFar(ws, gap, k - 1);
      assert k * gap == (k - 1) * gap + gap;
    }
  }

  /** The k-th promise of an instance that needs a disk write lies k windows above the first one. */
  lemma FewWrites(a: Acceptor, es: seq<Event>, i: Iid, k: nat)
    requires Unlearned(a, es, i) && k < |Writes(a, es, i)|
    ensures Writes(a, es, i)[k] >= Writes(a, es, i)[0] + k * (a.window + 1)
  {
    WritesLed(a, es, i);
    SpacedFar(Writes(a, es, i), a.window + 1, k);
  }

  /** A prepare that needs no window write does not touch the stable record. */
  lemma NoWriteNoSync(a: Acceptor, i: Iid, b: Ballot)
    requires !SyncsFor(a, GetsPrepare(i, b), i)
    ensures WA.OnPrepare(a, i, b).0.disk == a.disk
  {}
}
