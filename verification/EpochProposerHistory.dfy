/** What an epoch proposer knows about an instance, told from what it received: the epoch it has arrived at, whom it
    counted there, and what it must announce or ask for. */
module EpochProposerHistory {
  import opened Types
  import opened Voting
  import opened EpochNet
  import opened EpochSystem
  import opened EpochSafety
  import EP = EpochProposer
  import EPP = EpochProposerProof
  import SP = StandardProposer

  // ---------------------------------------------------------------- histories

  /** The messages proposer p received, in order. */
  ghost function Got(s: Sys, es: seq<Event>, p: Pid): seq<Msg> {
    if es == [] then []
    else
      var before, e := es[..|es| - 1], es[|es| - 1];
      var got := Got(s, before, p);
      if Enabled(Run(s, before), e) && e.ProposerGets? && e.p == p then got + [e.m] else got
  }

  /** The instances it started. */
  ghost function Started(s: Sys, es: seq<Event>, p: Pid): set<Iid> {
    if es == [] then {}
    else
      var before, e := es[..|es| - 1], es[|es| - 1];
      var started := Started(s, before, p);
      if Enabled(Run(s, before), e) && e.ProposerStarts? && e.p == p && p in Run(s, before).proposers
      then started + {Run(s, before).proposers[p].next} else started
  }

  /** What was received since phase 1 of an instance was opened at its ballot, and the epoch it was opened with. */
  datatype Since = Since(got: seq<Msg>, epoch: nat)

  /** Phase 1 of instance i is opened, or opened again at another ballot. */
  predicate Opens(x: EP.Proposer, x': EP.Proposer, i: Iid) {
    i in x'.prepare && (i !in x.prepare || x.prepare[i].ballot != x'.prepare[i].ballot)
  }

  function Next(h: Since, x: EP.Proposer, x': EP.Proposer, i: Iid, m: Option<Msg>): Since {
    if Opens(x, x', i) then Since([], x'.prepare[i].epoch)
    else if m.Some? then h.(got := h.got + [m.value]) else h
  }

  ghost function SinceOpened(s: Sys, es: seq<Event>, p: Pid, i: Iid): Since {
    if es == [] then Since([], 0)
    else
      var before, e := es[..|es| - 1], es[|es| - 1];
      var s', h := Run(s, before), SinceOpened(s, before, p, i);
      if Enabled(s', e) && p in s'.proposers && p in Apply(s', e).proposers then
        Next(h, s'.proposers[p], Apply(s', e).proposers[p], i, if e.ProposerGets? && e.p == p then Some(e.m) else None)
      else h
  }

  /** The highest epoch that a promise of ballot b, or a preemption of the round then current, has named. */
  function Epoch(h: Since, i: Iid, b: Ballot): nat
    decreases |h.got|
  {
    if h.got == [] then h.epoch
    else
      var e, m := Epoch(h.(got := h.got[..|h.got| - 1]), i, b), h.got[|h.got| - 1];
      if m.Promise? && m.iid == i && m.round.ballot == b then Max(e, m.round.epoch)
      else if m.Preempted? && m.iid == i && m.attempted.ballot == b && (m.attempted.epoch == e || e == 0) then
        Max(e, m.current.epoch)
      else e
  }

  /** That epoch has risen above the first one known. */
  predicate Risen(h: Since, i: Iid, b: Ballot)
    decreases |h.got|
  {
    h.got != [] &&
      var h' := h.(got := h.got[..|h.got| - 1]);
      Risen(h', i, b) || (Epoch(h', i, b) > 0 && Epoch(h, i, b) > Epoch(h', i, b))
  }

  /** The acceptors whose promises of round r arrived. */
  function Promisers(got: seq<Msg>, i: Iid, r: Round): set<Aid> {
    set m | m in got && m.Promise? && m.iid == i && m.round == r :: m.aid
  }

  /** The acceptors whose votes at round r arrived. */
  function Voters(got: seq<Msg>, i: Iid, r: Round): set<Aid> {
    set m | m in got && m.Accepted? && m.iid == i && m.round == r :: m.aid
  }

  ghost predicate WasReported(got: seq<Msg>, i: Iid, b: Ballot, lr: Round, lv: Value) {
    exists m :: m in got && m.Promise? && m.iid == i && m.round.ballot == b && m.lastRound == lr && m.lastValue == lv
  }

  // ---------------------------------------------------------------- what the tables tell

  predicate Live(p: EP.Proposer, i: Iid) { i > p.trim && i !in p.chosens }

  /** Phase 1: the epoch is the highest named, the quorum the acceptors that promised there, the report one that was
      given, and the prepare of a round that rose is on its way. */
  ghost predicate PreparingTells(net: set<Msg>, h: Since, i: Iid, inst: EP.Inst) {
    && inst.epoch == Epoch(h, i, inst.ballot)
    && inst.quorum == Promisers(h.got, i, EP.Current(inst))
    && (inst.lastValue.Some? ==> WasReported(h.got, i, inst.ballot, inst.lastRound, inst.lastValue.value))
    && (h.epoch > 0 || Risen(h, i, inst.ballot) ==> Prepare(i, EP.Current(inst)) in net)
    && (inst.epoch == 0 ==> StandardPrepare(i, inst.ballot) in net)
  }

  ghost predicate InstTells(c: Config, net: set<Msg>, got: seq<Msg>, h: Since, started: set<Iid>, p: EP.Proposer,
        i: Iid)
  {
    && (i in p.prepare ==>
          i in started && p.prepare[i].same < c.q2 && (Live(p, i) ==> PreparingTells(net, h, i, p.prepare[i])))
    && (i in p.accept ==>
          && i in started && |p.accept[i].quorum| < c.q2
          && (Live(p, i) ==> p.accept[i].quorum == Voters(got, i, EP.Current(p.accept[i]))))
    && (i in started && Live(p, i) ==> i in p.prepare || i in p.accept)
  }

  /** The largest chosen instance is known, and the counter is not behind the trim point. */
  ghost predicate CountersTell(p: EP.Proposer) {
    && (forall i | i in p.chosens :: i <= p.maxChosen) && (p.maxChosen == 0 || p.maxChosen in p.chosens)
    && p.trim <= p.next
  }

  /** What was received about closed instances and about epochs was taken in, the largest chosen instance is known, and
      the counter is not behind the trim point. */
  ghost predicate ClosedTells(got: seq<Msg>, p: EP.Proposer) {
    && (forall m | m in got && m.Chosen? :: m.iid in p.chosens)
    && (forall m | m in got && m.Trim? :: m.iid <= p.trim)
    && (forall m | m in got && m.NewEpoch? :: m.epoch <= p.highestEpoch)
    && CountersTell(p)
  }

  // ---------------------------------------------------------------- one more message

  /** The message is about instance i and closes nothing. */
  predicate About(m: Msg, i: Iid) { (m.Promise? || m.Accepted? || m.Preempted?) && m.iid == i }

  function Plus(h: Since, m: Msg): Since { h.(got := h.got + [m]) }

  lemma EpochGrows(h: Since, m: Msg, i: Iid, b: Ballot)
    ensures var e := Epoch(h, i, b);
      Epoch(Plus(h, m), i, b) ==
        if m.Promise? && m.iid == i && m.round.ballot == b then Max(e, m.round.epoch)
        else if m.Preempted? && m.iid == i && m.attempted.ballot == b && (m.attempted.epoch == e || e == 0) then
          Max(e, m.current.epoch)
        else e
    ensures Risen(Plus(h, m), i, b) <==>
      Risen(h, i, b) || (Epoch(h, i, b) > 0 && Epoch(Plus(h, m), i, b) > Epoch(h, i, b))
  {
    assert (h.got + [m])[..|h.got|] == h.got;
    assert h.(got := h.got) == h;
  }

  lemma PromisersGrow(got: seq<Msg>, m: Msg, i: Iid, r: Round)
    ensures Promisers(got + [m], i, r) ==
      Promisers(got, i, r) + if m.Promise? && m.iid == i && m.round == r then {m.aid} else {}
  {
    assert forall n :: n in got + [m] <==> n in got || n == m;
  }

  lemma VotersGrow(got: seq<Msg>, m: Msg, i: Iid, r: Round)
    ensures Voters(got + [m], i, r) ==
      Voters(got, i, r) + if m.Accepted? && m.iid == i && m.round == r then {m.aid} else {}
  {
    assert forall n :: n in got + [m] <==> n in got || n == m;
  }

  /** No promise of the ballot names a higher epoch, so nobody has promised above it. */
  lemma {:induction false} NobodyAbove(h: Since, i: Iid, b: Ballot, e: nat)
    requires e > Epoch(h, i, b)
    ensures Promisers(h.got, i, Round(e, b)) == {}
    decreases |h.got|
  {
    if h.got != [] {
      var h', m := h.(got := h.got[..|h.got| - 1]), h.got[|h.got| - 1];
      assert h.got == h'.got + [m];
      NobodyAbove(h', i, b, e);
      PromisersGrow(h'.got, m, i, Round(e, b));
    }
  }

  lemma ReportedGrows(got: seq<Msg>, m: Msg, i: Iid, b: Ballot, lr: Round, lv: Value)
    requires WasReported(got, i, b, lr, lv)
    ensures WasReported(got + [m], i, b, lr, lv)
  {
    var n :| n in got && n.Promise? && n.iid == i && n.round.ballot == b && n.lastRound == lr && n.lastValue == lv;
    assert n in got + [m];
  }

  lemma {:induction false} UnknownEpoch(h: Since, i: Iid, b: Ballot)
    ensures Epoch(h, i, b) >= h.epoch
    ensures Epoch(h, i, b) == 0 ==> h.epoch == 0 && !Risen(h, i, b)
    decreases |h.got|
  {
    if h.got != [] { UnknownEpoch(h.(got := h.got[..|h.got| - 1]), i, b); }
  }

  // ---------------------------------------------------------------- the record of an instance in phase 1

  /** The message does not change the record. */
  predicate NoEffect(m: Msg, i: Iid, inst: EP.Inst) {
    && (m.Promise? && m.iid == i && m.round.ballot == inst.ballot ==>
          m.round.epoch < inst.epoch || (m.round == EP.Current(inst) && m.aid in inst.quorum))
    && (m.Preempted? && m.iid == i && EP.IsCurrent(inst, m.attempted) ==> m.current.epoch <= inst.epoch)
  }

  lemma NoEffectTells(net: set<Msg>, net': set<Msg>, h: Since, m: Msg, i: Iid, inst: EP.Inst)
    requires PreparingTells(net, h, i, inst) && net <= net' && NoEffect(m, i, inst)
    ensures PreparingTells(net', Plus(h, m), i, inst)
  {
    EpochGrows(h, m, i, inst.ballot);
    PromisersGrow(h.got, m, i, EP.Current(inst));
    if inst.lastValue.Some? { ReportedGrows(h.got, m, i, inst.ballot, inst.lastRound, inst.lastValue.value); }
  }

  /** The report of a counted promise is taken over or the old one kept. */
  lemma ReportTells(got: seq<Msg>, m: Msg, i: Iid, inst: EP.Inst)
    requires m.Promise? && m.iid == i && m.round.ballot == inst.ballot
    requires inst.lastValue.Some? ==> WasReported(got, i, inst.ballot, inst.lastRound, inst.lastValue.value)
    ensures var inst' := EP.HandleReport(inst, m.lastRound, m.lastValue);
      inst'.lastValue.Some? ==> WasReported(got + [m], i, inst.ballot, inst'.lastRound, inst'.lastValue.value)
  {
    assert m in got + [m];
    if inst.lastValue.Some? { ReportedGrows(got, m, i, inst.ballot, inst.lastRound, inst.lastValue.value); }
  }

  /** A promise of the round then current, or of the first epoch named, is counted. */
  lemma CountTells(net: set<Msg>, h: Since, m: Msg, i: Iid, inst: EP.Inst)
    requires PreparingTells(net, h, i, inst) && m.Promise? && m.iid == i && m.round.epoch > 0
    requires EP.IsCurrent(inst, m.round) && m.aid !in inst.quorum && (inst.epoch == 0 ==> inst.quorum == {})
    ensures var inst1 := inst.(epoch := m.round.epoch, quorum := inst.quorum + {m.aid});
      PreparingTells(net, Plus(h, m), i, EP.HandleReport(inst1, m.lastRound, m.lastValue))
  {
    var inst1 := inst.(epoch := m.round.epoch, quorum := inst.quorum + {m.aid});
    EpochGrows(h, m, i, inst.ballot);
    UnknownEpoch(h, i, inst.ballot);
    PromisersGrow(h.got, m, i, m.round);
    if inst.epoch == 0 { NobodyAbove(h, i, inst.ballot, m.round.epoch); }
    ReportTells(h.got, m, i, inst1);
  }

  /** A promise in a higher epoch moves the instance there, counts, and asks everyone to follow. */
  lemma FollowTells(net: set<Msg>, net': set<Msg>, h: Since, m: Msg, i: Iid, inst: EP.Inst)
    requires PreparingTells(net, h, i, inst) && net <= net' && m.Promise? && m.iid == i
    requires m.round.ballot == inst.ballot && m.round.epoch > inst.epoch > 0 && Prepare(i, m.round) in net'
    ensures var inst1 := EP.AdoptEpoch(inst, m.round.epoch).(quorum := {m.aid});
      PreparingTells(net', Plus(h, m), i, EP.HandleReport(inst1, m.lastRound, m.lastValue))
  {
    var inst1 := EP.AdoptEpoch(inst, m.round.epoch).(quorum := {m.aid});
    EpochGrows(h, m, i, inst.ballot);
    PromisersGrow(h.got, m, i, m.round);
    NobodyAbove(h, i, inst.ballot, m.round.epoch);
    ReportTells(h.got, m, i, inst1);
  }

  /** A preemption by a higher epoch alone moves the instance there with an empty quorum. */
  lemma AdoptTells(net: set<Msg>, net': set<Msg>, h: Since, m: Msg, i: Iid, inst: EP.Inst)
    requires PreparingTells(net, h, i, inst) && net <= net' && m.Preempted? && m.iid == i
    requires EP.IsCurrent(inst, m.attempted) && m.current.epoch > inst.epoch
    requires Prepare(i, Round(m.current.epoch, inst.ballot)) in net'
    ensures PreparingTells(net', Plus(h, m), i, EP.AdoptEpoch(inst, m.current.epoch))
  {
    EpochGrows(h, m, i, inst.ballot);
    PromisersGrow(h.got, m, i, Round(m.current.epoch, inst.ballot));
    NobodyAbove(h, i, inst.ballot, m.current.epoch);
    if inst.lastValue.Some? { ReportedGrows(h.got, m, i, inst.ballot, inst.lastRound, inst.lastValue.value); }
  }

  /** A phase 1 just opened. */
  lemma FreshTells(net: set<Msg>, i: Iid, inst: EP.Inst)
    requires inst.quorum == {} && inst.lastValue.None? && EP.PrepareMsg(i, inst) in net
    ensures PreparingTells(net, Since([], inst.epoch), i, inst)
  {}

  // ---------------------------------------------------------------- steps that leave an instance alone

  /** p' has the entries of p for instance i, unless it has closed the instance. */
  ghost predicate SameEntry(p: EP.Proposer, p': EP.Proposer, i: Iid) {
    && (i in p'.prepare ==> i in p.prepare && p'.prepare[i] == p.prepare[i])
    && (i in p'.accept ==> i in p.accept && p'.accept[i] == p.accept[i])
    && (Live(p', i) ==> Live(p, i) && (i in p.prepare <==> i in p'.prepare) && (i in p.accept <==> i in p'.accept))
  }

  /** The message changes neither record of the instance. */
  predicate Ineffective(m: Msg, i: Iid, p: EP.Proposer) {
    && (i in p.prepare ==> NoEffect(m, i, p.prepare[i]))
    && (i in p.accept && m.Accepted? && m.iid == i ==>
          m.round != EP.Current(p.accept[i]) || m.aid in p.accept[i].quorum)
  }

  lemma KeptTells(c: Config, net: set<Msg>, net': set<Msg>, got: seq<Msg>, h: Since, started: set<Iid>,
        p: EP.Proposer, p': EP.Proposer, i: Iid, m: Msg)
    requires InstTells(c, net, got, h, started, p, i) && net <= net' && SameEntry(p, p', i)
    requires Live(p', i) ==> Ineffective(m, i, p)
    ensures InstTells(c, net', got + [m], Next(h, p, p', i, Some(m)), started, p', i)
  {
    if Live(p', i) && i in p.prepare { NoEffectTells(net, net', h, m, i, p.prepare[i]); }
    if Live(p', i) && i in p.accept { VotersGrow(got, m, i, EP.Current(p.accept[i])); }
  }

  lemma TrimShape(p: EP.Proposer, t: Iid, i: Iid)
    ensures var p' := EP.OnTrim(p, t);
      && SameEntry(p, p', i) && p'.chosens == p.chosens && p'.trim == Max(p.trim, t)
      && p'.highestEpoch == p.highestEpoch && (CountersTell(p) ==> CountersTell(p'))
  {}

  lemma ChosenShape(p: EP.Proposer, j: Iid, r: Round, i: Iid)
    ensures var p' := EP.OnChosen(p, j, r);
      && SameEntry(p, p', i) && p'.chosens == p.chosens + {j} && p'.trim >= p.trim && p'.highestEpoch >= p.highestEpoch
      && (j !in p.chosens ==> j !in p'.prepare && j !in p'.accept)
      && (CountersTell(p) ==> CountersTell(p'))
  {
    if j in p.chosens {
      assert p.chosens + {j} == p.chosens;
    } else {
      var p1 := p.(chosens := p.chosens + {j}, maxChosen := Max(j, p.maxChosen),
                   highestEpoch := Max(r.epoch, p.highestEpoch),
                   accept := p.accept - {j}, prepare := p.prepare - {j});
      TrimShape(p1, j, i);
      assert SameEntry(p, p1, i);
    }
  }

  /** What counting a promise of the current round comes to. */
  lemma CountShape(p: EP.Proposer, a: Aid, j: Iid, r: Round, lr: Round, lv: Value)
    requires j in p.prepare && j !in p.accept && EP.IsCurrent(p.prepare[j], r) && a !in p.prepare[j].quorum
    requires p.q2 > 0 && Live(p, j)
    ensures var inst := p.prepare[j];
      var inst' := EP.HandleReport(inst.(epoch := r.epoch, quorum := inst.quorum + {a}), lr, lv);
      var (p', out) := EP.Count(p, a, j, r, lr, lv);
      if inst'.same >= p.q2 && inst'.lastValue.Some? then
        && j in p'.chosens && j !in p'.prepare && j !in p'.accept && p.trim <= p'.trim && p.chosens <= p'.chosens
        && out == Some(Chosen(j, inst'.lastRound, inst'.lastValue.value))
      else
        && p' == p.(prepare := p.prepare[j := inst'], highestEpoch := Max(r.epoch, p.highestEpoch)) && out == None
  {
    var inst := p.prepare[j];
    var inst' := EP.HandleReport(inst.(epoch := r.epoch, quorum := inst.quorum + {a}), lr, lv);
    var p1 := p.(prepare := p.prepare[j := inst'], highestEpoch := Max(r.epoch, p.highestEpoch));
    ChosenShape(p1, j, inst'.lastRound, j);
  }

  /** Counting promises for one instance leaves the entries of the others alone, unless it closes them. */
  lemma CountOther(p: EP.Proposer, a: Aid, j: Iid, r: Round, lr: Round, lv: Value, i: Iid)
    requires j in p.prepare && i != j
    ensures var p' := EP.Count(p, a, j, r, lr, lv).0;
      && SameEntry(p, p', i) && p.trim <= p'.trim && p.chosens <= p'.chosens && p.highestEpoch <= p'.highestEpoch
      && (CountersTell(p) ==> CountersTell(p'))
  {
    var inst := if p.prepare[j].epoch == 0 then p.prepare[j].(epoch := r.epoch) else p.prepare[j];
    var inst' := EP.HandleReport(inst.(quorum := inst.quorum + {a}), lr, lv);
    var p1 := p.(prepare := p.prepare[j := inst'], highestEpoch := Max(r.epoch, p.highestEpoch));
    ChosenShape(p1, j, inst'.lastRound, i);
  }

  /** A message that is not about the instance. */
  lemma StepOther(p: EP.Proposer, m: Msg, b: Ballot, i: Iid)
    requires !About(m, i)
    ensures SameEntry(p, EP.Step(p, m, b).0, i)
  {
    match m
    case Promise(a, j, r, lr, lv) => PromiseOther(p, a, j, r, lr, lv, i);
    case Accepted(a, j, r, v) => VoteOther(p, a, j, r, v, i);
    case Chosen(j, r, _) => ChosenShape(p, j, r, i);
    case Trim(t) => TrimShape(p, t, i);
    case _ =>
  }

  lemma PromiseOther(p: EP.Proposer, a: Aid, j: Iid, r: Round, lr: Round, lv: Value, i: Iid)
    requires i != j
    ensures SameEntry(p, EP.OnPromise(p, a, j, r, lr, lv).0, i)
  {
    if Live(p, j) && j in p.prepare {
      var p1 := p.(prepare := p.prepare[j := EP.AdoptEpoch(p.prepare[j], r.epoch)],
                   highestEpoch := Max(r.epoch, p.highestEpoch));
      CountOther(p, a, j, r, lr, lv, i);
      CountOther(p1, a, j, r, lr, lv, i);
    }
  }

  lemma VoteOther(p: EP.Proposer, a: Aid, j: Iid, r: Round, v: Value, i: Iid)
    requires i != j
    ensures SameEntry(p, EP.OnAccepted(p, a, j, r, v).0, i)
  {
    if j in p.accept {
      var p1 := p.(accept := p.accept[j := p.accept[j].(quorum := p.accept[j].quorum + {a})]);
      ChosenShape(p1, j, r, i);
    }
  }

  // ---------------------------------------------------------------- promises

  lemma NoReportNoCount(c: Config, net: set<Msg>, id: Pid, i: Iid, inst: EP.Inst)
    requires EPP.PreparingOK(c, net, id, i, inst)
    ensures inst.lastValue.None? ==> inst.same == 0 && inst.lastRound == ZERO
  {
    var rep :| EPP.Tally(net, i, inst, rep);
    assert inst.lastRound == ZERO ==> EPP.Reporters(inst, rep) == {};
  }

  /** After a promise the instance is closed, with q2 equal reports, or its record is the one counted. */
  lemma CountedTells(c: Config, net: set<Msg>, net': set<Msg>, got: seq<Msg>, h: Since, started: set<Iid>,
        p: EP.Proposer, p1: EP.Proposer, m: Msg)
    requires m.Promise? && InstTells(c, net, got, h, started, p, m.iid) && m.iid in p.prepare && Live(p, m.iid)
    requires m.iid in p1.prepare && m.iid !in p.accept && p.q2 == c.q2 > 0
    requires p1 == p.(prepare := p.prepare[m.iid := p1.prepare[m.iid]], highestEpoch := p1.highestEpoch)
    requires var inst := p1.prepare[m.iid];
      && inst.ballot == p.prepare[m.iid].ballot && EP.IsCurrent(inst, m.round) && m.aid !in inst.quorum
      && (inst.lastValue.None? ==> inst.same == 0 && inst.lastRound == ZERO)
      && PreparingTells(net', Plus(h, m), m.iid,
           EP.HandleReport(inst.(epoch := m.round.epoch, quorum := inst.quorum + {m.aid}), m.lastRound, m.lastValue))
    ensures var p' := EP.Count(p1, m.aid, m.iid, m.round, m.lastRound, m.lastValue).0;
      InstTells(c, net', got + [m], Next(h, p, p', m.iid, Some(m)), started, p', m.iid)
  {
    CountShape(p1, m.aid, m.iid, m.round, m.lastRound, m.lastValue);
  }

  lemma PromiseTells(c: Config, net: set<Msg>, got: seq<Msg>, h: Since, started: set<Iid>, p: EP.Proposer, m: Msg)
    requires ValidConfig(c) && NetInv(c, net) && EPP.ProposerOK(c, net, p)
    requires m in net && m.Promise? && m.round.ballot.proposer == p.id
    requires InstTells(c, net, got, h, started, p, m.iid)
    ensures var (p', out) := EP.OnPromise(p, m.aid, m.iid, m.round, m.lastRound, m.lastValue);
      InstTells(c, net + ToSet(out), got + [m], Next(h, p, p', m.iid, Some(m)), started, p', m.iid)
  {
    var i := m.iid;
    if !Live(p, i) || i !in p.prepare || EP.IsOutdated(p.prepare[i], m.round) {
      KeptTells(c, net, net + {}, got, h, started, p, p, i, m);
    } else {
      var inst := p.prepare[i];
      assert EPP.PreparingOK(c, net, p.id, i, inst);
      EPP.PromiseBallot(c, net, p.id, i, inst, m);
      NoReportNoCount(c, net, p.id, i, inst);
      if EP.IsCurrent(inst, m.round) {
        CurrentPromise(c, net, got, h, started, p, m);
      } else {
        HigherPromise(c, net, got, h, started, p, m);
      }
    }
  }

  lemma CurrentPromise(c: Config, net: set<Msg>, got: seq<Msg>, h: Since, started: set<Iid>, p: EP.Proposer, m: Msg)
    requires m.Promise? && InstTells(c, net, got, h, started, p, m.iid) && m.iid in p.prepare && m.iid !in p.accept
    requires Live(p, m.iid) && p.q2 == c.q2 > 0 && MsgOK(c, net, m)
    requires var inst := p.prepare[m.iid];
      && EP.IsCurrent(inst, m.round) && (inst.epoch == 0 ==> inst.quorum == {})
      && (inst.lastValue.None? ==> inst.same == 0 && inst.lastRound == ZERO)
    ensures var (p', out) := EP.Count(p, m.aid, m.iid, m.round, m.lastRound, m.lastValue);
      InstTells(c, net + ToSet(out), got + [m], Next(h, p, p', m.iid, Some(m)), started, p', m.iid)
  {
    var i, inst := m.iid, p.prepare[m.iid];
    var (p', out) := EP.Count(p, m.aid, i, m.round, m.lastRound, m.lastValue);
    var net' := net + ToSet(out);
    if m.aid in inst.quorum {
      assert p' == p.(prepare := p.prepare[i := inst]) && p.prepare[i := inst] == p.prepare;
      KeptTells(c, net, net', got, h, started, p, p, i, m);
    } else {
      NetGrows(net, net', h, i, inst);
      CountTells(net', h, m, i, inst);
      CountedTells(c, net, net', got, h, started, p, p, m);
    }
  }

  lemma NetGrows(net: set<Msg>, net': set<Msg>, h: Since, i: Iid, inst: EP.Inst)
    requires PreparingTells(net, h, i, inst) && net <= net'
    ensures PreparingTells(net', h, i, inst)
  {}

  lemma HigherPromise(c: Config, net: set<Msg>, got: seq<Msg>, h: Since, started: set<Iid>, p: EP.Proposer, m: Msg)
    requires m.Promise? && InstTells(c, net, got, h, started, p, m.iid) && m.iid in p.prepare && m.iid !in p.accept
    requires Live(p, m.iid) && p.q2 == c.q2 > 0
    requires var inst := p.prepare[m.iid];
      && m.round.ballot == inst.ballot && m.round.epoch > inst.epoch > 0
      && (inst.lastValue.None? ==> inst.same == 0 && inst.lastRound == ZERO)
    ensures var (p', out) := EP.OnPromise(p, m.aid, m.iid, m.round, m.lastRound, m.lastValue);
      && out == Some(Prepare(m.iid, m.round))
      && InstTells(c, net + ToSet(out), got + [m], Next(h, p, p', m.iid, Some(m)), started, p', m.iid)
  {
    var i, inst := m.iid, p.prepare[m.iid];
    var net' := net + {Prepare(i, m.round)};
    var p1 := p.(prepare := p.prepare[i := EP.AdoptEpoch(inst, m.round.epoch)],
                 highestEpoch := Max(m.round.epoch, p.highestEpoch));
    FollowTells(net, net', h, m, i, inst);
    assert {} + {m.aid} == {m.aid};
    CountedTells(c, net, net', got, h, started, p, p1, m);
  }

  // ---------------------------------------------------------------- votes

  /** A vote at the present round is counted, and closes the instance if it completes a quorum. */
  lemma VoteShape(p: EP.Proposer, a: Aid, i: Iid, r: Round, v: Value, inst: EP.Inst)
    requires Live(p, i) && i in p.accept && |p.accept[i].quorum| < p.accept[i].size
    requires inst == if r == EP.Current(p.accept[i]) then p.accept[i].(quorum := p.accept[i].quorum + {a})
                     else p.accept[i]
    ensures var p1 := p.(accept := p.accept[i := inst]);
      EP.OnAccepted(p, a, i, r, v) ==
        if |inst.quorum| >= inst.size then (EP.OnChosen(p1, i, r), Some(Chosen(i, r, v))) else (p1, None)
  {
    assert a in p.accept[i].quorum ==> p.accept[i].quorum + {a} == p.accept[i].quorum;
    assert p.accept[i := p.accept[i]] == p.accept;
  }

  lemma VoteCounted(c: Config, net: set<Msg>, got: seq<Msg>, h: Since, started: set<Iid>, p: EP.Proposer, m: Msg)
    requires m.Accepted? && InstTells(c, net, got, h, started, p, m.iid) && Live(p, m.iid)
    requires m.iid in p.accept && m.iid !in p.prepare && p.accept[m.iid].size == c.q2
    ensures var (p', out) := EP.OnAccepted(p, m.aid, m.iid, m.round, m.value);
      InstTells(c, net + ToSet(out), got + [m], Next(h, p, p', m.iid, Some(m)), started, p', m.iid)
  {
    var i, inst := m.iid, p.accept[m.iid];
    var inst' := if m.round == EP.Current(inst) then inst.(quorum := inst.quorum + {m.aid}) else inst;
    VotersGrow(got, m, i, EP.Current(inst));
    VoteShape(p, m.aid, i, m.round, m.value, inst');
    ChosenShape(p.(accept := p.accept[i := inst']), i, m.round, i);
  }

  lemma VoteTells(c: Config, net: set<Msg>, got: seq<Msg>, h: Since, started: set<Iid>, p: EP.Proposer, m: Msg)
    requires EPP.ProposerOK(c, net, p) && m.Accepted? && InstTells(c, net, got, h, started, p, m.iid)
    ensures var (p', out) := EP.OnAccepted(p, m.aid, m.iid, m.round, m.value);
      InstTells(c, net + ToSet(out), got + [m], Next(h, p, p', m.iid, Some(m)), started, p', m.iid)
  {
    if Live(p, m.iid) && m.iid in p.accept {
      assert EPP.AcceptingOK(c, net, p.id, m.iid, p.accept[m.iid]);
      VoteCounted(c, net, got, h, started, p, m);
    } else {
      KeptTells(c, net, net + {}, got, h, started, p, p, m.iid, m);
    }
  }

  // ---------------------------------------------------------------- preemptions

  lemma PreemptionTells(c: Config, net: set<Msg>, got: seq<Msg>, h: Since, started: set<Iid>, p: EP.Proposer, m: Msg,
        b: Ballot)
    requires ValidConfig(c) && p.prepare.Keys !! p.accept.Keys && m.Preempted? && b.number > m.current.ballot.number
    requires m.current.epoch > 0 && InstTells(c, net, got, h, started, p, m.iid)
    ensures var (p', out) := EP.OnPreempted(p, m.iid, m.attempted, m.current, b);
      InstTells(c, net + ToSet(out), got + [m], Next(h, p, p', m.iid, Some(m)), started, p', m.iid)
  {
    var i := m.iid;
    var (p', out) := EP.OnPreempted(p, i, m.attempted, m.current, b);
    var net' := net + ToSet(out);
    if out.None? {
      KeptTells(c, net, net', got, h, started, p, p, i, m);
    } else if i in p.prepare && !BallotGt(m.current.ballot, p.prepare[i].ballot) {
      AdoptTells(net, net', h, m, i, p.prepare[i]);
    } else {
      FreshTells(net', i, p'.prepare[i]);
    }
  }

  // ---------------------------------------------------------------- every message

  /** Messages about the rounds of other proposers are dropped. */
  lemma ForeignTells(c: Config, net: set<Msg>, got: seq<Msg>, h: Since, started: set<Iid>, p: EP.Proposer, m: Msg,
        i: Iid)
    requires EPP.ProposerOK(c, net, p) && InstTells(c, net, got, h, started, p, i) && About(m, i)
    requires m.Promise? || m.Accepted? ==> m.round.ballot.proposer != p.id
    requires m.Preempted? ==> m.attempted.ballot.proposer != p.id
    ensures InstTells(c, net, got + [m], Next(h, p, p, i, Some(m)), started, p, i)
  {
    if i in p.prepare { assert EPP.PreparingOK(c, net, p.id, i, p.prepare[i]); }
    if i in p.accept { assert EPP.AcceptingOK(c, net, p.id, i, p.accept[i]); }
    KeptTells(c, net, net, got, h, started, p, p, i, m);
  }

  lemma AboutTells(c: Config, net: set<Msg>, got: seq<Msg>, h: Since, started: set<Iid>, p: EP.Proposer, m: Msg,
        b: Ballot, i: Iid)
    requires ValidConfig(c) && NetInv(c, net) && EPP.ProposerOK(c, net, p) && m in net && About(m, i)
    requires m.Preempted? ==> b.number > m.current.ballot.number
    requires InstTells(c, net, got, h, started, p, i)
    ensures var (p', out) := EP.Step(p, m, b);
      InstTells(c, net + ToSet(out), got + [m], Next(h, p, p', i, Some(m)), started, p', i)
  {
    assert net + {} == net && MsgOK(c, net, m);
    match m
    case Promise(_, _, r, _, _) =>
      if r.ballot.proposer == p.id { PromiseTells(c, net, got, h, started, p, m); }
      else { ForeignTells(c, net, got, h, started, p, m, i); }
    case Accepted(_, _, r, _) =>
      if r.ballot.proposer == p.id { VoteTells(c, net, got, h, started, p, m); }
      else { ForeignTells(c, net, got, h, started, p, m, i); }
    case Preempted(_, _, attempted, _) =>
      if attempted.ballot.proposer == p.id { PreemptionTells(c, net, got, h, started, p, m, b); }
      else { ForeignTells(c, net, got, h, started, p, m, i); }
  }

  lemma MessageTells(c: Config, net: set<Msg>, got: seq<Msg>, h: Since, started: set<Iid>, p: EP.Proposer, m: Msg,
        b: Ballot, i: Iid)
    requires ValidConfig(c) && NetInv(c, net) && EPP.ProposerOK(c, net, p) && m in net
    requires m.Preempted? ==> b.number > m.current.ballot.number
    requires InstTells(c, net, got, h, started, p, i)
    ensures var (p', out) := EP.Step(p, m, b);
      InstTells(c, net + ToSet(out), got + [m], Next(h, p, p', i, Some(m)), started, p', i)
  {
    if About(m, i) {
      AboutTells(c, net, got, h, started, p, m, b, i);
    } else {
      StepOther(p, m, b, i);
      var (p', out) := EP.Step(p, m, b);
      KeptTells(c, net, net + ToSet(out), got, h, started, p, p', i, m);
    }
  }

  // ---------------------------------------------------------------- starting and proposing

  /** The rest of the system only adds messages. */
  lemma NetTells(c: Config, net: set<Msg>, net': set<Msg>, got: seq<Msg>, h: Since, started: set<Iid>, p: EP.Proposer,
        i: Iid)
    requires InstTells(c, net, got, h, started, p, i) && net <= net'
    ensures InstTells(c, net', got, Next(h, p, p, i, None), started, p, i)
  {}

  lemma StartTells(c: Config, net: set<Msg>, got: seq<Msg>, h: Since, started: set<Iid>, p: EP.Proposer, b: Ballot,
        i: Iid)
    requires ValidConfig(c) && EPP.ProposerOK(c, net, p) && InstTells(c, net, got, h, started, p, i)
    ensures var (p', out) := EP.Preexecute(p, b);
      InstTells(c, net + ToSet(out), got, Next(h, p, p', i, None), started + {p.next}, p', i)
  {
    var (p', out) := EP.Preexecute(p, b);
    if i == p.next && i in p'.prepare { FreshTells(net + ToSet(out), i, p'.prepare[i]); }
  }

  lemma NoVotersYet(c: Config, net: set<Msg>, got: seq<Msg>, id: Pid, i: Iid, inst: EP.Inst)
    requires NetInv(c, net) && EPP.PreparingOK(c, net, id, i, inst) && forall m | m in got :: m in net
    ensures Voters(got, i, EP.Current(inst)) == {}
  {
    assert VotesProposed(c, net);
    EPP.NoProposalYet(net, id, i, inst);
    assert forall m | m in got && m.Accepted? :: Accept(m.iid, m.round, m.value) in net;
  }

  lemma AcceptTells(c: Config, net: set<Msg>, got: seq<Msg>, h: Since, started: set<Iid>, p: EP.Proposer, j: Iid,
        client: Option<Value>, i: Iid)
    requires ValidConfig(c) && NetInv(c, net) && EPP.ProposerOK(c, net, p) && (forall m | m in got :: m in net)
    requires InstTells(c, net, got, h, started, p, i) && j in p.prepare
    ensures var (p', out) := EP.BeginAccept(p, j, client);
      InstTells(c, net + ToSet(out), got, Next(h, p, p', i, None), started, p', i)
  {
    var (p', out) := EP.BeginAccept(p, j, client);
    if i == j {
      assert EPP.PreparingOK(c, net, p.id, i, p.prepare[i]);
      NoVotersYet(c, net, got, p.id, i, p.prepare[i]);
    }
  }

  // ---------------------------------------------------------------- every run

  lemma NetOnlyGrows(s: Sys, e: Event)
    requires Enabled(s, e)
    ensures s.net <= Apply(s, e).net
  {}

  /** What an event that is not the proposer's own leaves alone. */
  lemma OthersMove(s: Sys, e: Event, p: Pid)
    requires Enabled(s, e) && p in s.proposers
    requires !((e.ProposerGets? || e.ProposerStarts? || e.ProposerAccepts?) && e.p == p)
    ensures p in Apply(s, e).proposers && Apply(s, e).proposers[p] == s.proposers[p]
  {}

  /** One event of any run. */
  lemma EventTells(c: Config, s: Sys, e: Event, p: Pid, got: seq<Msg>, h: Since, started: set<Iid>, i: Iid)
    requires ValidConfig(c) && Inv(c, s) && Enabled(s, e) && p in s.proposers && (forall m | m in got :: m in s.net)
    requires InstTells(c, s.net, got, h, started, s.proposers[p], i)
    ensures p in Apply(s, e).proposers
    ensures var m := if e.ProposerGets? && e.p == p then Some(e.m) else None;
      InstTells(c, Apply(s, e).net, if m.Some? then got + [m.value] else got,
        Next(h, s.proposers[p], Apply(s, e).proposers[p], i, m),
        if e.ProposerStarts? && e.p == p then started + {s.proposers[p].next} else started,
        Apply(s, e).proposers[p], i)
  {
    if e.ProposerGets? && e.p == p {
      MessageTells(c, s.net, got, h, started, s.proposers[p], e.m, e.b, i);
    } else if e.ProposerStarts? && e.p == p {
      StartTells(c, s.net, got, h, started, s.proposers[p], e.b, i);
    } else if e.ProposerAccepts? && e.p == p {
      AcceptTells(c, s.net, got, h, started, s.proposers[p], e.i, e.client, i);
    } else {
      OthersMove(s, e, p);
      NetOnlyGrows(s, e);
      NetTells(c, s.net, Apply(s, e).net, got, h, started, s.proposers[p], i);
    }
  }

  lemma {:induction false} GotIsSent(s: Sys, es: seq<Event>, p: Pid)
    ensures forall m | m in Got(s, es, p) :: m in Run(s, es).net
    decreases |es|
  {
    if es != [] {
      var before, e := es[..|es| - 1], es[|es| - 1];
      GotIsSent(s, before, p);
      if Enabled(Run(s, before), e) { NetOnlyGrows(Run(s, before), e); }
    }
  }

  /** In every run, for every proposer and instance: a started instance is open until it is closed. In phase 1 its epoch
      is the highest that was named for its ballot since the phase was opened, its quorum is exactly the acceptors whose
      promises of the present round arrived since, fewer than q2 of them report the same highest vote, and a round that
      rose has been asked for. In phase 2 its quorum is exactly the acceptors whose votes at the present round arrived,
      fewer than q2. */
  lemma {:induction false} HistoryInEveryRun(c: Config, s: Sys, es: seq<Event>, p: Pid, i: Iid)
    requires ValidConfig(c) && Init(c, s) && p in s.proposers
    ensures p in Run(s, es).proposers
    ensures InstTells(c, Run(s, es).net, Got(s, es, p), SinceOpened(s, es, p, i), Started(s, es, p),
                      Run(s, es).proposers[p], i)
    decreases |es|
  {
    if es == [] {
      var j :| s.proposers[p] == EP.Boot(p, c.q1, c.q2, j);
    } else {
      var before, e := es[..|es| - 1], es[|es| - 1];
      HistoryInEveryRun(c, s, before, p, i);
      RunIsFine(c, s, before);
      GotIsSent(s, before, p);
      if Enabled(Run(s, before), e) {
        EventTells(c, Run(s, before), e, p, Got(s, before, p), SinceOpened(s, before, p, i), Started(s, before, p), i);
      }
    }
  }

  /** Chosen instances, trim point and highest epoch only grow, and the counters stay true. */
  ghost predicate Forward(p: EP.Proposer, p': EP.Proposer) {
    && p.chosens <= p'.chosens && p.trim <= p'.trim && p.highestEpoch <= p'.highestEpoch
    && (CountersTell(p) ==> CountersTell(p'))
  }

  lemma PromiseForward(p: EP.Proposer, a: Aid, j: Iid, r: Round, lr: Round, lv: Value)
    ensures Forward(p, EP.OnPromise(p, a, j, r, lr, lv).0)
  {
    if Live(p, j) && j in p.prepare {
      var p1 := p.(prepare := p.prepare[j := EP.AdoptEpoch(p.prepare[j], r.epoch)],
                   highestEpoch := Max(r.epoch, p.highestEpoch));
      CountOther(p, a, j, r, lr, lv, j + 1);
      CountOther(p1, a, j, r, lr, lv, j + 1);
    }
  }

  lemma VoteForward(p: EP.Proposer, a: Aid, j: Iid, r: Round, v: Value)
    ensures Forward(p, EP.OnAccepted(p, a, j, r, v).0)
  {
    if j in p.accept {
      ChosenShape(p.(accept := p.accept[j := p.accept[j].(quorum := p.accept[j].quorum + {a})]), j, r, j);
    }
  }

  lemma ClosedMoves(p: EP.Proposer, m: Msg, b: Ballot, got: seq<Msg>)
    requires ClosedTells(got, p)
    ensures ClosedTells(got + [m], EP.Step(p, m, b).0)
  {
    StepForward(p, m, b);
    match m
    case Chosen(j, r, _) => ChosenShape(p, j, r, j);
    case Trim(t) => TrimShape(p, t, t);
    case _ =>
  }

  lemma StepForward(p: EP.Proposer, m: Msg, b: Ballot)
    ensures Forward(p, EP.Step(p, m, b).0)
  {
    match m
    case Promise(a, j, r, lr, lv) => PromiseForward(p, a, j, r, lr, lv);
    case Accepted(a, j, r, v) => VoteForward(p, a, j, r, v);
    case Chosen(j, r, _) => ChosenShape(p, j, r, j);
    case Trim(t) => TrimShape(p, t, t);
    case _ =>
  }

  /** In every run what was received about closed instances and about epochs was taken in. */
  lemma {:induction false} ClosedInEveryRun(c: Config, s: Sys, es: seq<Event>, p: Pid)
    requires Init(c, s) && p in s.proposers
    ensures p in Run(s, es).proposers && ClosedTells(Got(s, es, p), Run(s, es).proposers[p])
    decreases |es|
  {
    if es != [] {
      var before, e := es[..|es| - 1], es[|es| - 1];
      ClosedInEveryRun(c, s, before, p);
      var s' := Run(s, before);
      if Enabled(s', e) {
        if e.ProposerGets? && e.p == p {
          ClosedMoves(s'.proposers[p], e.m, e.b, Got(s, before, p));
        } else if !((e.ProposerStarts? || e.ProposerAccepts?) && e.p == p) {
          OthersMove(s', e, p);
        }
      }
    }
  }

  // ---------------------------------------------------------------- what the proposer does about it

  /** The proposer after a run. */
  ghost function After(s: Sys, es: seq<Event>, p: Pid): EP.Proposer
    requires p in Run(s, es).proposers
  {
    Run(s, es).proposers[p]
  }

  lemma AfterOK(c: Config, s: Sys, es: seq<Event>, p: Pid, i: Iid)
    requires ValidConfig(c) && Init(c, s) && p in s.proposers && p in Run(s, es).proposers
    ensures NetInv(c, Run(s, es).net)
    ensures After(s, es, p).id == p && EPP.ProposerOK(c, Run(s, es).net, After(s, es, p))
    ensures InstTells(c, Run(s, es).net, Got(s, es, p), SinceOpened(s, es, p, i), Started(s, es, p),
                      After(s, es, p), i)
  {
    HistoryInEveryRun(c, s, es, p, i);
    RunIsFine(c, s, es);
  }

  /** The instance is in phase 2 of proposer p, with q2 acceptors once a's vote at its round arrives. */
  ghost predicate CompletedBy(c: Config, s: Sys, es: seq<Event>, p: Pid, i: Iid, a: Aid) {
    && p in Run(s, es).proposers && i in After(s, es, p).accept && Live(After(s, es, p), i)
    && |Voters(Got(s, es, p), i, EP.Current(After(s, es, p).accept[i])) + {a}| >= c.q2
  }

  lemma VoteAnnounces(c: Config, got: seq<Msg>, x: EP.Proposer, i: Iid, a: Aid, v: Value)
    requires i in x.accept && Live(x, i) && x.accept[i].size == c.q2 && |x.accept[i].quorum| < c.q2
    requires x.accept[i].quorum == Voters(got, i, EP.Current(x.accept[i]))
    requires |Voters(got, i, EP.Current(x.accept[i])) + {a}| >= c.q2
    ensures var r := EP.Current(x.accept[i]);
      var (x', out) := EP.OnAccepted(x, a, i, r, v);
      i in x'.chosens && out == Some(Chosen(i, r, v))
  {
    var q := x.accept[i].quorum;
    assert a in q ==> q + {a} == q;
    ChosenShape(x.(accept := x.accept[i := x.accept[i].(quorum := q + {a})]), i, EP.Current(x.accept[i]), i);
  }

  /** The vote that makes q2 acceptors at the present round closes the instance and announces it chosen. */
  lemma AnnouncesInEveryRun(c: Config, s: Sys, es: seq<Event>, p: Pid, i: Iid, a: Aid, v: Value, b: Ballot)
    requires ValidConfig(c) && Init(c, s) && p in s.proposers && CompletedBy(c, s, es, p, i, a)
    ensures var x := After(s, es, p);
      var r := EP.Current(x.accept[i]);
      var (x', out) := EP.Step(x, Accepted(a, i, r, v), b);
      i in x'.chosens && out == Some(Chosen(i, r, v))
  {
    AfterOK(c, s, es, p, i);
    var x := After(s, es, p);
    assert EPP.AcceptingOK(c, Run(s, es).net, p, i, x.accept[i]);
    VoteAnnounces(c, Got(s, es, p), x, i, a, v);
  }

  /** The promise of an acceptor not yet counted makes q2 equal reports of the highest vote. */
  predicate Reveals(q2: nat, inst: EP.Inst, m: Msg)
    requires m.Promise?
  {
    && m.round == EP.Current(inst) && m.aid !in inst.quorum && RoundGt(m.lastRound, ZERO)
    && (if RoundGt(m.lastRound, inst.lastRound) then q2 == 1
        else m.lastRound == inst.lastRound && inst.lastValue.Some? && inst.same + 1 >= q2)
  }

  lemma DetectShape(x: EP.Proposer, m: Msg)
    requires m.Promise? && m.iid in x.prepare && m.iid !in x.accept && Live(x, m.iid) && x.q2 > 0
    requires Reveals(x.q2, x.prepare[m.iid], m)
    ensures var (x', out) := EP.OnPromise(x, m.aid, m.iid, m.round, m.lastRound, m.lastValue);
      m.iid in x'.chosens && out.Some? && out.value.Chosen? && out.value.iid == m.iid && out.value.round == m.lastRound
  {
    CountShape(x, m.aid, m.iid, m.round, m.lastRound, m.lastValue);
  }

  /** It closes the instance and announces that vote chosen. */
  lemma DetectsInEveryRun(c: Config, s: Sys, es: seq<Event>, p: Pid, m: Msg, b: Ballot)
    requires ValidConfig(c) && Init(c, s) && p in s.proposers && p in Run(s, es).proposers
    requires m.Promise? && m.round.ballot.proposer == p && m.iid in After(s, es, p).prepare
    requires Live(After(s, es, p), m.iid) && Reveals(c.q2, After(s, es, p).prepare[m.iid], m)
    ensures var (x', out) := EP.Step(After(s, es, p), m, b);
      m.iid in x'.chosens && out.Some? && out.value.Chosen? && out.value.iid == m.iid && out.value.round == m.lastRound
  {
    AfterOK(c, s, es, p, m.iid);
    DetectShape(After(s, es, p), m);
  }

  lemma FollowShape(x: EP.Proposer, m: Msg)
    requires m.Promise? && m.iid in x.prepare && m.iid !in x.accept && Live(x, m.iid) && x.q2 > 0
    requires var inst := x.prepare[m.iid]; m.round.ballot == inst.ballot && m.round.epoch > inst.epoch > 0
    ensures var (x', out) := EP.OnPromise(x, m.aid, m.iid, m.round, m.lastRound, m.lastValue);
      && out == Some(Prepare(m.iid, m.round))
      && (m.iid in x'.chosens || (m.iid in x'.prepare && EP.Current(x'.prepare[m.iid]) == m.round
                                  && x'.prepare[m.iid].quorum == {m.aid}))
  {
    var x1 := x.(prepare := x.prepare[m.iid := EP.AdoptEpoch(x.prepare[m.iid], m.round.epoch)],
                 highestEpoch := Max(m.round.epoch, x.highestEpoch));
    CountShape(x1, m.aid, m.iid, m.round, m.lastRound, m.lastValue);
  }

  /** A promise of the ballot in a higher epoch takes the instance there and asks for the new round. */
  lemma FollowsInEveryRun(c: Config, s: Sys, es: seq<Event>, p: Pid, m: Msg, b: Ballot)
    requires ValidConfig(c) && Init(c, s) && p in s.proposers && p in Run(s, es).proposers
    requires m.Promise? && m.round.ballot.proposer == p && m.iid in After(s, es, p).prepare
    requires var inst := After(s, es, p).prepare[m.iid]; m.round.ballot == inst.ballot && m.round.epoch > inst.epoch > 0
    requires Live(After(s, es, p), m.iid)
    ensures var (x', out) := EP.Step(After(s, es, p), m, b);
      && out == Some(Prepare(m.iid, m.round))
      && (m.iid in x'.chosens || (m.iid in x'.prepare && EP.Current(x'.prepare[m.iid]) == m.round
                                  && x'.prepare[m.iid].quorum == {m.aid}))
  {
    AfterOK(c, s, es, p, m.iid);
    FollowShape(After(s, es, p), m);
  }

  /** A preemption of the round in force by a higher ballot reopens phase 1 at the drawn ballot in the epoch named; one
      by a higher epoch alone takes the instance there. Either way the new round is asked for. */
  lemma ReturnsInEveryRun(c: Config, s: Sys, es: seq<Event>, p: Pid, m: Msg, b: Ballot)
    requires ValidConfig(c) && Init(c, s) && p in s.proposers && p in Run(s, es).proposers && m.Preempted?
    requires m.attempted.ballot.proposer == p && Live(After(s, es, p), m.iid)
    requires var x, i := After(s, es, p), m.iid;
      || (i in x.prepare && EP.IsCurrent(x.prepare[i], m.attempted) && EP.Preempts(x.prepare[i], m.current))
      || (i in x.accept && m.attempted == EP.Current(x.accept[i]) && EP.Preempts(x.accept[i], m.current))
    ensures var (x', out) := EP.Step(After(s, es, p), m, b);
      var last := if BallotGt(m.current.ballot, m.attempted.ballot) then b else m.attempted.ballot;
      && out == Some(Prepare(m.iid, Round(m.current.epoch, last)))
      && m.iid in x'.prepare && m.iid !in x'.accept && x'.prepare[m.iid].quorum == {}
      && EP.Current(x'.prepare[m.iid]) == Round(m.current.epoch, last)
  {
    AfterOK(c, s, es, p, m.iid);
  }

  /** An instance opens with the highest epoch known, or without one; its prepare goes out. */
  lemma StartsInEveryRun(c: Config, s: Sys, es: seq<Event>, p: Pid, b: Ballot)
    requires ValidConfig(c) && Init(c, s) && p in s.proposers && p in Run(s, es).proposers
    ensures var x := After(s, es, p);
      var (x', out) := EP.Preexecute(x, b);
      && x'.next == x.next + (if Live(x, x.next) then 1 else 2)
      && (Live(x, x.next) ==>
            && x.next in x'.prepare && EP.Current(x'.prepare[x.next]) == Round(x.highestEpoch, b)
            && out == Some(if x.highestEpoch == 0 then StandardPrepare(x.next, b)
                           else Prepare(x.next, Round(x.highestEpoch, b))))
  {
    AfterOK(c, s, es, p, After(s, es, p).next);
  }

  /** The instance moves to phase 2 with the value last reported, or with the client's if none was. */
  lemma ProposesInEveryRun(c: Config, s: Sys, es: seq<Event>, p: Pid, i: Iid, client: Option<Value>)
    requires ValidConfig(c) && Init(c, s) && p in s.proposers && p in Run(s, es).proposers
    requires i in After(s, es, p).prepare && Live(After(s, es, p), i)
    ensures var x, h := After(s, es, p), SinceOpened(s, es, p, i);
      var inst := x.prepare[i];
      var (x', out) := EP.BeginAccept(x, i, client);
      if out.None? then client.None? && inst.lastRound == ZERO && x' == x
      else
        && i in x'.accept && i !in x'.prepare && out.value.Accept? && out.value.iid == i
        && out.value.round == EP.Current(inst)
        && (if inst.lastRound == ZERO then client == Some(out.value.value)
            else WasReported(h.got, i, inst.ballot, inst.lastRound, out.value.value))
  {
    AfterOK(c, s, es, p, i);
    assert EPP.PreparingOK(c, Run(s, es).net, p, i, After(s, es, p).prepare[i]);
  }

  /** A timeout repeats the prepare or the proposal of an open instance. */
  lemma ResendsInEveryRun(c: Config, s: Sys, es: seq<Event>, p: Pid, i: Iid)
    requires ValidConfig(c) && Init(c, s) && p in s.proposers && p in Run(s, es).proposers
    ensures var x := After(s, es, p);
      var out := EP.Resend(x, i);
      if i in x.accept then
        exists v :: out == Some(Accept(i, EP.Current(x.accept[i]), v)) && out.value in Run(s, es).net
      else if i in x.prepare && |x.prepare[i].quorum| < x.prepare[i].size then
        out == Some(if x.prepare[i].epoch == 0 then StandardPrepare(i, x.prepare[i].ballot)
                    else Prepare(i, EP.Current(x.prepare[i])))
      else out == None
  {
    AfterOK(c, s, es, p, i);
    var x := After(s, es, p);
    if i in x.accept { assert EPP.AcceptingOK(c, Run(s, es).net, p, i, x.accept[i]); }
  }
}
