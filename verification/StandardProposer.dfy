/** The proposer of paxos/standard_proposer.c. Instances wait in the prepare table for a promise quorum, then
    in the accept table for an acceptance quorum; a preemption sends them back with a higher ballot. */
module StandardProposer {
  import opened Types

  datatype Inst = Inst(
    ballot: Ballot,
    lastBallot: Ballot,          // highest accepted ballot reported by the promises of `quorum`
    lastValue: Option<Value>,    // its value
    proposing: Option<Value>,
    quorum: set<Aid>,
    size: nat)                   // quorum size of the current phase

  datatype Proposer = Proposer(
    id: Pid,
    q1: nat,
    q2: nat,
    prepare: map<Iid, Inst>,
    accept: map<Iid, Inst>,
    chosens: set<Iid>,
    maxChosen: Iid,
    trim: Iid,
    next: Iid,
    jump: nat)

  function Boot(id: Pid, q1: nat, q2: nat, jump: nat): Proposer {
    Proposer(id, q1, q2, map[], map[], {}, 0, 0, 1, jump)
  }

  predicate QuorumReached(inst: Inst) { |inst.quorum| >= inst.size }

  function NewInst(b: Ballot, size: nat): Inst {
    Inst(b, INVALID_BALLOT, None, None, {}, size)
  }

  /** Start an instance. Trimmed, chosen and pending instances only push `next` further; unless the instance
      already waits in the prepare table it is opened all the same. */
  function TryStart(p: Proposer, i: Iid, b: Ballot): (Proposer, Option<Msg>) {
    var skip := (if i <= p.trim then 1 else 0) + (if i in p.chosens then 1 else 0) + (if i in p.accept then 1 else 0);
    var p' := p.(next := p.next + skip);
    if i in p.prepare then (p'.(next := p'.next + 1), None)
    else (p'.(prepare := p.prepare[i := NewInst(b, p.q1)]), Some(Prepare(i, Classic(b))))
  }

  /** One turn of the pre-execution loop: start the next instance, then step past it. */
  function Preexecute(p: Proposer, b: Ballot): (Proposer, Option<Msg>) {
    var (p', m) := TryStart(p, p.next, b);
    (p'.(next := p'.next + 1), m)
  }

  function HandleReport(inst: Inst, vb: Ballot, v: Value): Inst {
    if BallotGt(vb, inst.lastBallot) then inst.(lastBallot := vb, lastValue := Some(v)) else inst
  }

  function OnPromise(p: Proposer, a: Aid, i: Iid, b: Ballot, vb: Ballot, v: Value): Proposer {
    if i <= p.trim || i in p.chosens || i !in p.prepare then p
    else
      var inst := p.prepare[i];
      if BallotGt(inst.ballot, b) || a in inst.quorum then p
      else p.(prepare := p.prepare[i := HandleReport(inst.(quorum := inst.quorum + {a}), vb, v)])
  }

  /** The smallest instance with a promise quorum that is not known to be chosen. */
  predicate ReadyToAccept(p: Proposer, i: Iid) {
    i in p.prepare && QuorumReached(p.prepare[i]) && i !in p.chosens
  }

  predicate IsMinReady(p: Proposer, i: Iid) {
    ReadyToAccept(p, i) && forall j | j in p.prepare && ReadyToAccept(p, j) :: i <= j
  }

  /** Begin the accept phase of instance i. A reported value must be proposed; otherwise the next client value
      or a no-op is, if there is one to propose. */
  function BeginAccept(p: Proposer, i: Iid, client: Option<Value>): (Proposer, Option<Msg>)
    requires i in p.prepare
  {
    var inst := p.prepare[i];
    var proposing := if inst.lastValue.Some? then inst.lastValue else client;
    if proposing.None? then (p, None)
    else
      var inst' := inst.(proposing := proposing, lastValue := None, quorum := {}, size := p.q2);
      (p.(prepare := p.prepare - {i}, accept := p.accept[i := inst']),
       Some(Accept(i, Classic(inst.ballot), proposing.value)))
  }

  /** First instance after the trim point that is not in the chosen table. */
  function MinUnchosen(chosens: set<Iid>, from: Iid): (n: Iid)
    ensures n >= from && n !in chosens
    ensures forall i | from <= i < n :: i in chosens
    decreases |set i | i in chosens && i >= from|
  {
    if from in chosens then
      assert (set i | i in chosens && i >= from) == (set i | i in chosens && i >= from + 1) + {from};
      MinUnchosen(chosens, from + 1)
    else from
  }

  function OnTrim(p: Proposer, t: Iid): Proposer {
    if t <= p.trim then p
    else p.(trim := t,
            prepare := map i | i in p.prepare && i > t :: p.prepare[i],
            accept := map i | i in p.accept && i > t :: p.accept[i],
            next := if t >= p.next then t + 1 + p.jump else p.next)
  }

  function OnChosen(p: Proposer, i: Iid): Proposer {
    if i in p.chosens then p
    else
      var p' := p.(chosens := p.chosens + {i},
                   maxChosen := if p.maxChosen < i then i else p.maxChosen,
                   accept := p.accept - {i}, prepare := p.prepare - {i});
      if MinUnchosen(p'.chosens, p'.trim + 1) >= i then OnTrim(p', i) else p'
  }

  function OnAccepted(p: Proposer, a: Aid, i: Iid, vb: Ballot, v: Value): (Proposer, Option<Msg>) {
    if i <= p.trim || i in p.chosens || i !in p.accept then (p, None)
    else
      var inst := p.accept[i];
      if vb != inst.ballot || a in inst.quorum then (p, None)
      else
        var inst' := inst.(quorum := inst.quorum + {a});
        var p' := p.(accept := p.accept[i := inst']);
        if QuorumReached(inst') then (OnChosen(p', i), Some(Chosen(i, Classic(vb), v)))
        else (p', None)
  }

  /** A preempted instance forgets its promises, reports and value, and takes the new ballot. */
  function Preempt(inst: Inst, b: Ballot, size: nat): Inst {
    Inst(b, INVALID_BALLOT, None, None, {}, size)
  }

  /** From either table the instance ends in phase 1; out of phase 2 it takes the given quorum size. */
  function OnPreemptedTo(p: Proposer, i: Iid, attempted: Ballot, b: Ballot, size: nat): (Proposer, Option<Msg>) {
    if i <= p.trim || i in p.chosens then (p, None)
    else
      var inPrepare := i in p.prepare && p.prepare[i].ballot == attempted;
      var inAccept := i in p.accept && p.accept[i].ballot == attempted;
      var p1 := if inPrepare then p.(prepare := p.prepare[i := Preempt(p.prepare[i], b, p.prepare[i].size)]) else p;
      var p2 :=
        if inAccept then p1.(accept := p1.accept - {i}, prepare := p1.prepare[i := Preempt(p.accept[i], b, size)])
        else p1;
      (p2, if inPrepare || inAccept then Some(Prepare(i, Classic(b))) else None)
  }

  function OnPreempted(p: Proposer, i: Iid, attempted: Ballot, b: Ballot): (Proposer, Option<Msg>) {
    OnPreemptedTo(p, i, attempted, b, p.q1)
  }

  function Resend(p: Proposer, i: Iid): Option<Msg> {
    if i in p.prepare && !QuorumReached(p.prepare[i]) then Some(Prepare(i, Classic(p.prepare[i].ballot)))
    else if i in p.accept && p.accept[i].proposing.Some? then
      Some(Accept(i, Classic(p.accept[i].ballot), p.accept[i].proposing.value))
    else None
  }

  /** Messages addressed to another proposer's ballots are dropped before they reach the proposer.
      `b` is the ballot the ballot giver would hand out for a preemption. */
  function Step(p: Proposer, m: Msg, b: Ballot): (Proposer, Option<Msg>) {
    match m
    case Promise(a, i, r, lr, lv) =>
      if r.ballot.proposer == p.id then (OnPromise(p, a, i, r.ballot, lr.ballot, lv), None) else (p, None)
    case Accepted(a, i, r, v) =>
      if r.ballot.proposer == p.id then OnAccepted(p, a, i, r.ballot, v) else (p, None)
    case Preempted(a, i, attempted, current) =>
      if attempted.ballot.proposer == p.id then OnPreempted(p, i, attempted.ballot, b) else (p, None)
    case Chosen(i, r, v) => (OnChosen(p, i), None)
    case Trim(t) => (OnTrim(p, t), None)
    case _ => (p, None)
  }
}
