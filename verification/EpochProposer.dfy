/** The proposer of paxos/epoch_proposer.c. A prepare may leave the epoch to the acceptors; the first promise
    then fixes it, a promise or a preemption in a higher epoch restarts the quorum there, and enough equal
    reports in phase 1 reveal a value that is already chosen. */
module EpochProposer {
  import opened Types
  import SP = StandardProposer

  datatype Inst = Inst(
    ballot: Ballot,
    epoch: nat,                  // 0 (INVALID_EPOCH) until an epoch is known
    lastRound: Round,            // highest accepted round reported so far
    lastValue: Option<Value>,    // its value
    proposing: Option<Value>,
    quorum: set<Aid>,
    size: nat,
    same: nat)                   // members of `quorum` that reported lastRound

  datatype Proposer = Proposer(
    id: Pid,
    q1: nat,
    q2: nat,
    prepare: map<Iid, Inst>,
    accept: map<Iid, Inst>,
    chosens: set<Iid>,
    maxChosen: Iid,
    trim: Iid,
    next: Iid,
    jump: nat,
    highestEpoch: nat)

  function Boot(id: Pid, q1: nat, q2: nat, jump: nat): Proposer {
    Proposer(id, q1, q2, map[], map[], {}, 0, 0, 1, jump, 0)
  }

  function Current(inst: Inst): Round { Round(inst.epoch, inst.ballot) }

  predicate QuorumReached(inst: Inst) { |inst.quorum| >= inst.size }

  function NewInst(b: Ballot, e: nat, size: nat): Inst {
    Inst(b, e, ZERO, None, None, {}, size, 0)
  }

  /** The prepare message of an instance: without an epoch while none is known. */
  function PrepareMsg(i: Iid, inst: Inst): Msg {
    if inst.epoch == 0 then StandardPrepare(i, inst.ballot) else Prepare(i, Current(inst))
  }

  /** Start an instance. Trimmed and chosen instances only push `next` further; a pending one does too. */
  function TryStart(p: Proposer, i: Iid, b: Ballot): (Proposer, Option<Msg>) {
    if i <= p.trim || i in p.chosens then (p.(next := p.next + 1), None)
    else
      var p' := if i in p.accept then p.(next := p.next + 1) else p;
      if i in p.prepare then (p'.(next := p'.next + 1), None)
      else
        var inst := NewInst(b, p.highestEpoch, p.q1);
        (p'.(prepare := p.prepare[i := inst]), Some(PrepareMsg(i, inst)))
  }

  function Preexecute(p: Proposer, b: Ballot): (Proposer, Option<Msg>) {
    var (p', m) := TryStart(p, p.next, b);
    (p'.(next := p'.next + 1), m)
  }

  /** The promise is for the present round, or for the present ballot while no epoch is known. */
  predicate IsCurrent(inst: Inst, r: Round) {
    r == Current(inst) || (inst.epoch == 0 && r.ballot == inst.ballot)
  }

  predicate IsOutdated(inst: Inst, r: Round) {
    RoundGt(Current(inst), r) || BallotGt(inst.ballot, r.ballot)
  }

  /** Restart the quorum in a higher epoch, with the same ballot and the reports so far. */
  function AdoptEpoch(inst: Inst, e: nat): Inst {
    inst.(epoch := e, proposing := None, quorum := {}, same := 0)
  }

  function HandleReport(inst: Inst, lr: Round, lv: Value): Inst {
    if RoundGt(lr, inst.lastRound) then inst.(lastRound := lr, lastValue := Some(lv), same := 1)
    else if lr == inst.lastRound && RoundGt(lr, ZERO) then inst.(same := inst.same + 1)
    else inst
  }

  function OnTrim(p: Proposer, t: Iid): Proposer {
    if t <= p.trim then p
    else p.(trim := t,
            prepare := map i | i in p.prepare && i > t :: p.prepare[i],
            accept := map i | i in p.accept && i > t :: p.accept[i],
            next := if t > p.next then t + 1 + p.jump else p.next)
  }

  function OnChosen(p: Proposer, i: Iid, r: Round): Proposer {
    if i in p.chosens then p
    else
      var p' := p.(chosens := p.chosens + {i},
                   maxChosen := Max(i, p.maxChosen),
                   highestEpoch := Max(r.epoch, p.highestEpoch));
      if i !in p.prepare && i !in p.accept then p'
      else
        var p2 := p'.(accept := p.accept - {i}, prepare := p.prepare - {i});
        if SP.MinUnchosen(p2.chosens, p2.trim + 1) >= i then OnTrim(p2, i) else p2
  }

  /** Count a promise for the current round. */
  function Count(p: Proposer, a: Aid, i: Iid, r: Round, lr: Round, lv: Value): (Proposer, Option<Msg>)
    requires i in p.prepare
  {
    var inst := if p.prepare[i].epoch == 0 then p.prepare[i].(epoch := r.epoch) else p.prepare[i];
    if a in inst.quorum then (p.(prepare := p.prepare[i := inst]), None)
    else
      var inst' := HandleReport(inst.(quorum := inst.quorum + {a}), lr, lv);
      var p' := p.(prepare := p.prepare[i := inst'], highestEpoch := Max(r.epoch, p.highestEpoch));
      if inst'.same >= p.q2 && inst'.lastValue.Some? then
        (OnChosen(p', i, inst'.lastRound), Some(Chosen(i, inst'.lastRound, inst'.lastValue.value)))
      else (p', None)
  }

  /** A promise in a higher epoch for the same ballot restarts the quorum there, counts, and asks the others to
      follow; the answer is a prepare even if the count reveals a chosen value. */
  function OnPromise(p: Proposer, a: Aid, i: Iid, r: Round, lr: Round, lv: Value): (Proposer, Option<Msg>) {
    if i <= p.trim || i in p.chosens || i !in p.prepare then (p, None)
    else
      var inst := p.prepare[i];
      if IsOutdated(inst, r) then (p, None)
      else if IsCurrent(inst, r) then Count(p, a, i, r, lr, lv)
      else
        var p' := p.(prepare := p.prepare[i := AdoptEpoch(inst, r.epoch)],
                     highestEpoch := Max(r.epoch, p.highestEpoch));
        (Count(p', a, i, r, lr, lv).0, Some(Prepare(i, r)))
  }

  predicate ReadyToAccept(p: Proposer, i: Iid) {
    i in p.prepare && QuorumReached(p.prepare[i]) && i !in p.chosens
  }

  predicate IsMinReady(p: Proposer, i: Iid) {
    ReadyToAccept(p, i) && forall j | j in p.prepare && ReadyToAccept(p, j) :: i <= j
  }

  function BeginAccept(p: Proposer, i: Iid, client: Option<Value>): (Proposer, Option<Msg>)
    requires i in p.prepare
  {
    var inst := p.prepare[i];
    var proposing := if inst.lastValue.Some? then inst.lastValue else client;
    if proposing.None? then (p, None)
    else
      var inst' := inst.(proposing := proposing, lastValue := None, quorum := {}, size := p.q2);
      (p.(prepare := p.prepare - {i}, accept := p.accept[i := inst']),
       Some(Accept(i, Current(inst), proposing.value)))
  }

  function OnAccepted(p: Proposer, a: Aid, i: Iid, r: Round, v: Value): (Proposer, Option<Msg>) {
    if i <= p.trim || i in p.chosens || i !in p.accept then (p, None)
    else
      var inst := p.accept[i];
      if r != Current(inst) || a in inst.quorum then (p, None)
      else
        var inst' := inst.(quorum := inst.quorum + {a});
        var p' := p.(accept := p.accept[i := inst']);
        if QuorumReached(inst') then (OnChosen(p', i, r), Some(Chosen(i, r, v))) else (p', None)
  }

  /** In phase 1 a higher ballot starts over and a higher epoch alone only restarts the quorum. */
  function PreemptPreparing(inst: Inst, current: Round, b: Ballot): Inst {
    if BallotGt(current.ballot, inst.ballot) then NewInst(b, current.epoch, inst.size)
    else AdoptEpoch(inst, current.epoch)
  }

  /** Back from phase 2 everything starts over. */
  function PreemptAccepting(inst: Inst, current: Round, b: Ballot, size: nat): Inst {
    NewInst(if BallotGt(current.ballot, inst.ballot) then b else inst.ballot, current.epoch, size)
  }

  predicate Preempts(inst: Inst, current: Round) {
    current.epoch > inst.epoch || BallotGt(current.ballot, inst.ballot)
  }

  function OnPreempted(p: Proposer, i: Iid, attempted: Round, current: Round, b: Ballot): (Proposer, Option<Msg>) {
    if i <= p.trim || i in p.chosens then (p, None)
    else if i in p.prepare && IsCurrent(p.prepare[i], attempted) && Preempts(p.prepare[i], current) then
      var inst := PreemptPreparing(p.prepare[i], current, b);
      (p.(prepare := p.prepare[i := inst], highestEpoch := Max(current.epoch, p.highestEpoch)),
       Some(Prepare(i, Current(inst))))
    else if i in p.accept && attempted == Current(p.accept[i]) && Preempts(p.accept[i], current) then
      var inst := PreemptAccepting(p.accept[i], current, b, p.q1);
      (p.(accept := p.accept - {i}, prepare := p.prepare[i := inst],
          highestEpoch := Max(current.epoch, p.highestEpoch)),
       Some(Prepare(i, Current(inst))))
    else (p, None)
  }

  function Resend(p: Proposer, i: Iid): Option<Msg> {
    if i in p.prepare && !QuorumReached(p.prepare[i]) then Some(PrepareMsg(i, p.prepare[i]))
    else if i in p.accept && p.accept[i].proposing.Some? then
      Some(Accept(i, Current(p.accept[i]), p.accept[i].proposing.value))
    else None
  }

  /** Messages addressed to another proposer's ballots are dropped before they reach the proposer. */
  function Step(p: Proposer, m: Msg, b: Ballot): (Proposer, Option<Msg>) {
    match m
    case Promise(a, i, r, lr, lv) => if r.ballot.proposer == p.id then OnPromise(p, a, i, r, lr, lv) else (p, None)
    case Accepted(a, i, r, v) => if r.ballot.proposer == p.id then OnAccepted(p, a, i, r, v) else (p, None)
    case Preempted(a, i, attempted, current) =>
      if attempted.ballot.proposer == p.id then OnPreempted(p, i, attempted, current, b) else (p, None)
    case Chosen(i, r, v) => (OnChosen(p, i, r), None)
    case Trim(t) => (OnTrim(p, t), None)
    case NewEpoch(e) => (p.(highestEpoch := Max(e, p.highestEpoch)), None)
    case _ => (p, None)
  }
}
