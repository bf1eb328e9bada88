/** The acceptor of paxos/standard_acceptor.c: every promise and every vote reaches the disk before it is
    answered; answers are computed from a memory copy. */
module StandardAcceptor {
  import opened Types
  import opened Memory

  const TRIM_LAG := 50000

  datatype StdAcceptor = StdAcceptor(
    id: Aid,
    disk: map<Iid, Record>,
    mem: Memory,
    trim: Iid,
    maxProposed: Iid)

  function Boot(id: Aid): StdAcceptor {
    StdAcceptor(id, map[], Memory(map[], map[], {}, 0), 0, 0)
  }

  function OnPrepare(a: StdAcceptor, i: Iid, b: Ballot): (StdAcceptor, Option<Msg>) {
    var info := Info(a.mem, i);
    if i <= a.trim then (a, Some(Trim(a.trim)))
    else if i in a.mem.chosen then (a, Some(Chosen(i, Classic(info.valueBallot), info.value)))
    else if BallotGe(b, info.promise) then
      var info' := info.(promise := b);
      (a.(disk := a.disk[i := info'], mem := Store(a.mem, i, info'), maxProposed := Max(i, a.maxProposed)),
       Some(Promise(a.id, i, Classic(b), Classic(info.valueBallot),
                    if BallotGt(info.valueBallot, INVALID_BALLOT) then info.value else [])))
    else (a, Some(Preempted(a.id, i, Classic(b), Classic(info.promise))))
  }

  function OnAccept(a: StdAcceptor, i: Iid, b: Ballot, v: Value): (StdAcceptor, Option<Msg>) {
    var info := Info(a.mem, i);
    if i <= a.trim then (a, Some(Trim(a.trim)))
    else if i in a.mem.chosen then (a, Some(Chosen(i, Classic(info.valueBallot), info.value)))
    else if BallotGe(b, info.promise) then
      var info' := Record(b, b, v);
      (a.(disk := a.disk[i := info'], mem := Store(a.mem, i, info'), maxProposed := Max(i, a.maxProposed)),
       Some(Accepted(a.id, i, Classic(b), v)))
    else (a, Some(Preempted(a.id, i, Classic(b), Classic(info.promise))))
  }

  /** Trimming needs a newer point that the acceptor's own chosen prefix covers. */
  function OnTrim(a: StdAcceptor, t: Iid): StdAcceptor {
    if t > a.trim && a.mem.minChosen + 1 > t then
      a.(trim := t, mem := if t > TRIM_LAG then DropBelow(a.mem, t - TRIM_LAG) else a.mem)
    else a
  }

  /** A chosen value is kept in memory only, under the promise already made. */
  function OnChosen(a: StdAcceptor, i: Iid, b: Ballot, v: Value): StdAcceptor {
    if i in a.mem.chosen then a
    else
      var flagged := SetChosen(a.mem, i);
      var stored := Store(flagged, i, Record(Info(flagged, i).promise, b, v));
      var a' := a.(mem := stored, maxProposed := Max(i, a.maxProposed));
      if a'.mem.minChosen + 1 > a'.trim then OnTrim(a', a'.mem.minChosen) else a'
  }

  function OnRepeat(a: StdAcceptor, i: Iid): Option<Msg> {
    var info := Info(a.mem, i);
    if i in a.mem.chosen then Some(Chosen(i, Classic(info.valueBallot), info.value))
    else if BallotGt(info.promise, INVALID_BALLOT) && BallotGt(info.valueBallot, INVALID_BALLOT) then
      Some(Accepted(a.id, i, Classic(info.valueBallot), info.value))
    else None
  }

  /** A crash loses everything but the disk. The trim point is never written, so it restarts at 0. */
  function Crash(a: StdAcceptor): StdAcceptor {
    StdAcceptor(a.id, a.disk, Rebuild(a.disk, 0), 0, 0)
  }

  function Step(a: StdAcceptor, m: Msg): (StdAcceptor, Option<Msg>) {
    match m
    case Prepare(i, r) => OnPrepare(a, i, r.ballot)
    case Accept(i, r, v) => OnAccept(a, i, r.ballot, v)
    case Chosen(i, r, v) => (OnChosen(a, i, r.ballot, v), None)
    case Trim(t) => (OnTrim(a, t), None)
    case _ => (a, None)
  }
}
