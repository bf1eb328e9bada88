/** The acceptor of paxos/writeahead_ballot_acceptor.c: the stable promise runs up to a window ahead of the
    promise actually made, so most promises are answered without a disk write.
    `disk` is the stable store, `dup` its in-memory duplicate, `vol` the promises actually made. */
module WriteAheadAcceptor {
  import opened Types
  import opened Memory

  datatype WaAcceptor = WaAcceptor(
    id: Aid,
    window: nat,
    catchup: nat,
    disk: map<Iid, Record>,
    dup: Memory,
    vol: Memory,
    trim: Iid,          // kept on disk as well
    flagged: seq<Iid>)  // instances waiting for a new window

  function MaxBallot(a: Ballot, b: Ballot): Ballot { if BallotGe(a, b) then a else b }

  function Boot(id: Aid, window: nat, catchup: nat): WaAcceptor {
    WaAcceptor(id, window, catchup, map[], Memory(map[], map[], {}, 0), Memory(map[], map[], {}, 0), 0, [])
  }

  function StoreStable(a: WaAcceptor, i: Iid, r: Record): WaAcceptor {
    a.(disk := a.disk[i := r], dup := Store(a.dup, i, r))
  }

  function Ahead(number: nat, window: nat): Ballot { Ballot(number + window, UINT32_MAX) }

  /** Write a window of promises ahead of the given ballot number. */
  function WriteWindow(a: WaAcceptor, i: Iid, number: nat): WaAcceptor {
    StoreStable(a, i, DiskRecord(a.disk, i).(promise := Ahead(number, a.window)))
  }

  /** Flag an instance whose volatile ballot has come within `catchup` of its stable one. */
  function CheckAndFlag(a: WaAcceptor, i: Iid, b: Ballot, stable: Ballot): WaAcceptor
    requires BallotGe(stable, b)
  {
    if stable.number - b.number < a.catchup && i !in a.flagged then a.(flagged := a.flagged + [i]) else a
  }

  function OnPrepare(a: WaAcceptor, i: Iid, b: Ballot): (WaAcceptor, Option<Msg>) {
    var info := Info(a.vol, i);
    var stable := LastPromise(a.dup, i);
    if i <= a.trim then (a, Some(Trim(a.trim)))
    else if i in a.vol.chosen then
      (a, Some(Chosen(i, Classic(Info(a.dup, i).valueBallot), Info(a.dup, i).value)))
    else if BallotGe(b, info.promise) then
      var a' := if BallotGt(b, stable) then WriteWindow(a, i, b.number) else CheckAndFlag(a, i, b, stable);
      (a'.(vol := StorePromise(a'.vol, i, b)),
       Some(Promise(a.id, i, Classic(b), Classic(info.valueBallot), info.value)))
    else (a, Some(Preempted(a.id, i, Classic(b), Classic(info.promise))))
  }

  /** The stable record takes the vote and keeps the larger of the stable promise and the accepted ballot. */
  function StoreVote(a: WaAcceptor, i: Iid, b: Ballot, v: Value): WaAcceptor {
    var a' := StoreStable(a, i, Record(MaxBallot(LastPromise(a.dup, i), b), b, v));
    a'.(vol := Store(a.vol, i, Record(b, b, v)))
  }

  function OnAccept(a: WaAcceptor, i: Iid, b: Ballot, v: Value): (WaAcceptor, Option<Msg>) {
    var info := Info(a.vol, i);
    if i <= a.trim then (a, Some(Trim(a.trim)))
    else if i in a.vol.chosen then (a, Some(Chosen(i, Classic(info.valueBallot), info.value)))
    else if BallotGe(b, info.promise) then (StoreVote(a, i, b, v), Some(Accepted(a.id, i, Classic(b), v)))
    else (a, Some(Preempted(a.id, i, Classic(b), Classic(info.promise))))
  }

  /** A chosen ballot above the last vote replaces promise and vote in every store, possibly lowering
      the promise; the chosen flag itself is volatile. */
  function OnChosen(a: WaAcceptor, i: Iid, b: Ballot, v: Value): WaAcceptor {
    var r := Record(b, b, v);
    var a' := if BallotGt(b, Info(a.dup, i).valueBallot)
              then StoreStable(a, i, r).(vol := Store(a.vol, i, r)) else a;
    a'.(vol := SetChosen(a'.vol, i))
  }

  function OnTrim(a: WaAcceptor, t: Iid): WaAcceptor {
    if t > a.trim then a.(trim := t) else a
  }

  function OnRepeat(a: WaAcceptor, i: Iid): Option<Msg> {
    var info := Info(a.dup, i);
    if i in a.vol.chosen then Some(Chosen(i, Classic(LastAccept(a.vol, i).0), LastAccept(a.vol, i).1))
    else if BallotGt(info.promise, INVALID_BALLOT) && |info.value| > 0 then
      Some(Accepted(a.id, i, Classic(info.valueBallot), info.value))
    else None
  }

  /** Renew the window of every flagged instance from its volatile promise. */
  function Renew(a: WaAcceptor, flagged: seq<Iid>): WaAcceptor
    decreases |flagged|
  {
    if flagged == [] then a
    else Renew(WriteWindow(a, flagged[0], LastPromise(a.vol, flagged[0]).number), flagged[1..])
  }

  function Flush(a: WaAcceptor): WaAcceptor {
    Renew(a, a.flagged).(flagged := [])
  }

  /** Recovery writes a new window ahead of the stable promise of each instance from..to. */
  function RenewStable(a: WaAcceptor, from: Iid, to: Iid): WaAcceptor
    decreases if from <= to then to - from + 1 else 0
  {
    if from > to then a
    else RenewStable(WriteWindow(a, from, DiskRecord(a.disk, from).promise.number), from + 1, to)
  }

  /** The largest instance with a stable record; 0 if there is none. */
  ghost predicate IsMaxInited(disk: map<Iid, Record>, n: Iid) {
    && (forall i | i in disk :: i <= n)
    && (n == 0 || n in disk)
  }

  /** A crash resumes from the stable records: the volatile promise becomes the stable one, and new windows
      are written ahead of it. */
  function Crash(a: WaAcceptor, maxInited: Iid): WaAcceptor {
    var a' := a.(dup := Rebuild(a.disk, a.trim), vol := Rebuild(a.disk, a.trim), flagged := []);
    RenewStable(a', a.trim + 1, maxInited)
  }

  function Step(a: WaAcceptor, m: Msg): (WaAcceptor, Option<Msg>) {
    match m
    case Prepare(i, r) => OnPrepare(a, i, r.ballot)
    case Accept(i, r, v) => OnAccept(a, i, r.ballot, v)
    case Chosen(i, r, v) => (OnChosen(a, i, r.ballot, v), None)
    case Trim(t) => (OnTrim(a, t), None)
    case _ => (a, None)
  }
}
