/** The acceptor of paxos/epoch_acceptor.c. Promises live in memory only; the disk holds the votes and an epoch
    that rises at every restart, so that every forgotten promise lies below the new epoch. */
module EpochAcceptor {
  import opened Types
  import M = Memory

  const TRIM_LAG := 10000

  /** The volatile store of paxos/epoch_paxos_storage.c: an ordinary store of promises and votes, and beside it
      the epochs of the votes. */
  datatype Store = Store(base: M.Memory, epochs: map<Iid, nat>)

  const EMPTY_STORE := Store(M.Memory(map[], map[], {}, 0), map[])

  type Vote = (Round, Value)

  function GetVote(s: Store, i: Iid): Option<Vote> {
    if i !in s.base.accepts then None
    else Some((Round(if i in s.epochs then s.epochs[i] else 0, s.base.accepts[i].0), s.base.accepts[i].1))
  }

  function StoreVote(s: Store, i: Iid, vote: Vote): Store {
    Store(s.base.(accepts := s.base.accepts[i := (vote.0.ballot, vote.1)]), s.epochs[i := vote.0.epoch])
  }

  function StorePromise(s: Store, i: Iid, b: Ballot): Store { s.(base := M.StorePromise(s.base, i, b)) }

  function DropBelow(s: Store, cutoff: nat): Store {
    Store(M.DropBelow(s.base, cutoff), map i | i in s.epochs && i >= cutoff :: s.epochs[i])
  }

  /** A store holding the given votes and nothing else. */
  function Recovered(votes: map<Iid, Vote>): Store {
    Store(M.Memory(map[], map i | i in votes :: (votes[i].0.ballot, votes[i].1), {}, 0),
          map i | i in votes :: votes[i].0.epoch)
  }

  datatype Disk = Disk(epoch: nat, votes: map<Iid, Vote>)

  datatype EpAcceptor = EpAcceptor(
    id: Aid,
    disk: Disk,
    mem: Store,
    epoch: nat,
    trim: Iid,
    maxProposed: Iid)

  function DiskVote(a: EpAcceptor, i: Iid): Option<Vote> {
    if i in a.disk.votes then Some(a.disk.votes[i]) else None
  }

  /** The lowest round this acceptor still grants: its epoch with the last promise made in memory. */
  function Floor(a: EpAcceptor, i: Iid): Round { Round(a.epoch, M.LastPromise(a.mem.base, i)) }

  /** The first boot finds no stored epoch, reads it as 0, and like every later one stores the next. */
  function Boot(id: Aid): EpAcceptor { EpAcceptor(id, Disk(1, map[]), EMPTY_STORE, 1, 0, 0) }

  function RaiseEpoch(a: EpAcceptor, e: nat): EpAcceptor {
    if e > a.epoch then a.(epoch := e, disk := a.disk.(epoch := e)) else a
  }

  function Propose(a: EpAcceptor, i: Iid): EpAcceptor { a.(maxProposed := Max(i, a.maxProposed)) }

  function ReportedRound(v: Option<Vote>): Round { if v.Some? then v.value.0 else ZERO }

  function ReportedValue(v: Option<Vote>): Value { if v.Some? then v.value.1 else [] }

  /** What is answered for trimmed and chosen instances. */
  function Closed(a: EpAcceptor, i: Iid): Option<Msg> {
    if i <= a.trim then Some(Trim(a.trim))
    else if i in a.mem.base.chosen then
      Some(Chosen(i, ReportedRound(GetVote(a.mem, i)), ReportedValue(GetVote(a.mem, i))))
    else None
  }

  /** Record the promise of round r, epoch first. */
  function GivePromise(a: EpAcceptor, i: Iid, r: Round): (EpAcceptor, Option<Msg>) {
    var a' := RaiseEpoch(Propose(a, i), r.epoch);
    (a'.(mem := StorePromise(a.mem, i, r.ballot)),
     Some(Promise(a.id, i, r, ReportedRound(GetVote(a.mem, i)), ReportedValue(GetVote(a.mem, i)))))
  }

  /** A prepare that names no epoch is promised in the acceptor's own. */
  function OnStandardPrepare(a: EpAcceptor, i: Iid, b: Ballot): (EpAcceptor, Option<Msg>) {
    if Closed(a, i).Some? then (a, Closed(a, i))
    else if BallotGe(b, M.LastPromise(a.mem.base, i)) then GivePromise(a, i, Round(a.epoch, b))
    else (a, Some(Preempted(a.id, i, Round(a.epoch, b), Floor(a, i))))
  }

  function OnPrepare(a: EpAcceptor, i: Iid, r: Round): (EpAcceptor, Option<Msg>) {
    if Closed(a, i).Some? then (a, Closed(a, i))
    else if RoundGe(r, Floor(a, i)) then GivePromise(a, i, r)
    else (a, Some(Preempted(a.id, i, r, Floor(a, i))))
  }

  function OnAccept(a: EpAcceptor, i: Iid, r: Round, v: Value): (EpAcceptor, Option<Msg>) {
    if Closed(a, i).Some? then (a, Closed(a, i))
    else if RoundGe(r, Floor(a, i)) then
      var a' := RaiseEpoch(Propose(a, i), r.epoch);
      (a'.(disk := a'.disk.(votes := a.disk.votes[i := (r, v)]),
           mem := StoreVote(StorePromise(a.mem, i, r.ballot), i, (r, v))),
       Some(Accepted(a.id, i, r, v)))
    else (a, Some(Preempted(a.id, i, r, Floor(a, i))))
  }

  function OnTrim(a: EpAcceptor, t: Iid): EpAcceptor {
    if t > a.trim && a.mem.base.minChosen + 1 > t then
      a.(trim := t,
         mem := if t > TRIM_LAG then DropBelow(a.mem, t - TRIM_LAG) else a.mem,
         maxProposed := Max(t, a.maxProposed))
    else a
  }

  /** A chosen value replaces promise and vote in memory only. */
  function OnChosen(a: EpAcceptor, i: Iid, r: Round, v: Value): EpAcceptor {
    var a0 := Propose(a, i);
    if i in a.mem.base.chosen then a0
    else
      var flagged := a.mem.(base := M.SetChosen(a.mem.base, i));
      var a' := a0.(mem := StoreVote(StorePromise(flagged, i, r.ballot), i, (r, v)));
      if a'.mem.base.minChosen + 1 > a'.trim then OnTrim(a', a'.mem.base.minChosen) else a'
  }

  function OnRepeat(a: EpAcceptor, i: Iid): Option<Msg> {
    var vote := GetVote(a.mem, i);
    if i in a.mem.base.chosen then Some(Chosen(i, ReportedRound(vote), ReportedValue(vote)))
    else if vote.Some? && BallotGt(vote.value.0.ballot, INVALID_BALLOT) then
      Some(Accepted(a.id, i, vote.value.0, vote.value.1))
    else None
  }

  /** A restart raises the stored epoch, recovers the stored votes, and forgets every promise, every chosen
      flag and the trim point. The new epoch is announced. */
  function Crash(a: EpAcceptor): (EpAcceptor, Option<Msg>) {
    var e := a.disk.epoch + 1;
    (EpAcceptor(a.id, a.disk.(epoch := e), Recovered(a.disk.votes), e, 0, 0), Some(NewEpoch(e)))
  }

  /** The first boot is a restart from an empty disk, where the epoch reads as 0. */
  lemma BootIsRestart(a: EpAcceptor)
    requires a.disk == Disk(0, map[])
    ensures Crash(a).0 == Boot(a.id)
  {
    assert Recovered(map[]) == EMPTY_STORE;
  }

  function Step(a: EpAcceptor, m: Msg): (EpAcceptor, Option<Msg>) {
    match m
    case StandardPrepare(i, b) => OnStandardPrepare(a, i, b)
    case Prepare(i, r) => OnPrepare(a, i, r)
    case Accept(i, r, v) => OnAccept(a, i, r, v)
    case Chosen(i, r, v) => (OnChosen(a, i, r, v), None)
    case Trim(t) => (OnTrim(a, t), None)
    case NewEpoch(e) => (RaiseEpoch(a, e), None)
    case _ => (a, None)
  }

  /** Storing a vote as two maps and reading it back loses nothing, and touches no other instance. */
  lemma VoteRoundTrip(s: Store, i: Iid, vote: Vote, j: Iid)
    ensures GetVote(StoreVote(s, i, vote), j) == if j == i then Some(vote) else GetVote(s, j)
  {}

  /** Recovery brings back exactly the votes on disk. */
  lemma RecoveryRoundTrip(votes: map<Iid, Vote>, i: Iid)
    ensures GetVote(Recovered(votes), i) == if i in votes then Some(votes[i]) else None
  {}
}
