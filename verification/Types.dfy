/** Ballots, rounds, values and messages shared by every role.
    Numbers are unbounded: wrap-around of 32-bit fields is modelled only where a module says so. */
module Types {

  datatype Option<+T> = None | Some(value: T)

  type Iid = nat   // instance identifier; instance 0 is INVALID_INSTANCE
  type Aid = nat   // acceptor identifier
  const UINT32_MAX: nat := 0xFFFF_FFFF
  type Pid = x: int | 0 <= x <= UINT32_MAX   // proposer identifier
  newtype Byte = x: int | 0 <= x < 256
  type Value = seq<Byte>

  datatype Ballot = Ballot(number: nat, proposer: Pid)

  const INVALID_BALLOT := Ballot(0, 0)

  /** The order of paxos/ballot.c: number first, proposer identifier second. */
  predicate BallotGt(l: Ballot, r: Ballot) {
    l.number > r.number || (l.number == r.number && l.proposer > r.proposer)
  }

  predicate BallotGe(l: Ballot, r: Ballot) {
    l.number > r.number || (l.number == r.number && l.proposer >= r.proposer)
  }

  /** An epoch ballot. The protocols without epochs live entirely in epoch 0. */
  datatype Round = Round(epoch: nat, ballot: Ballot)

  /** The round of "nothing accepted yet". */
  const ZERO := Round(0, INVALID_BALLOT)

  function Classic(b: Ballot): Round { Round(0, b) }

  /** The lexicographic order on epoch ballots. */
  predicate RoundGt(l: Round, r: Round) {
    l.epoch > r.epoch || (l.epoch == r.epoch && BallotGt(l.ballot, r.ballot))
  }

  predicate RoundGe(l: Round, r: Round) {
    l.epoch > r.epoch || (l.epoch == r.epoch && BallotGe(l.ballot, r.ballot))
  }

  /** Messages. A trim point travels in trim, acceptor-state and proposer-state messages alike, and every
      receiver treats the three the same way, so one constructor stands for all of them. */
  datatype Msg =
    | Prepare(iid: Iid, round: Round)
    | StandardPrepare(iid: Iid, ballot: Ballot)   // epoch protocol: a prepare that names no epoch
    | Promise(aid: Aid, iid: Iid, round: Round, lastRound: Round, lastValue: Value)
    | Accept(iid: Iid, round: Round, value: Value)
    | Accepted(aid: Aid, iid: Iid, round: Round, value: Value)
    | Preempted(aid: Aid, iid: Iid, attempted: Round, current: Round)
    | Chosen(iid: Iid, round: Round, value: Value)
    | Trim(iid: Iid)
    | NewEpoch(epoch: nat)

  function Max(a: nat, b: nat): nat { if a > b then a else b }

  function ToSet(m: Option<Msg>): set<Msg> {
    if m.Some? then {m.value} else {}
  }

  /** Acceptors and the two quorum sizes of the configuration. */
  datatype Config = Config(acceptors: set<Aid>, q1: nat, q2: nat)

  /** What the configuration file demands of the quorum sizes: together more than the number of acceptors. */
  predicate ValidConfig(c: Config) {
    c.q2 > 0 && c.q1 + c.q2 > |c.acceptors|
  }
}
