/** The acceptors' in-memory store of paxos/hash_mapped_memory.c: split promise and accept maps, the set of
    instances learned chosen, and a lower bound on the chosen prefix. */
module Memory {
  import opened Types

  /** What an acceptor knows about one instance (struct paxos_accepted without its identifiers). */
  datatype Record = Record(promise: Ballot, valueBallot: Ballot, value: Value)

  const EMPTY := Record(INVALID_BALLOT, INVALID_BALLOT, [])

  datatype Memory = Memory(
    promises: map<Iid, Ballot>,
    accepts: map<Iid, (Ballot, Value)>,
    chosen: set<Iid>,
    minChosen: nat)   // every instance 1..minChosen is known to be chosen

  function LastPromise(m: Memory, i: Iid): Ballot {
    if i in m.promises then m.promises[i] else INVALID_BALLOT
  }

  function LastAccept(m: Memory, i: Iid): (Ballot, Value) {
    if i in m.accepts then m.accepts[i] else (INVALID_BALLOT, [])
  }

  /** The two halves joined again. */
  function Info(m: Memory, i: Iid): Record {
    Record(LastPromise(m, i), LastAccept(m, i).0, LastAccept(m, i).1)
  }

  function StorePromise(m: Memory, i: Iid, b: Ballot): Memory {
    m.(promises := m.promises[i := b])
  }

  function Store(m: Memory, i: Iid, r: Record): Memory {
    m.(promises := m.promises[i := r.promise], accepts := m.accepts[i := (r.valueBallot, r.value)])
  }

  /** How far the chosen prefix reaches after `from`, looking no further than `to`. */
  function Advance(chosen: set<Iid>, from: nat, to: nat): (r: nat)
    ensures from <= r
    ensures r <= from || r <= to
    ensures forall i | from < i <= r :: i in chosen
    ensures r < to ==> r + 1 !in chosen
    decreases if from <= to then to - from + 1 else 0
  {
    if from < to && from + 1 in chosen then Advance(chosen, from + 1, to) else from
  }

  function SetChosen(m: Memory, i: Iid): Memory {
    m.(chosen := m.chosen + {i}, minChosen := Advance(m.chosen + {i}, m.minChosen, i))
  }

  /** Forget every instance below the cut-off. */
  function DropBelow(m: Memory, cutoff: nat): Memory {
    m.(promises := map i | i in m.promises && i >= cutoff :: m.promises[i],
       accepts := map i | i in m.accepts && i >= cutoff :: m.accepts[i],
       chosen := set i | i in m.chosen && i >= cutoff)
  }

  /** Rebuild from the stable records above the trim point. */
  function Rebuild(disk: map<Iid, Record>, trim: Iid): Memory {
    Memory(map i | i in disk && i > trim :: disk[i].promise,
           map i | i in disk && i > trim :: (disk[i].valueBallot, disk[i].value),
           {}, 0)
  }

  function DiskRecord(disk: map<Iid, Record>, i: Iid): Record {
    if i in disk then disk[i] else EMPTY
  }

  /** Splitting a record and joining it again loses nothing, and touches no other instance. */
  lemma StoreRoundTrip(m: Memory, i: Iid, r: Record, j: Iid)
    ensures Info(Store(m, i, r), j) == if j == i then r else Info(m, j)
  {}

  lemma RebuildRoundTrip(disk: map<Iid, Record>, trim: Iid, i: Iid)
    ensures Info(Rebuild(disk, trim), i) == if i > trim then DiskRecord(disk, i) else EMPTY
  {}
}
