/** The standard acceptor keeps its promises across crashes, and its memory agrees with its disk. */
module StandardAcceptorProof {
  import opened Types
  import opened Memory
  import opened Voting
  import opened ClassicNet
  import opened StandardAcceptor

  /** The acceptor has promised the ballot or voted at it; nothing yet, if it is the invalid one. */
  ghost predicate Made(net: set<Msg>, id: Aid, i: Iid, b: Ballot) {
    || b == INVALID_BALLOT
    || (exists lr, lv :: Promise(id, i, Classic(b), lr, lv) in net)
    || (exists v :: Accepted(id, i, Classic(b), v) in net)
  }

  lemma MadeGrows(net: set<Msg>, n: Msg, id: Aid, i: Iid, b: Ballot)
    requires Made(net, id, i, b)
    ensures Made(net + {n}, id, i, b)
  {
    if lr, lv :| Promise(id, i, Classic(b), lr, lv) in net {
      assert Promise(id, i, Classic(b), lr, lv) in net + {n};
    } else if v :| Accepted(id, i, Classic(b), v) in net {
      assert Accepted(id, i, Classic(b), v) in net + {n};
    }
  }

  /** A stable record: the promise was made, the vote is really on the wire and never above the promise. */
  ghost predicate RecordOK(net: set<Msg>, id: Aid, i: Iid, r: Record) {
    && BallotGe(r.promise, r.valueBallot)
    && Made(net, id, i, r.promise)
    && (r.valueBallot == INVALID_BALLOT || Accepted(id, i, Classic(r.valueBallot), r.value) in net)
  }

  /** The disk remembers every promise and vote of this acceptor. */
  ghost predicate DiskOK(net: set<Msg>, id: Aid, disk: map<Iid, Record>) {
    && (forall i :: RecordOK(net, id, i, DiskRecord(disk, i)))
    && (forall m | m in net && m.Promise? && m.aid == id ::
          BallotGe(DiskRecord(disk, m.iid).promise, m.round.ballot))
    && (forall m | m in net && m.Accepted? && m.aid == id ::
          BallotGe(DiskRecord(disk, m.iid).valueBallot, m.round.ballot))
  }

  /** Memory agrees with disk on every instance that is neither flagged chosen nor forgotten after a trim. */
  ghost predicate Agrees(a: StdAcceptor, i: Iid) {
    i !in a.mem.chosen ==>
      || Info(a.mem, i) == DiskRecord(a.disk, i)
      || (i <= a.trim && Info(a.mem, i) == EMPTY)
  }

  ghost predicate FlagOK(c: Config, net: set<Msg>, a: StdAcceptor, i: Iid) {
    i in a.mem.chosen ==> ChosenOK(c, net, i, Classic(Info(a.mem, i).valueBallot), Info(a.mem, i).value)
  }

  ghost predicate StdOK(c: Config, net: set<Msg>, a: StdAcceptor) {
    && a.id in c.acceptors
    && DiskOK(net, a.id, a.disk)
    && (forall i :: Agrees(a, i))
    && (forall i :: FlagOK(c, net, a, i))
    && a.trim <= a.mem.minChosen
    && TrimOK(c, net, a.mem.minChosen)
  }

  /** What the rest of the system needs of an answer. */
  ghost predicate AnswerOK(c: Config, net: set<Msg>, id: Aid, out: Option<Msg>) {
    out.Some? ==>
      && MayAdd(c, net, out.value) && MsgOK(c, net, out.value)
      && (out.value.Promise? || out.value.Accepted? ==> out.value.aid == id)
      && !out.value.Prepare? && !out.value.Accept?
  }

  ghost predicate StepFine(c: Config, net: set<Msg>, id: Aid, r: (StdAcceptor, Option<Msg>)) {
    AnswerOK(c, net, id, r.1) && StdOK(c, net + ToSet(r.1), r.0)
  }

  lemma SilentFine(c: Config, net: set<Msg>, a: StdAcceptor, id: Aid)
    requires StdOK(c, net, a)
    ensures StepFine(c, net, id, (a, None))
  {
    assert net + {} == net;
  }

  lemma BootOK(c: Config, id: Aid)
    requires id in c.acceptors
    ensures StdOK(c, {}, Boot(id))
  {}

  /** Messages of others change nothing. */
  lemma Grows(c: Config, net: set<Msg>, a: StdAcceptor, n: Msg)
    requires StdOK(c, net, a) && ReportsAllVotes(net, n)
    requires n.Promise? || n.Accepted? ==> n.aid != a.id
    ensures StdOK(c, net + {n}, a)
  {
    forall i ensures RecordOK(net + {n}, a.id, i, DiskRecord(a.disk, i)) {
      assert RecordOK(net, a.id, i, DiskRecord(a.disk, i));
      MadeGrows(net, n, a.id, i, DiskRecord(a.disk, i).promise);
    }
    forall i ensures FlagOK(c, net + {n}, a, i) {
      assert FlagOK(c, net, a, i);
      if i in a.mem.chosen {
        ChosenOKGrows(c, net, n, i, Classic(Info(a.mem, i).valueBallot), Info(a.mem, i).value);
      }
    }
    TrimGrows(c, net, net + {n}, a.mem.minChosen);
  }

  lemma PrepareOK(c: Config, net: set<Msg>, a: StdAcceptor, m: Msg)
    requires NetInv(c, net) && StdOK(c, net, a) && m in net && m.Prepare?
    ensures StepFine(c, net, a.id, OnPrepare(a, m.iid, m.round.ballot))
  {
    var i, b := m.iid, m.round.ballot;
    var (a', out) := OnPrepare(a, i, b);
    assert MsgOK(c, net, m);
    assert Agrees(a, i) && FlagOK(c, net, a, i);
    if i <= a.trim || i in a.mem.chosen || !BallotGe(b, Info(a.mem, i).promise) {
      NewFromOther(c, net, a, out.value);
    } else {
      var n := out.value;
      var prev := DiskRecord(a.disk, i);
      assert RecordOK(net, a.id, i, prev);
      assert prev.valueBallot != INVALID_BALLOT ==>
        MsgOK(c, net, Accepted(a.id, i, Classic(prev.valueBallot), prev.value));
      assert MayAdd(c, net, n) && MsgOK(c, net, n);
      DiskStoredOK(net, a.id, a.disk, i, prev.(promise := b), n);
      StoredOK(c, net, a, i, prev.(promise := b), n, Max(i, a.maxProposed));
    }
  }

  /** An answer that is neither promise nor vote leaves the acceptor as it was. */
  lemma NewFromOther(c: Config, net: set<Msg>, a: StdAcceptor, n: Msg)
    requires StdOK(c, net, a) && !n.Promise? && !n.Accepted?
    ensures StdOK(c, net + {n}, a)
  {
    Grows(c, net, a, n);
  }

  lemma DiskStoredOK(net: set<Msg>, id: Aid, disk: map<Iid, Record>, i: Iid, r: Record, n: Msg)
    requires DiskOK(net, id, disk)
    requires n.Promise? || n.Accepted?
    requires n.aid == id && n.iid == i && n.round.ballot == r.promise
    requires RecordOK(net + {n}, id, i, r)
    requires BallotGe(r.promise, DiskRecord(disk, i).promise)
    requires BallotGe(r.valueBallot, DiskRecord(disk, i).valueBallot)
    requires n.Accepted? ==> r.valueBallot == r.promise
    ensures DiskOK(net + {n}, id, disk[i := r])
  {
    var disk' := disk[i := r];
    forall j ensures RecordOK(net + {n}, id, j, DiskRecord(disk', j)) {
      assert RecordOK(net, id, j, DiskRecord(disk, j));
      MadeGrows(net, n, id, j, DiskRecord(disk, j).promise);
    }
  }

  /** Storing a record on disk and in memory together with the message that announces it. */
  lemma StoredOK(c: Config, net: set<Msg>, a: StdAcceptor, i: Iid, r: Record, n: Msg, k: Iid)
    requires StdOK(c, net, a) && i > a.trim && i !in a.mem.chosen
    requires ReportsAllVotes(net, n)
    requires DiskOK(net + {n}, a.id, a.disk[i := r])
    ensures StdOK(c, net + {n}, a.(disk := a.disk[i := r], mem := Store(a.mem, i, r), maxProposed := k))
  {
    var a' := a.(disk := a.disk[i := r], mem := Store(a.mem, i, r), maxProposed := k);
    forall j ensures Agrees(a', j) && FlagOK(c, net + {n}, a', j) {
      assert Agrees(a, j) && FlagOK(c, net, a, j);
      if j in a.mem.chosen {
        ChosenOKGrows(c, net, n, j, Classic(Info(a.mem, j).valueBallot), Info(a.mem, j).value);
      }
    }
    TrimGrows(c, net, net + {n}, a.mem.minChosen);
  }

  lemma AcceptOK(c: Config, net: set<Msg>, a: StdAcceptor, m: Msg)
    requires NetInv(c, net) && StdOK(c, net, a) && m in net && m.Accept?
    ensures StepFine(c, net, a.id, OnAccept(a, m.iid, m.round.ballot, m.value))
  {
    var i, b := m.iid, m.round.ballot;
    var (a', out) := OnAccept(a, i, b, m.value);
    assert MsgOK(c, net, m);
    assert Agrees(a, i) && FlagOK(c, net, a, i);
    if i <= a.trim || i in a.mem.chosen || !BallotGe(b, Info(a.mem, i).promise) {
      NewFromOther(c, net, a, out.value);
    } else {
      var n := out.value;
      assert m == Accept(i, Classic(b), m.value);
      assert RecordOK(net, a.id, i, DiskRecord(a.disk, i));
      assert MayAdd(c, net, n);
      DiskStoredOK(net, a.id, a.disk, i, Record(b, b, m.value), n);
      StoredOK(c, net, a, i, Record(b, b, m.value), n, Max(i, a.maxProposed));
    }
  }

  lemma TrimStepOK(c: Config, net: set<Msg>, a: StdAcceptor, t: Iid)
    requires StdOK(c, net, a)
    ensures StdOK(c, net, OnTrim(a, t))
  {
    var a' := OnTrim(a, t);
    forall i ensures Agrees(a', i) && FlagOK(c, net, a', i) {
      assert Agrees(a, i) && FlagOK(c, net, a, i);
    }
  }

  lemma ChosenStepOK(c: Config, net: set<Msg>, a: StdAcceptor, m: Msg)
    requires NetInv(c, net) && StdOK(c, net, a) && m in net && m.Chosen?
    ensures StdOK(c, net, OnChosen(a, m.iid, m.round.ballot, m.value))
  {
    var i, b, v := m.iid, m.round.ballot, m.value;
    if i !in a.mem.chosen {
      assert MsgOK(c, net, m);
      var flagged := SetChosen(a.mem, i);
      var a' := a.(mem := Store(flagged, i, Record(Info(flagged, i).promise, b, v)),
                   maxProposed := Max(i, a.maxProposed));
      forall j ensures Agrees(a', j) && FlagOK(c, net, a', j) {
        assert Agrees(a, j) && FlagOK(c, net, a, j);
      }
      forall j | 0 < j <= a'.mem.minChosen ensures IsDecided(c, net, j) {
        if j > a.mem.minChosen {
          assert j in a'.mem.chosen && FlagOK(c, net, a', j);
          ChosenOKIsDecided(c, net, j, Classic(Info(a'.mem, j).valueBallot), Info(a'.mem, j).value);
        }
      }
      assert StdOK(c, net, a');
      TrimStepOK(c, net, a', a'.mem.minChosen);
    }
  }

  lemma StepOK(c: Config, net: set<Msg>, a: StdAcceptor, m: Msg)
    requires NetInv(c, net) && StdOK(c, net, a) && m in net
    ensures StepFine(c, net, a.id, Step(a, m))
  {
    match m
    case Prepare(_, _) => PrepareOK(c, net, a, m);
    case Accept(_, _, _) => AcceptOK(c, net, a, m);
    case Chosen(i, r, v) => ChosenStepOK(c, net, a, m); SilentFine(c, net, OnChosen(a, i, r.ballot, v), a.id);
    case Trim(t) => TrimStepOK(c, net, a, t); SilentFine(c, net, OnTrim(a, t), a.id);
    case _ => SilentFine(c, net, a, a.id);
  }

  lemma StepKeepsId(a: StdAcceptor, m: Msg)
    ensures Step(a, m).0.id == a.id
  {}

  lemma RepeatOK(c: Config, net: set<Msg>, a: StdAcceptor, i: Iid)
    requires NetInv(c, net) && StdOK(c, net, a)
    ensures AnswerOK(c, net, a.id, OnRepeat(a, i))
    ensures OnRepeat(a, i).Some? && OnRepeat(a, i).value.Accepted? ==> OnRepeat(a, i).value in net
  {
    assert Agrees(a, i) && FlagOK(c, net, a, i) && RecordOK(net, a.id, i, DiskRecord(a.disk, i));
    var out := OnRepeat(a, i);
    if out.Some? && out.value.Accepted? {
      var n := out.value;
      assert n in net && MsgOK(c, net, n);
      assert VotesProposed(c, net) && PromisesKept(c, net);
    }
  }

  lemma CrashOK(c: Config, net: set<Msg>, a: StdAcceptor)
    requires StdOK(c, net, a)
    ensures StdOK(c, net, Crash(a))
  {
    forall i ensures Agrees(Crash(a), i) {
      RebuildRoundTrip(a.disk, 0, i);
      assert RecordOK(net, a.id, i, DiskRecord(a.disk, i));
    }
  }
}
