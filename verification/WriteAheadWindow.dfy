/** The write-ahead acceptor's window: in every step the stable promise covers the promises actually made,
    leads them by at most the window, and is lowered by nothing but a chosen message. */
module WriteAheadWindow {
  import opened Types
  import opened Memory
  import opened WriteAheadAcceptor

  /** The stable promise covers the volatile one and leads it by at most the window. */
  ghost predicate WindowOK(a: WaAcceptor, i: Iid) {
    var made, stable := LastPromise(a.vol, i), LastPromise(a.dup, i);
    BallotGe(stable, made) && stable.number <= made.number + a.window
  }

  /** All stores hold the same vote, never above the promise; duplicate and disk hold the same promise. */
  ghost predicate StoresAgree(a: WaAcceptor, i: Iid) {
    && LastAccept(a.vol, i) == LastAccept(a.dup, i)
    && BallotGe(LastPromise(a.vol, i), LastAccept(a.vol, i).0)
    && (i > a.trim || i in a.flagged ==> Info(a.dup, i) == DiskRecord(a.disk, i))
  }

  ghost predicate Local(a: WaAcceptor) {
    && (forall i | i > a.trim :: WindowOK(a, i))
    && (forall i :: StoresAgree(a, i))
  }

  /** No stable promise got lower. */
  ghost predicate NoLower(a: WaAcceptor, a': WaAcceptor) {
    forall i | i > a.trim :: BallotGe(LastPromise(a'.dup, i), LastPromise(a.dup, i))
  }

  lemma BootLocal(id: Aid, window: nat, catchup: nat)
    ensures Local(Boot(id, window, catchup))
  {}

  /** A window write at or after the volatile promise. */
  lemma WriteWindowLocal(a: WaAcceptor, i: Iid, number: nat)
    requires Local(a) && (i > a.trim || i in a.flagged)
    requires LastPromise(a.vol, i).number <= number + a.window
    requires number <= LastPromise(a.vol, i).number
    ensures Local(WriteWindow(a, i, number))
    ensures i > a.trim && LastPromise(a.dup, i).number <= number + a.window ==> NoLower(a, WriteWindow(a, i, number))
  {
    var a' := WriteWindow(a, i, number);
    forall j ensures StoresAgree(a', j) { assert StoresAgree(a, j) && StoresAgree(a, i); }
    forall j | j > a.trim ensures WindowOK(a', j) { assert WindowOK(a, j); }
  }

  /** Making a promise the stable store already covers. */
  lemma PromiseLocal(a: WaAcceptor, i: Iid, b: Ballot, f: seq<Iid>)
    requires Local(a) && i > a.trim && BallotGe(b, LastPromise(a.vol, i)) && BallotGe(LastPromise(a.dup, i), b)
    requires forall j | j in f :: j in a.flagged || j == i
    ensures Local(a.(vol := StorePromise(a.vol, i, b), flagged := f))
  {
    var a' := a.(vol := StorePromise(a.vol, i, b), flagged := f);
    forall j ensures StoresAgree(a', j) { assert StoresAgree(a, j); }
    forall j | j > a.trim ensures WindowOK(a', j) { assert WindowOK(a, j); }
  }

  /** Making a promise above the stable one, with a window write. */
  lemma PromiseWriteLocal(a: WaAcceptor, i: Iid, b: Ballot)
    requires Local(a) && i > a.trim && BallotGt(b, LastPromise(a.dup, i))
    ensures var a' := WriteWindow(a, i, b.number).(vol := StorePromise(a.vol, i, b)); Local(a') && NoLower(a, a')
  {
    var a' := WriteWindow(a, i, b.number).(vol := StorePromise(a.vol, i, b));
    assert WindowOK(a, i) && StoresAgree(a, i);
    forall j ensures StoresAgree(a', j) { assert StoresAgree(a, j); }
    forall j | j > a.trim ensures WindowOK(a', j) { assert WindowOK(a, j); }
  }

  lemma PrepareLocal(a: WaAcceptor, i: Iid, b: Ballot)
    requires Local(a)
    ensures Local(OnPrepare(a, i, b).0) && NoLower(a, OnPrepare(a, i, b).0)
  {
    if i > a.trim && i !in a.vol.chosen && BallotGe(b, LastPromise(a.vol, i)) {
      if BallotGt(b, LastPromise(a.dup, i)) {
        PromiseWriteLocal(a, i, b);
      } else {
        PromiseLocal(a, i, b, CheckAndFlag(a, i, b, LastPromise(a.dup, i)).flagged);
      }
    }
  }

  lemma AcceptLocal(a: WaAcceptor, i: Iid, b: Ballot, v: Value)
    requires Local(a)
    ensures Local(OnAccept(a, i, b, v).0) && NoLower(a, OnAccept(a, i, b, v).0)
  {
    var a' := OnAccept(a, i, b, v).0;
    assert i > a.trim ==> WindowOK(a, i);
    forall j ensures StoresAgree(a', j) { assert StoresAgree(a, j); }
    forall j | j > a.trim ensures WindowOK(a', j) { assert WindowOK(a, j); }
  }

  lemma ChosenLocal(a: WaAcceptor, i: Iid, b: Ballot, v: Value)
    requires Local(a)
    ensures Local(OnChosen(a, i, b, v))
  {
    var a' := OnChosen(a, i, b, v);
    forall j ensures StoresAgree(a', j) { assert StoresAgree(a, j); }
    forall j | j > a.trim ensures WindowOK(a', j) { assert WindowOK(a, j); }
  }

  lemma TrimLocal(a: WaAcceptor, t: Iid)
    requires Local(a)
    ensures Local(OnTrim(a, t)) && NoLower(a, OnTrim(a, t))
  {
    var a' := OnTrim(a, t);
    forall j ensures StoresAgree(a', j) { assert StoresAgree(a, j); }
    forall j | j > a'.trim ensures WindowOK(a', j) { assert WindowOK(a, j); }
  }

  lemma {:induction false} RenewLocal(a: WaAcceptor, flagged: seq<Iid>)
    requires Local(a) && forall i | i in flagged :: i in a.flagged
    ensures var a' := Renew(a, flagged);
      && Local(a') && NoLower(a, a')
      && a' == a.(disk := a'.disk, dup := a'.dup)
    decreases |flagged|
  {
    if flagged != [] {
      var i := flagged[0];
      var n := LastPromise(a.vol, i).number;
      assert i in flagged && (i > a.trim ==> WindowOK(a, i));
      WriteWindowLocal(a, i, n);
      var a1 := WriteWindow(a, i, n);
      RenewLocal(a1, flagged[1..]);
      var a' := Renew(a, flagged);
      forall j | j > a.trim ensures BallotGe(LastPromise(a'.dup, j), LastPromise(a.dup, j)) {
        assert BallotGe(LastPromise(a'.dup, j), LastPromise(a1.dup, j));
      }
    }
  }

  lemma FlushLocal(a: WaAcceptor)
    requires Local(a)
    ensures Local(Flush(a)) && NoLower(a, Flush(a))
    ensures Flush(a) == a.(disk := Flush(a).disk, dup := Flush(a).dup, flagged := [])
  {
    RenewLocal(a, a.flagged);
    var a1, a' := Renew(a, a.flagged), Flush(a);
    forall j ensures StoresAgree(a', j) { assert StoresAgree(a1, j); }
    forall j | j > a.trim ensures WindowOK(a', j) { assert WindowOK(a1, j); }
  }

  lemma {:induction false} RenewStableLocal(a: WaAcceptor, from: Iid, to: Iid)
    requires Local(a) && from > a.trim
    requires forall i | i >= from :: LastPromise(a.dup, i) == LastPromise(a.vol, i)
    ensures var a' := RenewStable(a, from, to);
      && Local(a') && NoLower(a, a')
      && a' == a.(disk := a'.disk, dup := a'.dup)
    decreases if from <= to then to - from + 1 else 0
  {
    if from <= to {
      assert StoresAgree(a, from);
      var n := DiskRecord(a.disk, from).promise.number;
      WriteWindowLocal(a, from, n);
      var a1 := WriteWindow(a, from, n);
      RenewStableLocal(a1, from + 1, to);
      var a' := RenewStable(a, from, to);
      forall j | j > a.trim ensures BallotGe(LastPromise(a'.dup, j), LastPromise(a.dup, j)) {
        assert BallotGe(LastPromise(a'.dup, j), LastPromise(a1.dup, j));
      }
    }
  }

  /** After a crash the volatile promise is the old stable one, so it never falls below a promise made. */
  lemma CrashLocal(a: WaAcceptor, n: Iid)
    requires Local(a)
    ensures var a' := Crash(a, n);
      && Local(a') && NoLower(a, a')
      && a'.vol == Rebuild(a.disk, a.trim) && a'.trim == a.trim && a'.id == a.id
      && (forall i: Iid | i > a.trim ::
            LastPromise(a'.vol, i) == LastPromise(a.dup, i) && LastAccept(a'.vol, i) == LastAccept(a.vol, i))
  {
    var a1 := a.(dup := Rebuild(a.disk, a.trim), vol := Rebuild(a.disk, a.trim), flagged := []);
    forall i: Iid ensures StoresAgree(a1, i) && (i > a.trim ==> Info(a1.vol, i) == Info(a.dup, i)) {
      RebuildRoundTrip(a.disk, a.trim, i);
      assert StoresAgree(a, i) && (i > a.trim ==> WindowOK(a, i));
    }
    RenewStableLocal(a1, a.trim + 1, n);
    var a' := Crash(a, n);
    forall i: Iid | i > a.trim
      ensures LastPromise(a'.vol, i) == LastPromise(a.dup, i) && LastAccept(a'.vol, i) == LastAccept(a.vol, i)
      ensures BallotGe(LastPromise(a'.dup, i), LastPromise(a.dup, i))
    {
      assert StoresAgree(a, i) && Info(a1.vol, i) == Info(a.dup, i);
      assert BallotGe(LastPromise(a'.dup, i), LastPromise(a1.dup, i));
    }
  }

  // ---------------------------------------------------------------- when windows are renewed

  /** An instance is flagged by a promise that needs no write exactly when the promise came within the catch-up
      distance of the stable one; no other instance is touched. */
  lemma FlaggedIff(a: WaAcceptor, i: Iid, b: Ballot, j: Iid)
    requires i > a.trim && i !in a.vol.chosen
    requires BallotGe(b, LastPromise(a.vol, i)) && BallotGe(LastPromise(a.dup, i), b)
    ensures j in OnPrepare(a, i, b).0.flagged <==>
      j in a.flagged || (j == i && LastPromise(a.dup, i).number - b.number < a.catchup)
  {}

  lemma {:induction false} RenewedWindow(a: WaAcceptor, flagged: seq<Iid>, i: Iid)
    ensures LastPromise(Renew(a, flagged).dup, i) ==
      if i in flagged then Ahead(LastPromise(a.vol, i).number, a.window) else LastPromise(a.dup, i)
    decreases |flagged|
  {
    if flagged != [] {
      RenewedWindow(WriteWindow(a, flagged[0], LastPromise(a.vol, flagged[0]).number), flagged[1..], i);
    }
  }

  /** Renewal gives every flagged instance, and no other, a full window ahead of its volatile promise. */
  lemma FlushRenews(a: WaAcceptor, i: Iid)
    ensures LastPromise(Flush(a).dup, i) ==
      if i in a.flagged then Ahead(LastPromise(a.vol, i).number, a.window) else LastPromise(a.dup, i)
    ensures Flush(a).flagged == []
  {
    RenewedWindow(a, a.flagged, i);
  }

  lemma {:induction false} RenewedStable(a: WaAcceptor, from: Iid, to: Iid, i: Iid)
    ensures LastPromise(RenewStable(a, from, to).dup, i) ==
      if from <= i <= to then Ahead(DiskRecord(a.disk, i).promise.number, a.window) else LastPromise(a.dup, i)
    decreases if from <= to then to - from + 1 else 0
  {
    if from <= to {
      RenewedStable(WriteWindow(a, from, DiskRecord(a.disk, from).promise.number), from + 1, to, i);
    }
  }

  /** Recovery gives every untrimmed instance up to the highest stored one a full window ahead of its stable promise. */
  lemma CrashRenews(a: WaAcceptor, n: Iid, i: Iid)
    requires a.trim < i <= n
    ensures LastPromise(Crash(a, n).dup, i) == Ahead(DiskRecord(a.disk, i).promise.number, a.window)
  {
    RenewedStable(a.(dup := Rebuild(a.disk, a.trim), vol := Rebuild(a.disk, a.trim), flagged := []), a.trim + 1, n, i);
  }
}
