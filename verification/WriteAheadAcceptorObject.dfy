/** paxos/writeahead_ballot_acceptor.c as an object: a stable map, its duplicate in memory, the promises actually
    made, and the instances flagged for a new window. */
module WriteAheadAcceptorObject {
  import opened Types
  import opened HashMappedMemory
  import M = Memory
  import W = WriteAheadAcceptor

  /** Renewing the windows k..to of a gives the goal. */
  ghost predicate LeadsTo(a: W.WaAcceptor, k: Iid, to: Iid, goal: W.WaAcceptor) { W.RenewStable(a, k, to) == goal }

  lemma RenewDone(a: W.WaAcceptor, k: Iid, to: Iid)
    requires k > to
    ensures W.RenewStable(a, k, to) == a
  {}

  lemma RenewStep(a: W.WaAcceptor, k: Iid, to: Iid, number: nat)
    requires k <= to && number == M.DiskRecord(a.disk, k).promise.number
    ensures W.RenewStable(a, k, to) == W.RenewStable(W.WriteWindow(a, k, number), k + 1, to)
  {}

  class Acceptor {
    const id: Aid
    const window: nat
    const catchup: nat
    var disk: map<Iid, M.Record>
    var dup: HashMappedMemory
    var vol: HashMappedMemory
    var trim: Iid
    var flagged: seq<Iid>

    ghost predicate Valid()
      reads this, dup, vol, dup.Repr, vol.Repr
    {
      dup.Valid() && vol.Valid() && this !in dup.Repr && this !in vol.Repr && dup.Repr !! vol.Repr
    }

    ghost function View(): W.WaAcceptor
      reads this, dup, vol
    {
      W.WaAcceptor(id, window, catchup, disk, dup.view, vol.view, trim, flagged)
    }

    constructor (id: Aid, window: nat, catchup: nat)
      ensures Valid() && View() == W.Boot(id, window, catchup) && fresh(dup.Repr) && fresh(vol.Repr)
    {
      this.id, this.window, this.catchup := id, window, catchup;
      disk, trim, flagged := map[], 0, [];
      var d := New();
      var v := New();
      dup, vol := d, v;
    }

    /** One transaction, repeated in the duplicate. */
    method StoreStable(i: Iid, r: M.Record)
      requires Valid()
      modifies this`disk, dup.Repr
      ensures Valid() && fresh(dup.Repr - old(dup.Repr))
      ensures View() == W.StoreStable(old(View()), i, r)
    {
      disk := disk[i := r];
      dup.StoreInfo(i, r);
    }

    method WriteWindow(i: Iid, number: nat)
      requires Valid()
      modifies this`disk, dup.Repr
      ensures Valid() && fresh(dup.Repr - old(dup.Repr))
      ensures View() == W.WriteWindow(old(View()), i, number)
    {
      var r := if i in disk then disk[i] else M.EMPTY;
      StoreStable(i, r.(promise := Ballot(number + window, UINT32_MAX)));
    }

    method CheckAndFlag(i: Iid, b: Ballot, stable: Ballot)
      requires Valid()
      requires BallotGe(stable, b)
      modifies this`flagged
      ensures Valid()
      ensures View() == W.CheckAndFlag(old(View()), i, b, stable)
    {
      if stable.number - b.number < catchup {
        var known := false;
        for k := 0 to |flagged|
          invariant flagged == old(flagged) && (known <==> i in flagged[..k])
        {
          assert flagged[..k + 1] == flagged[..k] + [flagged[k]];
          if flagged[k] == i { known := true; }
        }
        assert flagged[..|flagged|] == flagged;
        if !known { flagged := flagged + [i]; }
      }
    }

    /** Before a promise is made: a window is written unless the stable promise covers it already. */
    method Cover(i: Iid, b: Ballot)
      requires Valid()
      modifies this`disk, this`flagged, dup.Repr
      ensures Valid() && fresh(dup.Repr - old(dup.Repr))
      ensures var a := old(View()); var stable := M.LastPromise(a.dup, i);
        View() == if BallotGt(b, stable) then W.WriteWindow(a, i, b.number) else W.CheckAndFlag(a, i, b, stable)
    {
      var stable := dup.GetPromise(i);
      if BallotGt(b, stable) { WriteWindow(i, b.number); } else { CheckAndFlag(i, b, stable); }
    }

    method ReceivePrepare(i: Iid, b: Ballot) returns (out: Option<Msg>)
      requires Valid()
      modifies this`disk, this`flagged, dup.Repr, vol.Repr
      ensures Valid() && fresh(dup.Repr - old(dup.Repr)) && fresh(vol.Repr - old(vol.Repr))
      ensures (View(), out) == W.OnPrepare(old(View()), i, b)
    {
      if i <= trim { return Some(Trim(trim)); }
      var isChosen := vol.IsChosen(i);
      if isChosen {
        var stored := dup.GetInfo(i);
        return Some(Chosen(i, Classic(stored.valueBallot), stored.value));
      }
      var info := vol.GetInfo(i);
      if BallotGe(b, info.promise) {
        Cover(i, b);
        vol.StorePromise(i, b);
        out := Some(Promise(id, i, Classic(b), Classic(info.valueBallot), info.value));
      } else {
        out := Some(Preempted(id, i, Classic(b), Classic(info.promise)));
      }
    }

    method ReceiveAccept(i: Iid, b: Ballot, v: Value) returns (out: Option<Msg>)
      requires Valid()
      modifies this`disk, dup.Repr, vol.Repr
      ensures Valid() && fresh(dup.Repr - old(dup.Repr)) && fresh(vol.Repr - old(vol.Repr))
      ensures (View(), out) == W.OnAccept(old(View()), i, b, v)
    {
      if i <= trim { return Some(Trim(trim)); }
      var info := vol.GetInfo(i);
      var isChosen := vol.IsChosen(i);
      if isChosen { return Some(Chosen(i, Classic(info.valueBallot), info.value)); }
      if BallotGe(b, info.promise) {
        var stable := dup.GetPromise(i);
        StoreStable(i, M.Record(if BallotGe(stable, b) then stable else b, b, v));
        vol.StoreInfo(i, M.Record(b, b, v));
        out := Some(Accepted(id, i, Classic(b), v));
      } else {
        out := Some(Preempted(id, i, Classic(b), Classic(info.promise)));
      }
    }

    method ReceiveChosen(i: Iid, b: Ballot, v: Value)
      requires Valid()
      modifies this`disk, dup.Repr, vol.Repr
      ensures Valid() && fresh(dup.Repr - old(dup.Repr)) && fresh(vol.Repr - old(vol.Repr))
      ensures View() == W.OnChosen(old(View()), i, b, v)
    {
      var stored := dup.GetInfo(i);
      if BallotGt(b, stored.valueBallot) {
        StoreStable(i, M.Record(b, b, v));
        vol.StoreInfo(i, M.Record(b, b, v));
      }
      vol.SetChosen(i);
    }

    method ReceiveTrim(t: Iid)
      requires Valid()
      modifies this`trim
      ensures Valid()
      ensures View() == W.OnTrim(old(View()), t)
    {
      if t > trim { trim := t; }
    }

    method ReceiveRepeat(i: Iid) returns (out: Option<Msg>)
      requires Valid()
      ensures out == W.OnRepeat(View(), i)
    {
      var isChosen := vol.IsChosen(i);
      if isChosen {
        var made := vol.GetInfo(i);
        return Some(Chosen(i, Classic(made.valueBallot), made.value));
      }
      var info := dup.GetInfo(i);
      if BallotGt(info.promise, INVALID_BALLOT) && |info.value| > 0 {
        out := Some(Accepted(id, i, Classic(info.valueBallot), info.value));
      } else {
        out := None;
      }
    }

    /** Write a new window for every flagged instance. */
    method RenewFlagged()
      requires Valid()
      modifies this`disk, this`flagged, dup.Repr
      ensures Valid() && fresh(dup.Repr - old(dup.Repr))
      ensures View() == W.Flush(old(View()))
    {
      ghost var start := View();
      for k := 0 to |flagged|
        invariant Valid() && fresh(dup.Repr - old(dup.Repr)) && flagged == start.flagged
        invariant W.Renew(View(), flagged[k..]) == W.Renew(start, start.flagged)
        invariant vol.view == start.vol
      {
        var made := vol.GetPromise(flagged[k]);
        assert flagged[k..][1..] == flagged[k + 1..];
        WriteWindow(flagged[k], made.number);
      }
      flagged := [];
    }

    /** The stable records are copied twice and the flags forgotten. */
    method Reload()
      requires Valid()
      modifies this`dup, this`vol, this`flagged
      ensures Valid() && fresh(dup.Repr) && fresh(vol.Repr)
      ensures View() == old(View()).(dup := M.Rebuild(disk, trim), vol := M.Rebuild(disk, trim), flagged := [])
    {
      dup := FromRecords(disk, trim);
      vol := FromRecords(disk, trim);
      flagged := [];
    }

    /** Recovery: copy the stable records, then write a new window ahead of each of them, in instance order. */
    method Restart(maxInited: Iid)
      requires Valid()
      modifies this
      ensures Valid() && View() == W.Crash(old(View()), maxInited) && fresh(dup.Repr) && fresh(vol.Repr)
    {
      Reload();
      RenewAll(maxInited, W.RenewStable(View(), trim + 1, maxInited));
    }

    method RenewAll(maxInited: Iid, ghost goal: W.WaAcceptor)
      requires Valid() && LeadsTo(View(), trim + 1, maxInited, goal)
      modifies this`disk, dup.Repr
      ensures Valid() && fresh(dup.Repr - old(dup.Repr))
      ensures View() == goal
    {
      var k := trim + 1;
      while k <= maxInited
        invariant Valid() && fresh(dup.Repr - old(dup.Repr)) && LeadsTo(View(), k, maxInited, goal)
        decreases maxInited + 1 - k
      {
        RenewOne(k, maxInited, goal);
        k := k + 1;
      }
      RenewDone(View(), k, maxInited);
    }

    method RenewOne(k: Iid, ghost to: Iid, ghost goal: W.WaAcceptor)
      requires Valid() && k <= to && LeadsTo(View(), k, to, goal)
      modifies this`disk, dup.Repr
      ensures Valid() && fresh(dup.Repr - old(dup.Repr))
      ensures LeadsTo(View(), k + 1, to, goal)
    {
      var number := if k in disk then disk[k].promise.number else 0;
      RenewStep(View(), k, to, number);
      WriteWindow(k, number);
    }

    /** Every message: the object takes the step that the system takes. */
    method Handle(m: Msg) returns (out: Option<Msg>)
      requires Valid()
      modifies this`disk, this`flagged, this`trim, dup.Repr, vol.Repr
      ensures Valid() && fresh(dup.Repr - old(dup.Repr)) && fresh(vol.Repr - old(vol.Repr))
      ensures (View(), out) == W.Step(old(View()), m)
    {
      out := None;
      match m
      case Prepare(i, r) => out := ReceivePrepare(i, r.ballot);
      case Accept(i, r, v) => out := ReceiveAccept(i, r.ballot, v);
      case Chosen(i, r, v) => ReceiveChosen(i, r.ballot, v);
      case Trim(t) => ReceiveTrim(t);
      case _ =>
    }
  }
}
