/** paxos/standard_acceptor.c as an object: a stable map written before every answer, and a memory copy. */
module StandardAcceptorObject {
  import opened Types
  import opened HashMappedMemory
  import M = Memory
  import S = StandardAcceptor

  class Acceptor {
    const id: Aid
    var disk: map<Iid, M.Record>
    var mem: HashMappedMemory
    var trim: Iid
    var maxProposed: Iid

    ghost predicate Valid()
      reads this, mem, mem.Repr
    {
      mem.Valid() && this !in mem.Repr
    }

    ghost function View(): S.StdAcceptor
      reads this, mem
    {
      S.StdAcceptor(id, disk, mem.view, trim, maxProposed)
    }

    constructor (id: Aid)
      ensures Valid() && View() == S.Boot(id) && fresh(mem.Repr)
    {
      this.id := id;
      disk, trim, maxProposed := map[], 0, 0;
      var empty := New();
      mem := empty;
    }

    /** One transaction: the record reaches disk and memory together. */
    method Store(i: Iid, r: M.Record)
      requires Valid()
      modifies this`disk, this`maxProposed, mem.Repr
      ensures Valid() && fresh(mem.Repr - old(mem.Repr))
      ensures View() == old(View()).(disk := old(disk)[i := r], mem := M.Store(old(mem.view), i, r),
                                     maxProposed := Max(i, old(maxProposed)))
    {
      disk := disk[i := r];
      mem.StoreInfo(i, r);
      if i > maxProposed { maxProposed := i; }
    }

    method ReceivePrepare(i: Iid, b: Ballot) returns (out: Option<Msg>)
      requires Valid()
      modifies this`disk, this`maxProposed, mem.Repr
      ensures Valid() && fresh(mem.Repr - old(mem.Repr))
      ensures (View(), out) == S.OnPrepare(old(View()), i, b)
    {
      if i <= trim { return Some(Trim(trim)); }
      var info := mem.GetInfo(i);
      var isChosen := mem.IsChosen(i);
      if isChosen { return Some(Chosen(i, Classic(info.valueBallot), info.value)); }
      if BallotGe(b, info.promise) {
        Store(i, info.(promise := b));
        out := Some(Promise(id, i, Classic(b), Classic(info.valueBallot),
                            if BallotGt(info.valueBallot, INVALID_BALLOT) then info.value else []));
      } else {
        out := Some(Preempted(id, i, Classic(b), Classic(info.promise)));
      }
    }

    method ReceiveAccept(i: Iid, b: Ballot, v: Value) returns (out: Option<Msg>)
      requires Valid()
      modifies this`disk, this`maxProposed, mem.Repr
      ensures Valid() && fresh(mem.Repr - old(mem.Repr))
      ensures (View(), out) == S.OnAccept(old(View()), i, b, v)
    {
      if i <= trim { return Some(Trim(trim)); }
      var info := mem.GetInfo(i);
      var isChosen := mem.IsChosen(i);
      if isChosen { return Some(Chosen(i, Classic(info.valueBallot), info.value)); }
      if BallotGe(b, info.promise) {
        Store(i, M.Record(b, b, v));
        out := Some(Accepted(id, i, Classic(b), v));
      } else {
        out := Some(Preempted(id, i, Classic(b), Classic(info.promise)));
      }
    }

    method ReceiveTrim(t: Iid)
      requires Valid()
      modifies this`trim, mem.Repr
      ensures Valid() && fresh(mem.Repr - old(mem.Repr))
      ensures View() == S.OnTrim(old(View()), t)
    {
      if t > trim && mem.minChosen + 1 > t {
        trim := t;
        if t > S.TRIM_LAG { mem.TrimBelow(t - S.TRIM_LAG); }
      }
    }

    method ReceiveChosen(i: Iid, b: Ballot, v: Value)
      requires Valid()
      modifies this`trim, this`maxProposed, mem.Repr
      ensures Valid() && fresh(mem.Repr - old(mem.Repr))
      ensures View() == S.OnChosen(old(View()), i, b, v)
    {
      var isChosen := mem.IsChosen(i);
      if isChosen { return; }
      mem.SetChosen(i);
      var promise := mem.GetPromise(i);
      mem.StoreInfo(i, M.Record(promise, b, v));
      if i > maxProposed { maxProposed := i; }
      if mem.minChosen + 1 > trim { ReceiveTrim(mem.minChosen); }
    }

    method ReceiveRepeat(i: Iid) returns (out: Option<Msg>)
      requires Valid()
      ensures out == S.OnRepeat(View(), i)
    {
      var info := mem.GetInfo(i);
      var isChosen := mem.IsChosen(i);
      if isChosen { return Some(Chosen(i, Classic(info.valueBallot), info.value)); }
      if BallotGt(info.promise, INVALID_BALLOT) && BallotGt(info.valueBallot, INVALID_BALLOT) {
        out := Some(Accepted(id, i, Classic(info.valueBallot), info.value));
      } else {
        out := None;
      }
    }

    /** After a crash the memory is rebuilt from the disk. */
    method Restart()
      requires Valid()
      modifies this
      ensures Valid() && View() == S.Crash(old(View())) && fresh(mem.Repr)
    {
      mem := FromRecords(disk, 0);
      trim, maxProposed := 0, 0;
    }

    /** Every message: the object takes the step that the system takes. */
    method Handle(m: Msg) returns (out: Option<Msg>)
      requires Valid()
      modifies this, mem.Repr
      ensures Valid() && fresh(mem.Repr - old(mem.Repr))
      ensures (View(), out) == S.Step(old(View()), m)
    {
      out := None;
      match m
      case Prepare(i, r) => out := ReceivePrepare(i, r.ballot);
      case Accept(i, r, v) => out := ReceiveAccept(i, r.ballot, v);
      case Chosen(i, r, v) => ReceiveChosen(i, r.ballot, v);
      case Trim(t) => ReceiveTrim(t);
      case _ =>
    }
  }
}
