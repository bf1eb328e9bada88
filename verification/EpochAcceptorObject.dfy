/** paxos/epoch_acceptor.c over paxos/epoch_paxos_storage.c as objects. */
module EpochAcceptorObject {
  import opened Types
  import opened IidTable
  import opened HashMappedMemory
  import M = Memory
  import E = EpochAcceptor

  /** Promises and votes in an ordinary store, the epochs of the votes in a table beside it. */
  class EpochStore {
    const base: HashMappedMemory
    const epochs: IidTable<nat>
    ghost var view: E.Store
    ghost var Repr: set<object>

    ghost predicate Parts()
      reads this, Repr
    {
      && base in Repr && base.Repr <= Repr && epochs in Repr && epochs.Repr <= Repr
      && this !in base.Repr && this !in epochs.Repr && base.Repr !! epochs.Repr
      && base.Valid() && epochs.Valid() && view == E.Store(base.view, epochs.bindings)
    }

    ghost predicate Inside() { true }

    /** Only a proof that mentions Inside() sees the parts. */
    ghost predicate Valid()
      reads this, Repr
    {
      this in Repr && forall s {:trigger s.Inside()} | s == this && s.Inside() :: s.Parts()
    }

    constructor ()
      ensures Valid() && view == E.EMPTY_STORE && fresh(Repr)
    {
      var store := New();
      base := store;
      epochs := new IidTable<nat>();
      new;
      view := E.EMPTY_STORE;
      Repr := {this} + base.Repr + epochs.Repr;
    }

    method GetPromise(i: Iid) returns (b: Ballot)
      requires Valid()
      ensures b == M.LastPromise(view.base, i)
    {
      assert Inside();
      b := base.GetPromise(i);
    }

    method GetVote(i: Iid) returns (v: Option<E.Vote>)
      requires Valid()
      ensures v == E.GetVote(view, i)
    {
      assert Inside();
      var vote := base.GetAccept(i);
      if vote.None? { return None; }
      var epoch := epochs.Lookup(i);
      v := Some((Round(if epoch.Some? then epoch.value else 0, vote.value.0), vote.value.1));
    }

    method IsChosen(i: Iid) returns (r: bool)
      requires Valid()
      ensures r <==> i in view.base.chosen
    {
      assert Inside();
      r := base.IsChosen(i);
    }

    method MinChosen() returns (i: Iid)
      requires Valid()
      ensures i == view.base.minChosen
    {
      assert Inside();
      i := base.minChosen;
    }

    method StorePromise(i: Iid, b: Ballot)
      requires Valid()
      modifies Repr
      ensures Valid() && view == E.StorePromise(old(view), i, b) && fresh(Repr - old(Repr))
    {
      assert Inside();
      base.StorePromise(i, b);
      view := view.(base := base.view);
      Repr := Repr + base.Repr;
    }

    method StoreVote(i: Iid, vote: E.Vote)
      requires Valid()
      modifies Repr
      ensures Valid() && view == E.StoreVote(old(view), i, vote) && fresh(Repr - old(Repr))
    {
      assert Inside();
      epochs.Bind(i, vote.0.epoch);
      base.StoreAccept(i, vote.0.ballot, vote.1);
      view := E.Store(base.view, epochs.bindings);
      Repr := Repr + base.Repr + epochs.Repr;
    }

    method SetChosen(i: Iid)
      requires Valid()
      modifies Repr
      ensures Valid() && fresh(Repr - old(Repr))
      ensures view == old(view).(base := M.SetChosen(old(view).base, i))
    {
      assert Inside();
      base.SetChosen(i);
      view := view.(base := base.view);
      Repr := Repr + base.Repr;
    }

    method TrimBelow(cutoff: nat)
      requires Valid()
      modifies Repr
      ensures Valid() && view == E.DropBelow(old(view), cutoff) && fresh(Repr - old(Repr))
    {
      assert Inside();
      base.TrimBelow(cutoff);
      epochs.CloseBelow(cutoff);
      view := E.Store(base.view, epochs.bindings);
    }
  }

  /** Recovery: the votes on disk are stored one by one. */
  method FromVotes(votes: map<Iid, E.Vote>) returns (s: EpochStore)
    ensures s.Valid() && s.view == E.Recovered(votes) && fresh(s.Repr)
  {
    s := new EpochStore();
    var todo := votes.Keys;
    while todo != {}
      invariant s.Valid() && fresh(s.Repr) && todo <= votes.Keys
      invariant s.view == E.Recovered(map i | i in votes && i !in todo :: votes[i])
      decreases |todo|
    {
      var i :| i in todo;
      OneMore(votes, todo, i);
      s.StoreVote(i, votes[i]);
      todo := todo - {i};
    }
    assert (map i | i in votes && i !in todo :: votes[i]) == votes;
  }

  lemma OneMore(votes: map<Iid, E.Vote>, todo: set<Iid>, i: Iid)
    requires i in todo && i in votes
    ensures E.StoreVote(E.Recovered(map j | j in votes && j !in todo :: votes[j]), i, votes[i])
         == E.Recovered(map j | j in votes && j !in todo - {i} :: votes[j])
  {}

  class Acceptor {
    const id: Aid
    var disk: E.Disk
    var mem: EpochStore
    var epoch: nat
    var trim: Iid
    var maxProposed: Iid

    ghost predicate Valid()
      reads this, mem, mem.Repr
    {
      mem.Valid() && this !in mem.Repr
    }

    ghost function View(): E.EpAcceptor
      reads this, mem
    {
      E.EpAcceptor(id, disk, mem.view, epoch, trim, maxProposed)
    }

    constructor (id: Aid)
      ensures Valid() && View() == E.Boot(id) && fresh(mem.Repr)
    {
      this.id := id;
      disk, epoch, trim, maxProposed := E.Disk(1, map[]), 1, 0, 0;
      mem := new EpochStore();
    }

    /** The epoch reaches the disk before anything is said in it. */
    method RaiseEpoch(e: nat)
      requires Valid()
      modifies this`disk, this`epoch
      ensures Valid()
      ensures View() == E.RaiseEpoch(old(View()), e)
    {
      if e > epoch {
        disk := disk.(epoch := e);
        epoch := e;
      }
    }

    method Propose(i: Iid)
      requires Valid()
      modifies this`maxProposed
      ensures Valid()
      ensures View() == E.Propose(old(View()), i)
    {
      if i > maxProposed { maxProposed := i; }
    }

    method AnswerClosed(i: Iid) returns (out: Option<Msg>)
      requires Valid()
      ensures out == E.Closed(View(), i)
    {
      if i <= trim { return Some(Trim(trim)); }
      var isChosen := mem.IsChosen(i);
      if !isChosen { return None; }
      var vote := mem.GetVote(i);
      out := Some(Chosen(i, E.ReportedRound(vote), E.ReportedValue(vote)));
    }

    method GivePromise(i: Iid, r: Round) returns (out: Option<Msg>)
      requires Valid()
      modifies this`disk, this`epoch, this`maxProposed, mem.Repr
      ensures Valid() && fresh(mem.Repr - old(mem.Repr))
      ensures (View(), out) == E.GivePromise(old(View()), i, r)
    {
      var vote := mem.GetVote(i);
      Propose(i);
      RaiseEpoch(r.epoch);
      mem.StorePromise(i, r.ballot);
      out := Some(Promise(id, i, r, E.ReportedRound(vote), E.ReportedValue(vote)));
    }

    method ReceiveStandardPrepare(i: Iid, b: Ballot) returns (out: Option<Msg>)
      requires Valid()
      modifies this`disk, this`epoch, this`maxProposed, mem.Repr
      ensures Valid() && fresh(mem.Repr - old(mem.Repr))
      ensures (View(), out) == E.OnStandardPrepare(old(View()), i, b)
    {
      out := AnswerClosed(i);
      if out.Some? { return; }
      var last := mem.GetPromise(i);
      if BallotGe(b, last) {
        out := GivePromise(i, Round(epoch, b));
      } else {
        out := Some(Preempted(id, i, Round(epoch, b), Round(epoch, last)));
      }
    }

    method ReceivePrepare(i: Iid, r: Round) returns (out: Option<Msg>)
      requires Valid()
      modifies this`disk, this`epoch, this`maxProposed, mem.Repr
      ensures Valid() && fresh(mem.Repr - old(mem.Repr))
      ensures (View(), out) == E.OnPrepare(old(View()), i, r)
    {
      out := AnswerClosed(i);
      if out.Some? { return; }
      var last := mem.GetPromise(i);
      if RoundGe(r, Round(epoch, last)) {
        out := GivePromise(i, r);
      } else {
        out := Some(Preempted(id, i, r, Round(epoch, last)));
      }
    }

    method ReceiveAccept(i: Iid, r: Round, v: Value) returns (out: Option<Msg>)
      requires Valid()
      modifies this`disk, this`epoch, this`maxProposed, mem.Repr
      ensures Valid() && fresh(mem.Repr - old(mem.Repr))
      ensures (View(), out) == E.OnAccept(old(View()), i, r, v)
    {
      out := AnswerClosed(i);
      if out.Some? { return; }
      var last := mem.GetPromise(i);
      if RoundGe(r, Round(epoch, last)) {
        Propose(i);
        RaiseEpoch(r.epoch);
        disk := disk.(votes := disk.votes[i := (r, v)]);
        mem.StorePromise(i, r.ballot);
        mem.StoreVote(i, (r, v));
        out := Some(Accepted(id, i, r, v));
      } else {
        out := Some(Preempted(id, i, r, Round(epoch, last)));
      }
    }

    method ReceiveTrim(t: Iid)
      requires Valid()
      modifies this`trim, this`maxProposed, mem.Repr
      ensures Valid() && fresh(mem.Repr - old(mem.Repr))
      ensures View() == E.OnTrim(old(View()), t)
    {
      var min := mem.MinChosen();
      if t > trim && min + 1 > t {
        trim := t;
        if t > E.TRIM_LAG { mem.TrimBelow(t - E.TRIM_LAG); }
        if t > maxProposed { maxProposed := t; }
      }
    }

    method ReceiveChosen(i: Iid, r: Round, v: Value)
      requires Valid()
      modifies this`trim, this`maxProposed, mem.Repr
      ensures Valid() && fresh(mem.Repr - old(mem.Repr))
      ensures View() == E.OnChosen(old(View()), i, r, v)
    {
      Propose(i);
      var isChosen := mem.IsChosen(i);
      if isChosen { return; }
      mem.SetChosen(i);
      mem.StorePromise(i, r.ballot);
      mem.StoreVote(i, (r, v));
      var min := mem.MinChosen();
      if min + 1 > trim { ReceiveTrim(min); }
    }

    method ReceiveRepeat(i: Iid) returns (out: Option<Msg>)
      requires Valid()
      ensures out == E.OnRepeat(View(), i)
    {
      var vote := mem.GetVote(i);
      var isChosen := mem.IsChosen(i);
      if isChosen { return Some(Chosen(i, E.ReportedRound(vote), E.ReportedValue(vote))); }
      if vote.Some? && BallotGt(vote.value.0.ballot, INVALID_BALLOT) {
        out := Some(Accepted(id, i, vote.value.0, vote.value.1));
      } else {
        out := None;
      }
    }

    /** After a crash: a new epoch on disk, the votes recovered, nothing else. */
    method Restart() returns (out: Option<Msg>)
      requires Valid()
      modifies this
      ensures (View(), out) == E.Crash(old(View())) && Valid() && fresh(mem.Repr)
    {
      disk := disk.(epoch := disk.epoch + 1);
      epoch := disk.epoch;
      mem := FromVotes(disk.votes);
      trim, maxProposed := 0, 0;
      out := Some(NewEpoch(epoch));
    }

    /** Every message: the object takes the step that the system takes. */
    method Handle(m: Msg) returns (out: Option<Msg>)
      requires Valid()
      modifies this`disk, this`epoch, this`trim, this`maxProposed, mem.Repr
      ensures Valid() && fresh(mem.Repr - old(mem.Repr))
      ensures (View(), out) == E.Step(old(View()), m)
    {
      out := None;
      match m
      case StandardPrepare(i, b) => out := ReceiveStandardPrepare(i, b);
      case Prepare(i, r) => out := ReceivePrepare(i, r);
      case Accept(i, r, v) => out := ReceiveAccept(i, r, v);
      case Chosen(i, r, v) => ReceiveChosen(i, r, v);
      case Trim(t) => ReceiveTrim(t);
      case NewEpoch(e) => RaiseEpoch(e);
      case _ =>
    }
  }
}
