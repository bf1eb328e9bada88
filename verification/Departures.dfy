/** Where the code as written departs from its stated intent. The models elsewhere take the intended step; each group
    below gives the step as written, an input on which it goes wrong, and exactly when it does what is intended. */
module Departures {
  import opened Types
  import opened Sets
  import M = Memory
  import W = WriteAheadAcceptor
  import SP = StandardProposer
  import EA = EpochAcceptor
  import EP = EpochProposer
  import EPP = EpochProposerProof

  // ---------------------------------------------------------------- paxos/epoch_ballot.c: the order

  predicate RoundGtAsWritten(l: Round, r: Round) { l.epoch > r.epoch || BallotGt(l.ballot, r.ballot) }

  predicate RoundGeAsWritten(l: Round, r: Round) { l == r || RoundGtAsWritten(l, r) }

  /** Two epoch ballots can each be greater than the other. */
  lemma OrderIsNotAntisymmetric()
    ensures exists l, r :: RoundGtAsWritten(l, r) && RoundGtAsWritten(r, l)
  {
    var l, r := Round(2, Ballot(1, 1)), Round(1, Ballot(2, 1));
    assert RoundGtAsWritten(l, r) && RoundGtAsWritten(r, l);
  }

  /** The comparison is the lexicographic one unless a lower epoch comes with a higher ballot. */
  lemma OrderAgreesIff(l: Round, r: Round)
    ensures (RoundGtAsWritten(l, r) <==> RoundGt(l, r)) <==> !(l.epoch < r.epoch && BallotGt(l.ballot, r.ballot))
  {}

  /** The test for outdated promises compares the ballots as well, so the order does not matter there. */
  lemma OutdatedUnaffected(inst: EP.Inst, r: Round)
    ensures RoundGtAsWritten(EP.Current(inst), r) || BallotGt(inst.ballot, r.ballot) <==> EP.IsOutdated(inst, r)
  {}

  // ---------------------------------------------------------------- paxos/epoch_acceptor.c: explicit prepares

  /** The guard of an explicit prepare: the comparison as written, or no promise yet. */
  predicate GrantsAsWritten(a: EA.EpAcceptor, i: Iid, r: Round) {
    RoundGeAsWritten(r, EA.Floor(a, i)) || i !in a.mem.base.promises
  }

  /** Below the current epoch the guard is right only with a promise that the ballot does not exceed. */
  lemma GrantsAgreeIff(a: EA.EpAcceptor, i: Iid, r: Round)
    ensures (GrantsAsWritten(a, i, r) <==> RoundGe(r, EA.Floor(a, i))) <==>
      r.epoch >= a.epoch || (i in a.mem.base.promises && !BallotGt(r.ballot, M.LastPromise(a.mem.base, i)))
  {}

  /** A restarted acceptor grants an epoch below its own, without a promise and with one. */
  lemma GrantsBelowEpoch()
    ensures var a := EA.Crash(EA.Boot(0)).0;
      var a' := EA.OnPrepare(a, 1, Round(2, Ballot(1, 1))).0;
      && a.disk.epoch == 2 && GrantsAsWritten(a, 1, Round(1, Ballot(1, 1)))
      && 1 in a'.mem.base.promises && GrantsAsWritten(a', 1, Round(1, Ballot(2, 1)))
  {}

  // ---------------------------------------------------------------- paxos/epoch_acceptor.c: accepts

  /** The guard of an accept: the comparison as written, or no promise yet and no lower epoch. */
  predicate VotesAsWritten(a: EA.EpAcceptor, i: Iid, r: Round) {
    RoundGeAsWritten(r, EA.Floor(a, i)) || (i !in a.mem.base.promises && r.epoch >= a.epoch)
  }

  /** Below the current epoch the guard is right only for ballots that do not exceed the last promise. */
  lemma VotesAgreeIff(a: EA.EpAcceptor, i: Iid, r: Round)
    ensures (VotesAsWritten(a, i, r) <==> RoundGe(r, EA.Floor(a, i))) <==>
      r.epoch >= a.epoch || !BallotGt(r.ballot, M.LastPromise(a.mem.base, i))
  {}

  /** The handler with the guard as written; everything else as intended. */
  function OnAcceptAsWritten(a: EA.EpAcceptor, i: Iid, r: Round, v: Value): (EA.EpAcceptor, Option<Msg>) {
    if EA.Closed(a, i).Some? then (a, EA.Closed(a, i))
    else if VotesAsWritten(a, i, r) then
      var a' := EA.RaiseEpoch(EA.Propose(a, i), r.epoch);
      (a'.(disk := a'.disk.(votes := a.disk.votes[i := (r, v)]),
           mem := EA.StoreVote(EA.StorePromise(a.mem, i, r.ballot), i, (r, v))),
       Some(Accepted(a.id, i, r, v)))
    else (a, Some(Preempted(a.id, i, r, EA.Floor(a, i))))
  }

  /** An acceptor that has just promised (2, ballot 1) votes at (1, ballot 2), which lies below. */
  lemma VoteBelowPromise(v: Value)
    ensures var p, r := Round(2, Ballot(1, 1)), Round(1, Ballot(2, 1));
      var (a, out) := EA.OnPrepare(EA.Boot(0), 1, p);
      && out == Some(Promise(0, 1, p, ZERO, []))
      && RoundGt(p, r)
      && OnAcceptAsWritten(a, 1, r, v).1 == Some(Accepted(0, 1, r, v))
      && EA.OnAccept(a, 1, r, v).1 == Some(Preempted(0, 1, r, p))
  {}

  // ---------------------------------------------------------------- paxos/epoch_paxos_storage.c: recovery

  /** Recovered votes are converted and dropped. Their epochs are stored through the handle of the promise table, so
      every instance with a vote gets an entry there, whose ballot is whatever memory holds. */
  function RecoveredAsWritten(votes: map<Iid, EA.Vote>, junk: Iid -> Ballot): EA.Store {
    EA.Store(M.Memory(map i | i in votes :: junk(i), map[], {}, 0), map[])
  }

  /** What is recovered for an instance is right exactly if it had no vote. */
  lemma RecoveryAgreesIff(votes: map<Iid, EA.Vote>, junk: Iid -> Ballot, i: Iid)
    ensures var was, now := EA.Recovered(votes), RecoveredAsWritten(votes, junk);
      i !in votes <==>
        EA.GetVote(now, i) == EA.GetVote(was, i) && (i in now.base.promises <==> i in was.base.promises)
  {
    EA.RecoveryRoundTrip(votes, i);
  }

  /** A vote is on disk, but after a restart the acceptor promises a higher round without reporting it. */
  lemma VoteForgotten(v: Value, b: Ballot)
    ensures var a := EA.OnAccept(EA.Boot(0), 1, Round(1, Ballot(1, 1)), v).0;
      var a' := EA.Crash(a).0.(mem := RecoveredAsWritten(a.disk.votes, _ => b));
      && a'.disk.votes[1] == (Round(1, Ballot(1, 1)), v)
      && EA.GivePromise(a', 1, Round(3, Ballot(1, 1))).1 == Some(Promise(0, 1, Round(3, Ballot(1, 1)), ZERO, []))
  {}

  // ---------------------------------------------------------------- proposers: stale reports after phase 2

  /** The highest reported ballot is only reset together with its value, which phase 2 has already moved away. */
  function PreemptAsWritten(inst: SP.Inst, b: Ballot, size: nat): SP.Inst {
    SP.Inst(b, if inst.lastValue.Some? then INVALID_BALLOT else inst.lastBallot, None, None, {}, size)
  }

  /** After a preemption a report of a vote at ballot vb is taken into account exactly when the value was still there
      or the vote lies above the stale ballot. Any other report of a vote is dropped, and with it the value. */
  lemma ReportTakenIff(inst: SP.Inst, b: Ballot, size: nat, vb: Ballot, v: Value)
    requires BallotGt(vb, INVALID_BALLOT)
    ensures SP.HandleReport(PreemptAsWritten(inst, b, size), vb, v).lastValue == Some(v)
      <==> inst.lastValue.Some? || BallotGt(vb, inst.lastBallot)
    ensures SP.HandleReport(SP.Preempt(inst, b, size), vb, v).lastValue == Some(v)
  {}

  /** The very vote that was being re-proposed is the one ignored. */
  lemma StaleReportIgnored(inst: SP.Inst, b: Ballot, size: nat, v: Value)
    requires inst.lastValue.None?
    ensures SP.HandleReport(PreemptAsWritten(inst, b, size), inst.lastBallot, v).lastValue == None
  {}

  /** The same in the epoch proposer, whose reports are compared in the order as written. */
  function EpochPreemptAsWritten(inst: EP.Inst, e: nat, b: Ballot, size: nat): EP.Inst {
    EP.Inst(b, e, if inst.lastValue.Some? then ZERO else inst.lastRound, None, None, {}, size, 0)
  }

  function EpochReportAsWritten(inst: EP.Inst, lr: Round, lv: Value): EP.Inst {
    if RoundGtAsWritten(lr, inst.lastRound) then
      inst.(lastRound := lr, lastValue := Some(lv), same := if RoundGtAsWritten(lr, ZERO) then 1 else inst.same)
    else if lr == inst.lastRound && RoundGtAsWritten(lr, ZERO) then inst.(same := inst.same + 1)
    else inst
  }

  /** The report is handled as intended unless it has a lower epoch and a higher ballot than the one kept. */
  lemma EpochReportAgreesIff(inst: EP.Inst, lr: Round, lv: Value)
    ensures EpochReportAsWritten(inst, lr, lv) == EP.HandleReport(inst, lr, lv) <==>
      !(lr.epoch < inst.lastRound.epoch && BallotGt(lr.ballot, inst.lastRound.ballot))
  {}

  /** A vote of a lower epoch displaces the one of the higher epoch that may be chosen. */
  lemma LowerReportWins(inst: EP.Inst, v: Value)
    requires inst.lastRound == Round(2, Ballot(1, 1))
    ensures EpochReportAsWritten(inst, Round(1, Ballot(2, 1)), v).lastValue == Some(v)
    ensures EP.HandleReport(inst, Round(1, Ballot(2, 1)), v) == inst
  {}

  /** After a preemption a report is taken into account exactly when the value was still there or the report beats the
      stale round in the order as written. */
  lemma EpochReportTakenIff(inst: EP.Inst, e: nat, b: Ballot, size: nat, lr: Round, v: Value)
    requires RoundGt(lr, ZERO)
    ensures EpochReportAsWritten(EpochPreemptAsWritten(inst, e, b, size), lr, v).lastValue == Some(v)
      <==> inst.lastValue.Some? || RoundGtAsWritten(lr, inst.lastRound)
    ensures EP.HandleReport(EP.NewInst(b, e, size), lr, v).lastValue == Some(v)
  {}

  /** The vote that was being re-proposed is ignored. */
  lemma EpochStaleReportIgnored(inst: EP.Inst, e: nat, b: Ballot, size: nat, v: Value)
    requires inst.lastValue.None?
    ensures EpochReportAsWritten(EpochPreemptAsWritten(inst, e, b, size), inst.lastRound, v).lastValue == None
  {}

  // ---------------------------------------------------------------- paxos/standard_proposer.c: back to phase 1 with q2

  ghost predicate Meet(q: set<Aid>, q': set<Aid>) { q * q' != {} }

  /** Promise quorums of size q2 meet every acceptance quorum exactly when twice q2 exceeds the acceptors. */
  lemma ReturnWithQ2SafeIff(c: Config)
    requires c.q2 <= |c.acceptors|
    ensures (forall q: set<Aid>, q': set<Aid> | q <= c.acceptors && q' <= c.acceptors && |q| >= c.q2 && |q'| >= c.q2 ::
        Meet(q, q'))
      <==> 2 * c.q2 > |c.acceptors|
  {
    if 2 * c.q2 > |c.acceptors| {
      forall q: set<Aid>, q': set<Aid> | q <= c.acceptors && q' <= c.acceptors && |q| >= c.q2
          && |q'| >= c.q2 ensures Meet(q, q') {
        if q * q' == {} {
          assert |q + q'| == |q| + |q'|;
          SubsetSize(q + q', c.acceptors);
        }
      }
    } else {
      var q := SubsetOfSize(c.acceptors, c.q2);
      var q' := SubsetOfSize(c.acceptors - q, c.q2);
      assert q * q' == {};
      assert !Meet(q, q');
    }
  }

  lemma {:induction false} SubsetOfSize(s: set<Aid>, n: nat) returns (t: set<Aid>)
    requires n <= |s|
    ensures t <= s && |t| == n
  {
    if n == 0 {
      t := {};
    } else {
      var x :| x in s;
      var u := SubsetOfSize(s - {x}, n - 1);
      t := u + {x};
    }
  }

  // ---------------------------------------------------------------- paxos/epoch_proposer.c: epoch-only preemption

  /** The quorum is cleared, but neither the epoch nor the count of equal reports changes. */
  function EpochPreemptedAsWritten(inst: EP.Inst): EP.Inst { inst.(quorum := {}) }

  /** The count is still the number of quorum members with the highest report exactly if it was zero. */
  lemma CountExactIff(net: set<Msg>, i: Iid, inst: EP.Inst)
    ensures EPP.Tallied(net, i, EpochPreemptedAsWritten(inst)) <==> inst.same == 0
    ensures EPP.Tallied(net, i, EP.AdoptEpoch(inst, inst.epoch + 1))
  {
    var inst' := EpochPreemptedAsWritten(inst);
    assert EPP.Reporters(inst', map[]) == {};
    if inst.same == 0 { assert EPP.Tally(net, i, inst', map[]); }
    if EPP.Tallied(net, i, inst') {
      var rep :| EPP.Tally(net, i, inst', rep);
      assert rep.Keys == {};
      assert EPP.Reporters(inst', rep) == {};
    }
    var adopted := EP.AdoptEpoch(inst, inst.epoch + 1);
    assert EPP.Reporters(adopted, map[]) == {};
    assert EPP.Tally(net, i, adopted, map[]);
  }

  /** One acceptor's promise, sent twice, can pass for a quorum of two. */
  lemma OneVoteCountedTwice(inst: EP.Inst, a: Aid)
    requires inst.quorum == {a} && inst.same == 1 && RoundGt(inst.lastRound, ZERO) && inst.lastValue.Some?
    ensures var again := EpochPreemptedAsWritten(inst);
      a !in again.quorum &&
      EP.HandleReport(again.(quorum := {a}), inst.lastRound, inst.lastValue.value).same == 2
  {}

  // ---------------------------------------------------------------- paxos/writeahead_ballot_acceptor.c: accepts

  /** The stable promise is written back as it was. */
  function StoreVoteAsWritten(a: W.WaAcceptor, i: Iid, b: Ballot, v: Value): W.WaAcceptor {
    var a' := W.StoreStable(a, i, M.Record(M.LastPromise(a.dup, i), b, v));
    a'.(vol := M.Store(a.vol, i, M.Record(b, b, v)))
  }

  /** The stable promise covers the promise that a vote implies exactly if it already did. */
  lemma VoteCoveredIff(a: W.WaAcceptor, i: Iid, b: Ballot, v: Value)
    ensures var a' := StoreVoteAsWritten(a, i, b, v);
      BallotGe(M.LastPromise(a'.dup, i), M.LastPromise(a'.vol, i)) <==> BallotGe(M.LastPromise(a.dup, i), b)
    ensures var a' := W.StoreVote(a, i, b, v); BallotGe(M.LastPromise(a'.dup, i), M.LastPromise(a'.vol, i))
  {}

  /** An accept without a prepare leaves no stable promise at all. */
  lemma VoteUncovered(b: Ballot, v: Value)
    requires BallotGt(b, INVALID_BALLOT)
    ensures var a' := StoreVoteAsWritten(W.Boot(0, 10, 2), 1, b, v);
      BallotGt(M.LastPromise(a'.vol, 1), M.LastPromise(a'.dup, 1))
  {}

  // ---------------------------------------------------------------- paxos/writeahead_ballot_acceptor.c: trims

  /** A trim at or below the present one is stored as well if it lies above the first unchosen instance. */
  function TrimAsWritten(a: W.WaAcceptor, t: Iid): Iid {
    if t <= a.trim && t <= a.dup.minChosen + 1 then a.trim else t
  }

  lemma TrimMonotoneIff(a: W.WaAcceptor, t: Iid)
    ensures TrimAsWritten(a, t) >= a.trim <==> !(a.dup.minChosen + 1 < t < a.trim)
    ensures W.OnTrim(a, t).trim >= a.trim
  {}

  /** A late trim message moves the point back. */
  lemma TrimGoesBack()
    ensures TrimAsWritten(W.Boot(0, 10, 2).(trim := 10), 5) == 5
  {}

  // ---------------------------------------------------------------- acceptors: the trim cut-off

  /** The lag is subtracted in unsigned arithmetic. */
  function CutoffAsWritten(t: nat, lag: nat): nat { (t - lag) % 0x1_0000_0000 }

  /** Nothing above the trim point is forgotten exactly when the trim point is at least the lag. */
  lemma CutoffSoundIff(t: nat, lag: nat)
    requires t < 0x1_0000_0000 && 0 < lag < 0x1_0000_0000
    ensures CutoffAsWritten(t, lag) <= t <==> t >= lag
  {}

  /** Trimming to instance 1 wipes the promise of a live instance. */
  lemma CutoffForgets(b: Ballot)
    ensures var m := M.StorePromise(M.Memory(map[], map[], {}, 1), 2, b);
      2 !in M.DropBelow(m, CutoffAsWritten(1, 50000)).promises
      && 2 !in M.DropBelow(m, CutoffAsWritten(1, 10000)).promises
  {}
}
