/** What a preempted phase 2 of paxos/standard_proposer.c does as written: the instance goes back to phase 1 with quorum
    size q2, and the highest reported ballot stays although its value was moved away. */
module PreemptionAsWritten {
  import opened Types
  import opened Voting
  import opened ClassicSystem
  import SP = StandardProposer
  import D = Departures

  /** Which of the two departures is taken: the quorum size, the stale report, or both, as in the code. */
  datatype Return = WithQ2 | Stale | AsWritten

  function ReturnSize(d: Return, q1: nat, q2: nat): nat { if d.Stale? then q1 else q2 }

  /** The handler with a stale report. */
  function StaleTo(p: SP.Proposer, i: Iid, attempted: Ballot, b: Ballot, size: nat): (SP.Proposer, Option<Msg>) {
    if i <= p.trim || i in p.chosens then (p, None)
    else
      var inPrepare := i in p.prepare && p.prepare[i].ballot == attempted;
      var inAccept := i in p.accept && p.accept[i].ballot == attempted;
      var p1 :=
        if inPrepare then p.(prepare := p.prepare[i := D.PreemptAsWritten(p.prepare[i], b, p.prepare[i].size)])
        else p;
      var p2 :=
        if inAccept then
          p1.(accept := p1.accept - {i}, prepare := p1.prepare[i := D.PreemptAsWritten(p.accept[i], b, size)])
        else p1;
      (p2, if inPrepare || inAccept then Some(Prepare(i, Classic(b))) else None)
  }

  function OnPreemptedIn(d: Return, p: SP.Proposer, i: Iid, attempted: Ballot, b: Ballot): (SP.Proposer, Option<Msg>) {
    var size := ReturnSize(d, p.q1, p.q2);
    if d.WithQ2? then SP.OnPreemptedTo(p, i, attempted, b, size) else StaleTo(p, i, attempted, b, size)
  }

  ghost predicate IsPreemption(s: Sys, e: Event)
    requires Enabled(s, e)
  {
    e.ProposerGets? && e.m.Preempted? && e.m.attempted.ballot.proposer == s.proposers[e.p].id
  }

  /** All steps as in ClassicSystem, except preemptions. */
  ghost function ApplyIn(d: Return, s: Sys, e: Event): Sys
    requires Enabled(s, e)
  {
    if IsPreemption(s, e)
    then SetProposer(s, e.p, OnPreemptedIn(d, s.proposers[e.p], e.m.iid, e.m.attempted.ballot, e.b))
    else Apply(s, e)
  }

  ghost function RunIn(d: Return, s: Sys, es: seq<Event>): Sys {
    if es == [] then s
    else
      var s' := RunIn(d, s, es[..|es| - 1]);
      var e := es[|es| - 1];
      if Enabled(s', e) then ApplyIn(d, s', e) else s'
  }

  /** No run from any initial state decides an instance with two values. */
  ghost predicate Agrees(d: Return, c: Config) {
    forall s, es, i, v1, v2 | Init(c, s) && Decided(c, RunIn(d, s, es).net, i, v1)
      && Decided(c, RunIn(d, s, es).net, i, v2) ::
      v1 == v2
  }
}
