/** The catch-up learner of paxos/learner.c: per instance it counts the acceptors of the highest ballot seen,
    marks the instance chosen at a quorum, and delivers instances in order. */
module Learner {
  import opened Types

  datatype Inst = Inst(ballot: Ballot, value: Value, quorum: set<Aid>, chosen: bool)

  datatype Learner = Learner(
    q2: nat,
    min: Iid,                   // next instance to deliver
    highest: Iid,               // highest instance known chosen
    trim: Iid,
    instances: map<Iid, Inst>,
    delivered: seq<Value>)      // what has been handed to the application, in order

  function Boot(q2: nat): Learner { Learner(q2, 1, 0, 0, map[], []) }

  function GetInst(l: Learner, i: Iid): Inst {
    if i in l.instances then l.instances[i] else Inst(INVALID_BALLOT, [], {}, false)
  }

  function PutInst(l: Learner, i: Iid, inst: Inst): Learner { l.(instances := l.instances[i := inst]) }

  function MarkChosen(l: Learner, i: Iid): Learner { l.(highest := if i > l.highest then i else l.highest) }

  /** A vote above the ballot being counted restarts the count. */
  function NewBallot(inst: Inst, b: Ballot, v: Value): Inst {
    if BallotGt(b, inst.ballot) then Inst(b, v, {}, inst.chosen) else inst
  }

  function OnAccepted(l: Learner, a: Aid, i: Iid, b: Ballot, v: Value): (Learner, Option<Msg>) {
    if i < l.min then (l, None)
    else
      var inst := GetInst(l, i);
      if inst.chosen || BallotGt(inst.ballot, b) then (PutInst(l, i, inst), None)
      else
        var inst' := NewBallot(inst, b, v);
        if a in inst'.quorum then (PutInst(l, i, inst'), None)
        else
          var counted := inst'.(quorum := inst'.quorum + {a});
          if |counted.quorum| >= l.q2 then
            (MarkChosen(PutInst(l, i, counted.(chosen := true)), i), Some(Chosen(i, Classic(b), v)))
          else (PutInst(l, i, counted), None)
  }

  function OnChosen(l: Learner, i: Iid, b: Ballot, v: Value): Learner {
    if i < l.min then l
    else
      var inst := GetInst(l, i);
      if inst.chosen then PutInst(l, i, inst)
      else MarkChosen(PutInst(l, i, inst.(ballot := b, value := v, chosen := true)), i)
  }

  /** Deliver the next instance if it is chosen. */
  function Deliver(l: Learner): Learner {
    if l.min in l.instances && l.instances[l.min].chosen then
      l.(delivered := l.delivered + [l.instances[l.min].value],
         instances := l.instances - {l.min}, min := l.min + 1)
    else l
  }

  /** Once no chosen instance lies ahead, everything delivered is announced as trimmable. */
  function Announce(l: Learner): (Learner, Option<Msg>) {
    if l.highest > l.min || l.min <= l.trim + 1 then (l, None)
    else (l.(trim := l.min - 1), Some(Trim(l.min - 1)))
  }

  function Step(l: Learner, m: Msg): (Learner, Option<Msg>) {
    match m
    case Accepted(a, i, r, v) => OnAccepted(l, a, i, r.ballot, v)
    case Chosen(i, r, v) => (OnChosen(l, i, r.ballot, v), None)
    case Trim(t) => (l.(trim := t), None)
    case _ => (l, None)
  }
}
