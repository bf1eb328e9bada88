/** The learner of paxos/epoch_learner.c: per instance it keeps one record for every epoch ballot it has seen a
    vote at, marks the instance chosen when one record reaches a quorum, and delivers instances in order. */
module EpochLearner {
  import opened Types

  datatype BallotRecord = BallotRecord(round: Round, value: Value, quorum: set<Aid>)

  datatype Inst = Inst(records: seq<BallotRecord>, chosen: Option<nat>)   // chosen: index of the chosen record

  datatype Learner = Learner(
    q2: nat,
    min: Iid,                   // next instance to deliver
    highest: Iid,               // highest instance known chosen
    trim: Iid,
    instances: map<Iid, Inst>,
    delivered: seq<Value>)      // what has been handed to the application, in order

  function Boot(q2: nat): Learner { Learner(q2, 1, 0, 0, map[], []) }

  function GetInst(l: Learner, i: Iid): Inst {
    if i in l.instances then l.instances[i] else Inst([], None)
  }

  function PutInst(l: Learner, i: Iid, inst: Inst): Learner { l.(instances := l.instances[i := inst]) }

  function MarkChosen(l: Learner, i: Iid): Learner { l.(highest := if i > l.highest then i else l.highest) }

  /** Index of the last record of a round; the number of records if there is none. */
  function IndexOf(records: seq<BallotRecord>, r: Round): (k: nat)
    ensures k <= |records|
    ensures k < |records| ==> records[k].round == r
    ensures k == |records| ==> forall j | 0 <= j < |records| :: records[j].round != r
  {
    if records == [] then 0
    else
      var last := |records| - 1;
      if records[last].round == r then last
      else
        var k := IndexOf(records[..last], r);
        if k == last then |records| else k
  }

  /** The records with one for round r among them. */
  function WithRecord(records: seq<BallotRecord>, r: Round): (s: seq<BallotRecord>)
    ensures IndexOf(records, r) < |s| && s[IndexOf(records, r)].round == r
    ensures records <= s
  {
    if IndexOf(records, r) < |records| then records else records + [BallotRecord(r, [], {})]
  }

  function AddValue(rec: BallotRecord, v: Value): BallotRecord {
    if rec.value == [] then rec.(value := v) else rec
  }

  /** Count acceptor a at round r. */
  function AddVote(inst: Inst, a: Aid, r: Round, v: Value): Inst {
    var k := IndexOf(inst.records, r);
    var records := WithRecord(inst.records, r);
    inst.(records := records[k := AddValue(records[k].(quorum := records[k].quorum + {a}), v)])
  }

  function OnAccepted(l: Learner, a: Aid, i: Iid, r: Round, v: Value): (Learner, Option<Msg>) {
    if i < l.min then (l, None)
    else
      var inst := GetInst(l, i);
      if inst.chosen.Some? then (PutInst(l, i, inst), None)
      else
        var k := IndexOf(inst.records, r);
        var inst' := AddVote(inst, a, r, v);
        if a in WithRecord(inst.records, r)[k].quorum then (PutInst(l, i, inst'), None)
        else if |inst'.records[k].quorum| >= l.q2 then
          (MarkChosen(PutInst(l, i, inst'.(chosen := Some(k))), i), Some(Chosen(i, r, v)))
        else (PutInst(l, i, inst'), None)
  }

  function OnChosen(l: Learner, i: Iid, r: Round, v: Value): Learner {
    if i < l.min then l
    else
      var inst := GetInst(l, i);
      if inst.chosen.Some? then PutInst(l, i, inst)
      else
        var k := IndexOf(inst.records, r);
        var records := WithRecord(inst.records, r);
        MarkChosen(PutInst(l, i, Inst(records[k := AddValue(records[k], v)], Some(k))), i)
  }

  function ChosenValue(inst: Inst): Option<Value> {
    if inst.chosen.Some? && inst.chosen.value < |inst.records| then Some(inst.records[inst.chosen.value].value)
    else None
  }

  function Deliver(l: Learner): Learner {
    var v := ChosenValue(GetInst(l, l.min));
    if v.Some? then
      l.(delivered := l.delivered + [v.value], instances := l.instances - {l.min}, min := l.min + 1)
    else l
  }

  function Announce(l: Learner): (Learner, Option<Msg>) {
    if l.highest > l.min || l.min <= l.trim + 1 then (l, None)
    else (l.(trim := l.min - 1), Some(Trim(l.min - 1)))
  }

  function Step(l: Learner, m: Msg): (Learner, Option<Msg>) {
    match m
    case Accepted(a, i, r, v) => OnAccepted(l, a, i, r, v)
    case Chosen(i, r, v) => (OnChosen(l, i, r, v), None)
    case Trim(t) => (l.(trim := t), None)
    case _ => (l, None)
  }
}
