/** Which value the manager of client values hands out next, told from what was done with it before. */
module ValueOrder {
  import opened Types
  import opened ValueManager

  function Start(repropose: bool): Queues { Queues([], [], repropose, false) }

  /** What is handed out after the operations. */
  function Handed(repropose: bool, ops: seq<Op>, fillHoles: bool, elapsed: bool): Option<Value> {
    GetNext(DoAll(Start(repropose), ops), fillHoles, elapsed).1
  }

  // ---------------------------------------------------------------- the history

  /** The values that wait for their first proposal, in line: enqueued at the end, requeued to the front, and the
      first one leaves whenever one is asked for. */
  ghost function Line(repropose: bool, ops: seq<Op>): seq<Value>
    decreases |ops|, 0
  {
    if ops == [] then []
    else
      var before := ops[..|ops| - 1];
      var line := Line(repropose, before);
      match ops[|ops| - 1]
      case OpEnqueue(v) => line + [v]
      case OpClose(v) => Without(line, v)
      case OpNext(_, _) => if line == [] then [] else line[1..]
      case OpRequeue(v) =>
        (if v in line then [v] else []) + (if Lent(repropose, before, v) then [v] else []) + Without(line, v)
  }

  /** The value was handed out from the line, and neither closed nor taken back since. */
  ghost predicate Lent(repropose: bool, ops: seq<Op>, v: Value)
    decreases |ops|, 1
  {
    ops != [] &&
      var before := ops[..|ops| - 1];
      match ops[|ops| - 1]
      case OpEnqueue(_) => Lent(repropose, before, v)
      case OpClose(w) => v != w && Lent(repropose, before, v)
      case OpRequeue(w) => v != w && Lent(repropose, before, v)
      case OpNext(h, e) =>
        Lent(repropose, before, v) || (Line(repropose, before) != [] && Handed(repropose, before, h, e) == Some(v))
  }

  /** There is a client value to hand out: one in line, or one that may be proposed again. */
  ghost predicate HasClientValue(repropose: bool, ops: seq<Op>) {
    Line(repropose, ops) != [] || (repropose && exists v :: Lent(repropose, ops, v))
  }

  /** The last time a value was asked for there were holes to fill and no client value to fill them with. */
  ghost predicate Waiting(repropose: bool, ops: seq<Op>) {
    ops != [] &&
      var before := ops[..|ops| - 1];
      match ops[|ops| - 1]
      case OpNext(h, _) => h && !HasClientValue(repropose, before)
      case _ => Waiting(repropose, before)
  }

  /** The queues after the operations, told from the history. */
  ghost predicate Tells(repropose: bool, ops: seq<Op>, q: Queues) {
    && q.waiting == Line(repropose, ops)
    && (forall v :: v in q.proposed <==> Lent(repropose, ops, v))
    && q.timing == Waiting(repropose, ops)
    && q.repropose == repropose
  }

  lemma ClientValueIff(repropose: bool, ops: seq<Op>, q: Queues)
    requires Tells(repropose, ops, q)
    ensures HasClientValue(repropose, ops) <==> q.waiting != [] || (q.proposed != [] && q.repropose)
  {
    if q.proposed != [] { assert q.proposed[0] in q.proposed; }
  }

  lemma NextTells(repropose: bool, ops: seq<Op>, q: Queues, h: bool, e: bool)
    requires Tells(repropose, ops, q) && q == DoAll(Start(repropose), ops)
    ensures Tells(repropose, ops + [OpNext(h, e)], GetNext(q, h, e).0)
  {
    var all := ops + [OpNext(h, e)];
    assert all[..|all| - 1] == ops;
    ClientValueIff(repropose, ops, q);
    var q' := GetNext(q, h, e).0;
    if q.waiting == [] && q.proposed != [] { assert q.proposed == [q.proposed[0]] + q.proposed[1..]; }
    forall v ensures v in q'.proposed <==> Lent(repropose, all, v) {
      assert v in q.proposed <==> Lent(repropose, ops, v);
    }
  }

  lemma ClosedMembers(repropose: bool, ops: seq<Op>, q: Queues, w: Value)
    requires Tells(repropose, ops, q)
    ensures forall v :: v in Without(q.proposed, w) <==> v != w && Lent(repropose, ops, v)
  {
    forall v ensures v in Without(q.proposed, w) <==> v != w && Lent(repropose, ops, v) {
      WithoutMembers(q.proposed, w, v);
    }
  }

  lemma CloseTells(repropose: bool, ops: seq<Op>, q: Queues, w: Value)
    requires Tells(repropose, ops, q)
    ensures Tells(repropose, ops + [OpClose(w)], Close(q, w).0)
  {
    var all := ops + [OpClose(w)];
    assert all[..|all| - 1] == ops;
    ClosedMembers(repropose, ops, q, w);
  }

  lemma RequeueTells(repropose: bool, ops: seq<Op>, q: Queues, w: Value)
    requires Tells(repropose, ops, q)
    ensures Tells(repropose, ops + [OpRequeue(w)], Requeue(q, w).0)
  {
    var all, q' := ops + [OpRequeue(w)], Requeue(q, w).0;
    assert all[..|all| - 1] == ops;
    ClosedMembers(repropose, ops, q, w);
    assert w in q.proposed <==> Lent(repropose, ops, w);
    Regroup(if w in q.waiting then [w] else [], if w in q.proposed then [w] else [], Without(q.waiting, w));
    assert q'.waiting == Line(repropose, all);
  }

  lemma Regroup(a: seq<Value>, b: seq<Value>, c: seq<Value>)
    ensures a + (b + c) == (a + b) + c
  {}

  lemma EnqueueTells(repropose: bool, ops: seq<Op>, q: Queues, v: Value)
    requires Tells(repropose, ops, q)
    ensures Tells(repropose, ops + [OpEnqueue(v)], Enqueue(q, v))
  {
    var all := ops + [OpEnqueue(v)];
    assert all[..|all| - 1] == ops;
  }

  lemma {:induction false} HistoryTells(repropose: bool, ops: seq<Op>)
    ensures Tells(repropose, ops, DoAll(Start(repropose), ops))
    decreases |ops|
  {
    if ops != [] {
      var before, op := ops[..|ops| - 1], ops[|ops| - 1];
      assert ops == before + [op];
      HistoryTells(repropose, before);
      var q := DoAll(Start(repropose), before);
      match op
      case OpEnqueue(v) => EnqueueTells(repropose, before, q, v);
      case OpNext(h, e) => NextTells(repropose, before, q, h, e);
      case OpClose(v) => CloseTells(repropose, before, q, v);
      case OpRequeue(v) => RequeueTells(repropose, before, q, v);
    }
  }

  // ---------------------------------------------------------------- theorems

  /** After any operations: the first value in line; else, where that is allowed, one that was handed out before; else a
      no-op, if there are holes to fill and the wait begun for them is over; else nothing. */
  lemma HandedOut(repropose: bool, ops: seq<Op>, fillHoles: bool, elapsed: bool)
    ensures var out := Handed(repropose, ops, fillHoles, elapsed);
      if Line(repropose, ops) != [] then out == Some(Line(repropose, ops)[0])
      else if HasClientValue(repropose, ops) then out.Some? && Lent(repropose, ops, out.value)
      else out == if fillHoles && elapsed && Waiting(repropose, ops) then Some(NOP) else None
  {
    HistoryTells(repropose, ops);
    var q := DoAll(Start(repropose), ops);
    ClientValueIff(repropose, ops, q);
    if q.waiting == [] && q.proposed != [] { assert q.proposed[0] in q.proposed; }
  }

  lemma {:induction false} NopNeverQueued(repropose: bool, ops: seq<Op>)
    requires OpEnqueue(NOP) !in ops
    ensures NOP !in Line(repropose, ops) && !Lent(repropose, ops, NOP)
  {
    NoValueLost(repropose, ops, NOP);
    HistoryTells(repropose, ops);
  }

  /** A no-op is handed out exactly when no client value can be and the wait begun for holes is over. */
  lemma NopIff(repropose: bool, ops: seq<Op>, fillHoles: bool, elapsed: bool)
    requires OpEnqueue(NOP) !in ops
    ensures Handed(repropose, ops, fillHoles, elapsed) == Some(NOP) <==>
      !HasClientValue(repropose, ops) && fillHoles && elapsed && Waiting(repropose, ops)
  {
    HandedOut(repropose, ops, fillHoles, elapsed);
    NopNeverQueued(repropose, ops);
    if Line(repropose, ops) != [] { assert Line(repropose, ops)[0] in Line(repropose, ops); }
  }

  /** Nothing is handed out exactly when there is neither a client value nor a no-op that is due. */
  lemma NothingIff(repropose: bool, ops: seq<Op>, fillHoles: bool, elapsed: bool)
    ensures Handed(repropose, ops, fillHoles, elapsed) == None <==>
      !HasClientValue(repropose, ops) && !(fillHoles && elapsed && Waiting(repropose, ops))
  {
    HandedOut(repropose, ops, fillHoles, elapsed);
  }

  /** Closing and requeueing tell whether the value was enqueued and not closed since. */
  lemma FoundIffOwed(repropose: bool, ops: seq<Op>, v: Value)
    ensures var q := DoAll(Start(repropose), ops);
      (Close(q, v).1 <==> Owed(ops, v)) && (Requeue(q, v).1 <==> Owed(ops, v))
  {
    NoValueLost(repropose, ops, v);
  }

  function Enqueued(ops: seq<Op>): seq<Value> {
    if ops == [] then []
    else
      var last := ops[|ops| - 1];
      Enqueued(ops[..|ops| - 1]) + if last.OpEnqueue? then [last.v] else []
  }

  /** What was handed out while values were in line, in the order of the requests. */
  ghost function FirstHanded(repropose: bool, ops: seq<Op>): seq<Value> {
    if ops == [] then []
    else
      var before, last := ops[..|ops| - 1], ops[|ops| - 1];
      var out := if last.OpNext? then Handed(repropose, before, last.fillHoles, last.elapsed) else None;
      FirstHanded(repropose, before) + if out.Some? && Line(repropose, before) != [] then [out.value] else []
  }

  /** First come, first served: while nothing is closed or requeued, the values handed out for the first time and those
      still in line are the enqueued ones, in order. */
  lemma {:induction false} FirstInFirstOut(repropose: bool, ops: seq<Op>)
    requires forall op | op in ops :: op.OpEnqueue? || op.OpNext?
    ensures FirstHanded(repropose, ops) + Line(repropose, ops) == Enqueued(ops)
    decreases |ops|
  {
    if ops != [] {
      var before, last := ops[..|ops| - 1], ops[|ops| - 1];
      assert last in ops && forall op | op in before :: op in ops;
      FirstInFirstOut(repropose, before);
      var first, line := FirstHanded(repropose, before), Line(repropose, before);
      if last.OpEnqueue? {
        Regroup(first, line, [last.v]);
        assert FirstHanded(repropose, ops) == first;
      } else {
        HandedOut(repropose, before, last.fillHoles, last.elapsed);
        if line == [] {
          assert FirstHanded(repropose, ops) == first && Line(repropose, ops) == line;
        } else {
          Regroup(first, [line[0]], line[1..]);
          assert FirstHanded(repropose, ops) == first + [line[0]] && line == [line[0]] + line[1..];
        }
      }
    }
  }

  /** n requests in a row, with their results. */
  function Ask(q: Queues, n: nat, fillHoles: bool, elapsed: bool): (r: (Queues, seq<Option<Value>>))
    ensures |r.1| == n
  {
    if n == 0 then (q, [])
    else
      var (q', out) := Ask(q, n - 1, fillHoles, elapsed);
      (GetNext(q', fillHoles, elapsed).0, out + [GetNext(q', fillHoles, elapsed).1])
  }

  /** Values that may be proposed again take turns. */
  lemma {:induction false} RepeatsInTurn(q: Queues, n: nat, fillHoles: bool, elapsed: bool)
    requires q.waiting == [] && q.repropose && 0 < n <= |q.proposed|
    ensures var (q', out) := Ask(q, n, fillHoles, elapsed);
      && q' == q.(proposed := q.proposed[n..] + q.proposed[..n], timing := false)
      && forall k | 0 <= k < n :: out[k] == Some(q.proposed[k])
  {
    if n > 1 { RepeatsInTurn(q, n - 1, fillHoles, elapsed); }
    var q1 := Ask(q, n - 1, fillHoles, elapsed).0;
    assert q1.proposed == q.proposed[n - 1..] + q.proposed[..n - 1];
    assert q1.proposed[1..] + [q1.proposed[0]] == q.proposed[n..] + q.proposed[..n];
  }
}
