/** The two client value queues of paxos/value_proposal_manager.c: values waiting for a first proposal, and values
    proposed but not yet known to be chosen. */
module ValueManager {
  import opened Types
  import opened CArray

  const NOP: Value := [78, 79, 80, 0]

  // ---------------------------------------------------------------- on values

  datatype Queues = Queues(waiting: seq<Value>, proposed: seq<Value>, repropose: bool, timing: bool)

  /** The elements other than v, in order. */
  function Without<T(==)>(s: seq<T>, v: T): seq<T> {
    if s == [] then []
    else Without(s[..|s| - 1], v) + if s[|s| - 1] == v then [] else [s[|s| - 1]]
  }

  function Reversed<T>(s: seq<T>): (r: seq<T>)
    ensures |r| == |s|
    ensures forall k | 0 <= k < |s| :: r[k] == s[|s| - 1 - k]
  {
    if s == [] then [] else [s[|s| - 1]] + Reversed(s[..|s| - 1])
  }

  function Enqueue(q: Queues, v: Value): Queues { q.(waiting := q.waiting + [v]) }

  /** The next value to propose: a waiting one; else, if allowed, a proposed one once more; else a no-op to fill a
      hole, after a wait. `elapsed` tells whether the wait is over by the clock. */
  function GetNext(q: Queues, fillHoles: bool, elapsed: bool): (Queues, Option<Value>) {
    if q.waiting != [] then
      (q.(waiting := q.waiting[1..], proposed := q.proposed + [q.waiting[0]], timing := false), Some(q.waiting[0]))
    else if q.proposed != [] && q.repropose then
      (q.(proposed := q.proposed[1..] + [q.proposed[0]], timing := false), Some(q.proposed[0]))
    else if fillHoles then
      if q.timing && elapsed then (q, Some(NOP)) else (q.(timing := true), None)
    else (q.(timing := false), None)
  }

  function Close(q: Queues, v: Value): (Queues, bool) {
    (q.(waiting := Without(q.waiting, v), proposed := Without(q.proposed, v)), v in q.waiting || v in q.proposed)
  }

  /** Both queues give up the value; each that had it puts one copy in front of the waiting ones. */
  function Requeue(q: Queues, v: Value): (Queues, bool) {
    var closed := Close(q, v).0;
    var first := (if v in q.proposed then [v] else []) + closed.waiting;
    var second := (if v in q.waiting then [v] else []) + first;
    (closed.(waiting := second), v in q.waiting || v in q.proposed)
  }

  // ---------------------------------------------------------------- no value is lost

  predicate Outstanding(q: Queues, v: Value) { v in q.waiting || v in q.proposed }

  lemma {:induction false} WithoutMembers<T>(s: seq<T>, v: T, x: T)
    ensures x in Without(s, v) <==> x in s && x != v
  {
    if s != [] {
      WithoutMembers(s[..|s| - 1], v, x);
      assert s == s[..|s| - 1] + [s[|s| - 1]];
    }
  }

  /** Filtering keeps the multiplicity of everything else. */
  lemma {:induction false} WithoutCounts<T>(s: seq<T>, v: T)
    ensures multiset(Without(s, v)) == multiset(s)[v := 0]
  {
    if s != [] {
      WithoutCounts(s[..|s| - 1], v);
      assert s == s[..|s| - 1] + [s[|s| - 1]];
    }
  }

  lemma {:induction false} WithoutAppend<T>(s: seq<T>, t: seq<T>, v: T)
    ensures Without(s + t, v) == Without(s, v) + Without(t, v)
  {
    if t == [] {
      assert s + t == s;
    } else {
      var t' := t[..|t| - 1];
      assert (s + t)[..|s + t| - 1] == s + t';
      WithoutAppend(s, t', v);
    }
  }

  /** Draining a queue front to front twice brings back its order. */
  lemma {:induction false} ReversedTwice<T>(s: seq<T>)
    ensures Reversed(Reversed(s)) == s
  {}

  datatype Op = OpEnqueue(v: Value) | OpNext(fillHoles: bool, elapsed: bool) | OpClose(v: Value) | OpRequeue(v: Value)

  function Do(q: Queues, op: Op): Queues {
    match op
    case OpEnqueue(v) => Enqueue(q, v)
    case OpNext(h, e) => GetNext(q, h, e).0
    case OpClose(v) => Close(q, v).0
    case OpRequeue(v) => Requeue(q, v).0
  }

  function DoAll(q: Queues, ops: seq<Op>): Queues {
    if ops == [] then q else Do(DoAll(q, ops[..|ops| - 1]), ops[|ops| - 1])
  }

  /** Only enqueueing adds a value and only closing that very value removes it. */
  lemma OpEffect(q: Queues, op: Op, v: Value)
    ensures Outstanding(Do(q, op), v) <==> (Outstanding(q, v) || op == OpEnqueue(v)) && op != OpClose(v)
  {
    match op
    case OpEnqueue(w) =>
    case OpNext(h, e) =>
      if q.waiting != [] {
        assert q.waiting == [q.waiting[0]] + q.waiting[1..];
      } else if q.proposed != [] {
        assert q.proposed == [q.proposed[0]] + q.proposed[1..];
      }
    case OpClose(w) => WithoutMembers(q.waiting, w, v); WithoutMembers(q.proposed, w, v);
    case OpRequeue(w) => WithoutMembers(q.waiting, w, v); WithoutMembers(q.proposed, w, v);
  }

  /** v was handed in at some point and never closed since. */
  ghost predicate Owed(ops: seq<Op>, v: Value) {
    exists k :: 0 <= k < |ops| && ops[k] == OpEnqueue(v) && forall j | k < j < |ops| :: ops[j] != OpClose(v)
  }

  lemma OwedStep(ops: seq<Op>, op: Op, v: Value)
    ensures Owed(ops + [op], v) <==> (Owed(ops, v) || op == OpEnqueue(v)) && op != OpClose(v)
  {
    var all := ops + [op];
    if op == OpEnqueue(v) { assert all[|ops|] == OpEnqueue(v); }
    if Owed(ops, v) && op != OpClose(v) {
      var k :| 0 <= k < |ops| && ops[k] == OpEnqueue(v) && forall j | k < j < |ops| :: ops[j] != OpClose(v);
      assert all[k] == OpEnqueue(v);
    }
    if Owed(all, v) {
      var k :| 0 <= k < |all| && all[k] == OpEnqueue(v) && forall j | k < j < |all| :: all[j] != OpClose(v);
      if k < |ops| {
        assert all[|ops|] == op;
        assert ops[k] == OpEnqueue(v) && forall j | k < j < |ops| :: ops[j] == all[j];
      }
    }
  }

  /** No client value is lost, and none is invented: after any operations a value is in one of the queues exactly
      when it was enqueued and not closed since. */
  lemma {:induction false} NoValueLost(repropose: bool, ops: seq<Op>, v: Value)
    ensures Outstanding(DoAll(Queues([], [], repropose, false), ops), v) <==> Owed(ops, v)
    decreases |ops|
  {
    if ops != [] {
      var init, op := ops[..|ops| - 1], ops[|ops| - 1];
      assert ops == init + [op];
      NoValueLost(repropose, init, v);
      OpEffect(DoAll(Queues([], [], repropose, false), init), op, v);
      OwedStep(init, op, v);
    }
  }

  /** What is handed out for proposal is a no-op or a value still outstanding afterwards. */
  lemma NextIsOutstanding(q: Queues, fillHoles: bool, elapsed: bool)
    ensures var (q', v) := GetNext(q, fillHoles, elapsed); v.Some? ==> v.value == NOP || Outstanding(q', v.value)
  {}

  // ---------------------------------------------------------------- in place

  /** Part of a queue has been moved over, front to front and without v. */
  ghost predicate Drained(all: seq<Value>, done: seq<Value>, rest: seq<Value>, out: seq<Value>, found: bool, v: Value) {
    done + rest == all && out == Reversed(Without(done, v)) && found == (v in done)
  }

  lemma DrainStep(all: seq<Value>, done: seq<Value>, rest: seq<Value>, out: seq<Value>, found: bool, v: Value)
    requires Drained(all, done, rest, out, found, v) && rest != []
    ensures var x := rest[0];
      Drained(all, done + [x], rest[1..], (if x == v then [] else [x]) + out, found || x == v, v)
  {
    var x := rest[0];
    assert rest == [x] + rest[1..];
    assert (done + [x]) + rest[1..] == done + rest;
    WithoutSnoc(done, x, v);
    if x == v {
      assert [] + out == out;
    } else {
      ReversedSnoc(Without(done, v), x);
    }
  }

  lemma WithoutSnoc(s: seq<Value>, x: Value, v: Value)
    ensures Without(s + [x], v) == if x == v then Without(s, v) else Without(s, v) + [x]
  {
    assert (s + [x])[..|s|] == s;
  }

  lemma ReversedSnoc(s: seq<Value>, x: Value)
    ensures Reversed(s + [x]) == [x] + Reversed(s)
  {
    assert (s + [x])[..|s|] == s;
  }

  class Manager {
    const waiting: CArray<Value>
    const proposed: CArray<Value>
    const repropose: bool
    const awaitHoles: bool
    var timing: bool

    ghost predicate Valid()
      reads this, waiting, proposed, waiting.data, proposed.data
    {
      waiting != proposed && waiting.data != proposed.data && waiting.Valid() && proposed.Valid()
    }

    ghost function View(): Queues
      requires Valid()
      reads this, waiting, proposed, waiting.data, proposed.data
    {
      Queues(waiting.Contents(), proposed.Contents(), repropose, timing)
    }

    constructor (capacity: nat, repropose: bool, awaitHoles: bool)
      requires capacity > 0
      ensures Valid() && View() == Queues([], [], repropose, false)
      ensures fresh(waiting) && fresh(proposed) && fresh(waiting.data) && fresh(proposed.data)
    {
      waiting := new CArray<Value>(capacity);
      proposed := new CArray<Value>(capacity);
      this.repropose := repropose;
      this.awaitHoles := awaitHoles;
      timing := false;
    }

    method Add(v: Value)
      requires Valid() && v != NOP
      modifies waiting, waiting.data
      ensures Valid() && View() == Enqueue(old(View()), v)
      ensures waiting.data == old(waiting.data) || fresh(waiting.data)
    {
      waiting.PushBack(v);
    }

    method Next(isHoles: bool, elapsed: bool) returns (r: Option<Value>)
      requires Valid()
      modifies this, waiting, proposed, proposed.data
      ensures Valid() && (View(), r) == GetNext(old(View()), isHoles || !awaitHoles, elapsed)
      ensures proposed.data == old(proposed.data) || fresh(proposed.data)
    {
      if !waiting.Empty() {
        r := waiting.PopFront();
        proposed.PushBack(r.value);
        timing := false;
      } else if !proposed.Empty() && repropose {
        r := proposed.PopFront();
        proposed.PushBack(r.value);
        timing := false;
      } else if isHoles || !awaitHoles {
        if timing && elapsed {
          r := Some(NOP);
        } else {
          timing := true;
          r := None;
        }
      } else {
        timing := false;
        r := None;
      }
    }

    /** Drain a queue into a temporary one, dropping v, and pour the temporary one back: two reversals. */
    static method Remove(q: CArray<Value>, v: Value) returns (found: bool)
      requires q.Valid()
      modifies q, q.data
      ensures q.Valid() && q.Contents() == Without(old(q.Contents()), v)
      ensures found == (v in old(q.Contents()))
      ensures q.data == old(q.data) || fresh(q.data)
    {
      var tmp := new CArray<Value>(q.size);
      found := Drain(q, tmp, v);
      PourBack(tmp, q);
      ReversedTwice(Without(old(q.Contents()), v));
    }

    /** Move every element but v to the front of another, empty queue. */
    static method Drain(q: CArray<Value>, tmp: CArray<Value>, v: Value) returns (found: bool)
      requires q.Valid() && tmp.Valid() && q != tmp && q.data != tmp.data && tmp.Contents() == []
      modifies q, tmp, tmp.data
      ensures q.Valid() && q.data == old(q.data) && q.Contents() == []
      ensures tmp.Valid() && tmp.Contents() == Reversed(Without(old(q.Contents()), v))
      ensures found == (v in old(q.Contents()))
      ensures tmp.data == old(tmp.data) || fresh(tmp.data)
    {
      ghost var all := q.Contents();
      ghost var done: seq<Value> := [];
      found := false;
      while !q.Empty()
        invariant q.Valid() && q.data == old(q.data) && tmp.Valid() && (tmp.data == old(tmp.data) || fresh(tmp.data))
        invariant Drained(all, done, q.Contents(), tmp.Contents(), found, v)
        decreases q.count
      {
        DrainStep(all, done, q.Contents(), tmp.Contents(), found, v);
        var x := MoveFront(q, tmp, Some(v));
        if x == v { found := true; }
        done := done + [x];
      }
      assert q.Contents() == [] && done + [] == done;
    }

    /** Move the first element of a queue to the front of another, unless it is to be dropped. */
    static method MoveFront(q: CArray<Value>, tmp: CArray<Value>, drop: Option<Value>) returns (x: Value)
      requires q.Valid() && tmp.Valid() && q != tmp && q.data != tmp.data && q.Contents() != []
      modifies q, tmp, tmp.data
      ensures q.Valid() && q.data == old(q.data) && tmp.Valid() && (tmp.data == old(tmp.data) || fresh(tmp.data))
      ensures x == old(q.Contents())[0] && q.Contents() == old(q.Contents())[1..]
      ensures tmp.Contents() == (if drop == Some(x) then [] else [x]) + old(tmp.Contents())
    {
      var first := q.PopFront();
      x := first.value;
      if drop != Some(x) { tmp.PushFront(x); }
    }

    /** Move every element to the front of another, empty queue. */
    static method PourBack(tmp: CArray<Value>, q: CArray<Value>)
      requires q.Valid() && tmp.Valid() && q != tmp && q.data != tmp.data && q.Contents() == []
      modifies q, tmp, q.data
      ensures q.Valid() && q.Contents() == Reversed(old(tmp.Contents()))
      ensures q.data == old(q.data) || fresh(q.data)
    {
      ghost var all := tmp.Contents();
      ghost var k := 0;
      while !tmp.Empty()
        invariant q.Valid() && tmp.Valid() && tmp.data == old(tmp.data) && (q.data == old(q.data) || fresh(q.data))
        invariant k <= |all| && tmp.Contents() == all[k..]
        invariant q.Contents() == Reversed(all[..k])
        decreases |all| - k
      {
        var x := MoveFront(tmp, q, None);
        assert all[..k + 1][..k] == all[..k] && all[k..][1..] == all[k + 1..];
        k := k + 1;
      }
      assert all[..k] == all;
    }

    /** Both queues give up a value. */
    method RemoveBoth(v: Value) returns (wasWaiting: bool, wasProposed: bool)
      requires Valid()
      modifies waiting, proposed, waiting.data, proposed.data
      ensures Valid() && View() == Close(old(View()), v).0
      ensures wasWaiting == (v in old(View()).waiting) && wasProposed == (v in old(View()).proposed)
      ensures waiting.data == old(waiting.data) || fresh(waiting.data)
      ensures proposed.data == old(proposed.data) || fresh(proposed.data)
    {
      wasWaiting := Remove(waiting, v);
      wasProposed := Remove(proposed, v);
    }

    method CloseIfOutstanding(v: Value) returns (closed: bool)
      requires Valid()
      modifies waiting, proposed, waiting.data, proposed.data
      ensures Valid() && (View(), closed) == Close(old(View()), v)
      ensures waiting.data == old(waiting.data) || fresh(waiting.data)
      ensures proposed.data == old(proposed.data) || fresh(proposed.data)
    {
      var a, b := RemoveBoth(v);
      closed := a || b;
    }

    method CheckAndRequeue(v: Value) returns (requeued: bool)
      requires Valid()
      modifies waiting, proposed, waiting.data, proposed.data
      ensures Valid() && (View(), requeued) == Requeue(old(View()), v)
      ensures waiting.data == old(waiting.data) || fresh(waiting.data)
      ensures proposed.data == old(proposed.data) || fresh(proposed.data)
    {
      var a, b := RemoveBoth(v);
      PushFrontIf(b, v);
      PushFrontIf(a, v);
      requeued := a || b;
    }

    method PushFrontIf(push: bool, v: Value)
      requires Valid()
      modifies waiting, waiting.data
      ensures Valid() && View() == old(View()).(waiting := (if push then [v] else []) + old(View()).waiting)
      ensures waiting.data == old(waiting.data) || fresh(waiting.data)
    {
      if push { waiting.PushFront(v); } else { assert [] + waiting.Contents() == waiting.Contents(); }
    }
  }
}
