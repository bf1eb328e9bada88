/** The growing ring buffer of paxos/carray.c. */
module CArray {
  import opened Types

  /** The elements of a ring that starts at head and holds count elements. */
  function Ring<T>(a: seq<T>, head: nat, count: nat): (s: seq<T>)
    requires head < |a| && count <= |a|
    ensures |s| == count
  {
    seq(count, i requires 0 <= i < count => a[Wrap(head + i, |a|)])
  }

  /** x modulo n for an x less than twice n. */
  function Wrap(x: nat, n: nat): (w: nat)
    requires x < 2 * n
    ensures w < n
  {
    if x < n then x else x - n
  }

  lemma WrapIsMod(x: nat, n: nat)
    requires x < 2 * n
    ensures x % n == Wrap(x, n)
  {
    if x >= n { assert x % n == (x - n) % n; }
  }

  lemma RingAt<T>(a: seq<T>, head: nat, count: nat, i: nat)
    requires head < |a| && i < count <= |a|
    ensures Ring(a, head, count)[i] == a[Wrap(head + i, |a|)]
  {}

  /** Writing behind the last element appends. */
  lemma RingPushBack<T>(a: seq<T>, head: nat, count: nat, p: T)
    requires head < |a| && count < |a|
    ensures Ring(a[Wrap(head + count, |a|) := p], head, count + 1) == Ring(a, head, count) + [p]
  {
    var a' := a[Wrap(head + count, |a|) := p];
    forall i | 0 <= i < count + 1 ensures Ring(a', head, count + 1)[i] == (Ring(a, head, count) + [p])[i] {
      RingAt(a', head, count + 1, i);
      if i < count { RingAt(a, head, count, i); }
    }
  }

  /** Writing before the first element prepends. */
  lemma RingPushFront<T>(a: seq<T>, head: nat, count: nat, p: T)
    requires head < |a| && count < |a|
    ensures var h := if head == 0 then |a| - 1 else head - 1;
      Ring(a[h := p], h, count + 1) == [p] + Ring(a, head, count)
  {
    var h := if head == 0 then |a| - 1 else head - 1;
    forall i | 0 <= i < count + 1 ensures Ring(a[h := p], h, count + 1)[i] == ([p] + Ring(a, head, count))[i] {
      RingAt(a[h := p], h, count + 1, i);
      if i > 0 { RingAt(a, head, count, i - 1); }
    }
  }

  /** Moving the head on drops the first element. */
  lemma RingPopFront<T>(a: seq<T>, head: nat, count: nat)
    requires head < |a| && 0 < count <= |a|
    ensures Ring(a, Wrap(head + 1, |a|), count - 1) == Ring(a, head, count)[1..]
    ensures Ring(a, head, count)[0] == a[head]
  {
    RingAt(a, head, count, 0);
    forall i | 0 <= i < count - 1 ensures Ring(a, Wrap(head + 1, |a|), count - 1)[i] == Ring(a, head, count)[1..][i] {
      RingAt(a, Wrap(head + 1, |a|), count - 1, i);
      RingAt(a, head, count, i + 1);
    }
  }

  class CArray<T(0)> {
    var head: nat
    var tail: nat
    var size: nat
    var count: nat
    var data: array<T>

    /** The tail is the place just before the next free one. */
    ghost predicate Valid()
      reads this, data
    {
      && 0 < size == data.Length
      && head < size && tail < size && count <= size
      && Wrap(tail + 1, size) == Wrap(head + count, size)
    }

    ghost function Contents(): (s: seq<T>)
      requires Valid()
      reads this, data
    {
      Ring(data[..], head, count)
    }

    constructor (capacity: nat)
      requires capacity > 0
      ensures Valid() && Contents() == [] && fresh(data) && size == capacity && head == 0 && count == 0
    {
      head, tail, size, count := 0, capacity - 1, capacity, 0;
      data := new T[capacity];
    }

    predicate Empty()
      reads this
    {
      count == 0
    }

    method At(i: nat) returns (p: T)
      requires Valid() && i < count
      ensures p == Contents()[i]
    {
      WrapIsMod(head + i, size);
      RingAt(data[..], head, count, i);
      p := data[(head + i) % size];
    }

    method PushBack(p: T)
      requires Valid()
      modifies this, data
      ensures Valid() && Contents() == old(Contents()) + [p]
      ensures data == old(data) || fresh(data)
    {
      if count == size { Grow(); }
      Append(p);
    }

    /** Append to a ring with room. */
    method Append(p: T)
      requires Valid() && count < size
      modifies this`tail, this`count, data
      ensures Valid() && Contents() == old(Contents()) + [p] && count == old(count) + 1
    {
      ghost var a := data[..];
      WrapIsMod(tail + 1, size);
      RingPushBack(a, head, count, p);
      tail := (tail + 1) % size;
      data[tail] := p;
      count := count + 1;
      assert data[..] == a[tail := p];
    }

    method PushFront(p: T)
      requires Valid()
      modifies this, data
      ensures Valid() && Contents() == [p] + old(Contents())
      ensures data == old(data) || fresh(data)
    {
      if count == size { Grow(); }
      Prepend(p);
    }

    /** Prepend to a ring with room. */
    method Prepend(p: T)
      requires Valid() && count < size
      modifies this`head, this`count, data
      ensures Valid() && Contents() == [p] + old(Contents())
    {
      ghost var a := data[..];
      RingPushFront(a, head, count, p);
      head := if head == 0 then size - 1 else head - 1;
      data[head] := p;
      count := count + 1;
      assert data[..] == a[head := p];
    }

    /** The first element, or nothing if there is none. */
    method PopFront() returns (p: Option<T>)
      requires Valid()
      modifies this`head, this`count
      ensures Valid() && data == old(data)
      ensures old(Contents()) == [] ==> p.None? && Contents() == []
      ensures old(Contents()) != [] ==> p == Some(old(Contents())[0]) && Contents() == old(Contents())[1..]
    {
      if count == 0 { return None; }
      RingPopFront(data[..], head, count);
      WrapIsMod(head + 1, size);
      p := Some(data[head]);
      head := (head + 1) % size;
      count := count - 1;
    }

    /** Append all elements to an empty ring with enough room. */
    method CopyTo(other: CArray<T>)
      requires Valid() && other.Valid() && other != this && other.data != data
      requires other.count == 0 && other.size >= count
      modifies other`tail, other`count, other.data
      ensures other.Valid() && other.Contents() == Contents()
    {
      for i := 0 to count
        invariant other.Valid() && other.count == i
        invariant other.Contents() == Contents()[..i]
      {
        CopyOne(other, i);
      }
    }

    method CopyOne(other: CArray<T>, i: nat)
      requires Valid() && other.Valid() && other != this && other.data != data
      requires other.count == i < count <= other.size && other.Contents() == Contents()[..i]
      modifies other`tail, other`count, other.data
      ensures other.Valid() && other.count == i + 1 && other.Contents() == Contents()[..i + 1]
    {
      var p := At(i);
      other.Append(p);
      assert Contents()[..i] + [Contents()[i]] == Contents()[..i + 1];
    }

    /** Twice the room, the elements moved to the front. */
    method Grow()
      requires Valid()
      modifies this
      ensures Valid() && Contents() == old(Contents())
      ensures size == 2 * old(size) && count == old(count) && head == 0 && fresh(data)
    {
      var tmp := new CArray<T>(size * 2);
      CopyTo(tmp);
      assert tmp.count == |tmp.Contents()| == |Contents()| == count;
      head, tail, size, data := 0, tmp.tail, tmp.size, tmp.data;
    }
  }
}
