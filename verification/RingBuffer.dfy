/** The circular buffer of audio samples, with overwriting on and a fixed capacity. */
module RingBuffer {
  import opened Arith
  import opened Wrappers

  /** The slot of element `i`, counted from slot `first`. */
  function Slot(first: nat, i: nat, capacity: nat): nat {
    if first + i < capacity then first + i else first + i - capacity
  }

  lemma SlotIsRemainder(first: nat, i: nat, capacity: nat)
    requires first < capacity && i <= capacity
    ensures (first + i) % capacity == Slot(first, i, capacity) < capacity
  {
    ModUnique(first + i, capacity, if first + i < capacity then 0 else 1, Slot(first, i, capacity));
  }

  lemma LastMoves(first: nat, last: nat, size: nat, n: nat, capacity: nat)
    requires first < capacity && size + n <= capacity && last <= capacity
    requires last == Slot(first, size, capacity) || (last == capacity && Slot(first, size, capacity) == 0)
    ensures (last + n) % capacity == Slot(first, size + n, capacity)
  {
    if last == Slot(first, size, capacity) && first + size >= capacity {
      ModUnique(last + n, capacity, 0, last + n);
    } else {
      SlotIsRemainder(first, size + n, capacity);
    }
  }

  // ---- the bounded sequence the buffer stands for ----

  /** Append; the oldest element goes when there is no room. */
  function Pushed<T>(s: seq<T>, capacity: nat, x: T): seq<T>
    requires |s| <= capacity && capacity > 0
  {
    if |s| < capacity then s + [x] else s[1..] + [x]
  }

  function PushedAll<T>(s: seq<T>, capacity: nat, xs: seq<T>): (r: seq<T>)
    requires |s| <= capacity && capacity > 0
    ensures |r| <= capacity
    decreases |xs|
  {
    if xs == [] then s else PushedAll(Pushed(s, capacity, xs[0]), capacity, xs[1..])
  }

  function LastOf<T>(s: seq<T>, n: nat): seq<T> {
    if |s| <= n then s else s[|s| - n..]
  }

  /** After any number of pushes the buffer holds exactly the latest elements. */
  lemma {:induction false} KeepsTheLatest<T>(s: seq<T>, capacity: nat, xs: seq<T>)
    requires |s| <= capacity && capacity > 0
    ensures PushedAll(s, capacity, xs) == LastOf(s + xs, capacity)
    decreases |xs|
  {
    if xs == [] {
      assert s + xs == s;
    } else {
      hide LastOf, Pushed;
      KeepsTheLatest(Pushed(s, capacity, xs[0]), capacity, xs[1..]);
      assert xs == [xs[0]] + xs[1..];
      OnePushed(s, capacity, xs[0], xs[1..]);
    }
  }

  lemma OnePushed<T>(s: seq<T>, capacity: nat, x: T, rest: seq<T>)
    requires |s| <= capacity && capacity > 0
    ensures LastOf(Pushed(s, capacity, x) + rest, capacity) == LastOf(s + ([x] + rest), capacity)
  {
    hide LastOf;
    var t := Pushed(s, capacity, x);
    if |s| < capacity {
      assert s + ([x] + rest) == t + rest;
    } else {
      assert s == [s[0]] + s[1..];
      assert s + ([x] + rest) == [s[0]] + (t + rest);
      LastOfTail(s[0], t + rest, capacity);
    }
  }

  lemma LastOfTail<T>(x: T, s: seq<T>, n: nat)
    requires |s| >= n
    ensures LastOf([x] + s, n) == LastOf(s, n)
  {
  }

  class RingBuffer<T(0)> {
    const data: array<T>
    var first: nat
    var last: nat
    var size: nat

    /** `last` is the slot behind the newest element; behind the end of the array it is written
        either as the capacity or as zero. */
    ghost predicate Valid()
      reads this
    {
      && first < data.Length && size <= data.Length && last <= data.Length
      && (last == Slot(first, size, data.Length) || (last == data.Length && Slot(first, size, data.Length) == 0))
    }

    ghost function Contents(): (s: seq<T>)
      reads this, data
      requires Valid()
      ensures |s| == size
    {
      seq(size, i requires 0 <= i < size reads this, data requires Valid() => data[Slot(first, i, data.Length)])
    }

    constructor (capacity: nat)
      requires capacity > 0
      ensures Valid() && fresh(data) && data.Length == capacity && Contents() == []
    {
      data := new T[capacity];
      first, last, size := 0, 0, 0;
    }

    method Append(current: nat, n: nat) returns (next: nat)
      requires Valid() && current <= data.Length
      ensures next == (current + n) % data.Length
    {
      next := (current + n) % data.Length;
    }

    method EmplaceBackWithUnusedCapacity(x: T)
      requires Valid() && size < data.Length
      modifies this, data
      ensures Valid() && Contents() == old(Contents()) + [x]
    {
      if last + 1 <= data.Length {
        data[last] := x;
        last := last + 1;
      } else {
        data[0] := x;
        last := 1;
      }
      size := size + 1;
    }

    method EmplaceBackOverwrite(x: T)
      requires Valid() && size == data.Length
      modifies this, data
      ensures Valid() && Contents() == old(Contents())[1..] + [x]
    {
      data[first] := x;
      var next := first + 1;
      last := next;
      first := if next == data.Length then 0 else next;
    }

    method PushBack(x: T)
      requires Valid()
      modifies this, data
      ensures Valid() && Contents() == Pushed(old(Contents()), data.Length, x)
    {
      if size < data.Length {
        EmplaceBackWithUnusedCapacity(x);
      } else {
        EmplaceBackOverwrite(x);
      }
    }

    method TryPopFront() returns (r: Option<T>)
      requires Valid()
      modifies this
      ensures Valid()
      ensures old(Contents()) == [] ==> r == None && Contents() == []
      ensures old(Contents()) != [] ==> r == Some(old(Contents())[0]) && Contents() == old(Contents())[1..]
    {
      if size == 0 {
        return None;
      }
      var local := data[first];
      SlotIsRemainder(first, 1, data.Length);
      first := Append(first, 1);
      size := size - 1;
      return Some(local);
    }

    method PeekFront() returns (r: Option<T>)
      requires Valid()
      ensures r == if Contents() == [] then None else Some(Contents()[0])
    {
      if size == 0 {
        return None;
      }
      return Some(data[first]);
    }

    method At(idx: nat) returns (x: T)
      requires Valid() && idx < |Contents()|
      ensures x == Contents()[idx]
    {
      SlotIsRemainder(first, idx, data.Length);
      var slot := Append(first, idx);
      x := data[slot];
    }

    /** Writing through the reference the index operator returns. */
    method Put(idx: nat, x: T)
      requires Valid() && idx < |Contents()|
      modifies data
      ensures Valid() && Contents() == old(Contents())[idx := x]
    {
      SlotIsRemainder(first, idx, data.Length);
      var slot := Append(first, idx);
      data[slot] := x;
    }

    method Clear()
      requires Valid()
      modifies this
      ensures Valid() && Contents() == []
    {
      first, last, size := 0, 0, 0;
    }

    method CommitRead(n: nat)
      requires Valid() && n <= |Contents()|
      modifies this
      ensures Valid() && Contents() == old(Contents())[n..]
    {
      SlotIsRemainder(first, n, data.Length);
      first := Append(first, n);
      size := size - n;
    }

    /** What stands in the slots behind the newest element becomes part of the contents. */
    method CommitWrite(n: nat)
      requires Valid() && |Contents()| + n <= data.Length
      modifies this
      ensures Valid() && |Contents()| == |old(Contents())| + n && old(Contents()) <= Contents()
      ensures forall i :: old(size) <= i < size ==> Contents()[i] == data[Slot(old(first), i, data.Length)]
    {
      LastMoves(first, last, size, n, data.Length);
      last := Append(last, n);
      size := size + n;
    }

    /** Copies the elements out in order, whether they wrap around or not. */
    method FillFromRing(dest: array<T>) returns (n: nat)
      requires Valid() && size > 0 && dest != data && dest.Length >= size
      modifies dest
      ensures n == |Contents()| && dest[..n] == Contents()
    {
      if first < last {
        n := CopyRange(first, last, dest, 0);
      } else {
        n := CopyRange(first, data.Length, dest, 0);
        n := CopyRange(0, last, dest, n);
      }
    }

    method CopyRange(from: nat, to: nat, dest: array<T>, at: nat) returns (next: nat)
      requires from <= to <= data.Length && at + (to - from) <= dest.Length && dest != data
      modifies dest
      ensures next == at + (to - from)
      ensures forall k :: at <= k < next ==> dest[k] == data[k - at + from]
      ensures forall k :: 0 <= k < at ==> dest[k] == old(dest[k])
    {
      next := at;
      for i := from to to
        invariant next == at + (i - from)
        invariant forall k :: at <= k < next ==> dest[k] == data[k - at + from]
        invariant forall k :: 0 <= k < at ==> dest[k] == old(dest[k])
      {
        dest[next] := data[i];
        next := next + 1;
      }
    }
  }
}
