/**
  The channel buffer: a ring whose length is a power of two, so that indices wrap
  with a mask, holding at most `capacity` values, which need not be a power of two.
 */
module Ring {
  import opened Options
  import opened Powers

  /** The slot `i` places behind `head` in a ring of `length` slots. */
  function Slot(head: nat, i: nat, length: nat): (j: nat)
    requires head < length && i <= length
    ensures j < length
  {
    if head + i < length then head + i else head + i - length
  }

  /** The mask steps to the next slot and wraps at the end. */
  lemma {:induction false} MaskStep(i: nat, capacity: nat)
    requires i < BitCeil(capacity)
    ensures BitAnd(i + 1, BitCeil(capacity) - 1) == Slot(i, 1, BitCeil(capacity))
  {
    var n := BitCeil(capacity);
    MaskWraps(i + 1, CeilLog(capacity));
    RemainderOf(i + 1, n, if i + 1 < n then 0 else 1, Slot(i, 1, n));
  }

  /** The `n` slots from `head` on are full. */
  ghost predicate Full<T>(s: seq<Option<T>>, head: nat, n: nat) {
    n > 0 ==> head < |s| && n <= |s| && forall i :: 0 <= i < n ==> s[Slot(head, i, |s|)].Some?
  }

  /** The slots behind them are empty: nothing is kept of a value that was taken. */
  ghost predicate Vacant<T>(s: seq<Option<T>>, head: nat, n: nat)
    requires s != [] ==> head < |s|
  {
    forall i :: n <= i < |s| ==> s[Slot(head, i, |s|)].None?
  }

  /** Their values, in order. */
  ghost function Window<T>(s: seq<Option<T>>, head: nat, n: nat): seq<T>
    requires Full(s, head, n)
  {
    seq(n, i requires 0 <= i < n => s[Slot(head, i, |s|)].value)
  }

  lemma {:induction false} PushWindow<T>(s: seq<Option<T>>, head: nat, n: nat, v: T)
    requires Full(s, head, n) && head < |s| && n < |s| && Vacant(s, head, n)
    ensures var s' := s[Slot(head, n, |s|) := Some(v)];
      Full(s', head, n + 1) && Window(s', head, n + 1) == Window(s, head, n) + [v] && Vacant(s', head, n + 1)
  {
  }

  lemma {:induction false} PopWindow<T>(s: seq<Option<T>>, head: nat, n: nat)
    requires Full(s, head, n) && n > 0 && Vacant(s, head, n)
    ensures s[head].Some?
    ensures var s' := s[head := None];
      && Vacant(s', Slot(head, 1, |s|), n - 1)
      && Full(s', Slot(head, 1, |s|), n - 1)
      && Window(s, head, n) == [s[head].value] + Window(s', Slot(head, 1, |s|), n - 1)
  {
    assert Slot(head, 0, |s|) == head;
    var s', next := s[head := None], Slot(head, 1, |s|);
    forall i | 0 <= i < |s| - 1 ensures s'[Slot(next, i, |s|)] == s[Slot(head, i + 1, |s|)] {
    }
    assert Slot(next, |s| - 1, |s|) == head;
  }

  class Ring<T> {
    const capacity: nat
    const slots: array<Option<T>>
    const mask: nat
    var head: nat
    var tail: nat
    var size: nat

    ghost predicate Valid()
      reads this, slots
    {
      && (if capacity == 0 then slots.Length == 0 && mask == 0
          else slots.Length == BitCeil(capacity) && mask == slots.Length - 1
               && head < slots.Length && size <= capacity && tail == Slot(head, size, slots.Length))
      && size <= capacity && Full(slots[..], head, size) && Vacant(slots[..], head, size)
    }

    ghost function Contents(): (s: seq<T>)
      requires Valid()
      reads this, slots
      ensures |s| == size
    {
      Window(slots[..], head, size)
    }

    constructor (capacity: nat)
      ensures Valid() && Contents() == [] && this.capacity == capacity && fresh(slots)
    {
      this.capacity := capacity;
      var n := if capacity == 0 then 0 else BitCeil(capacity);
      slots := new Option<T>[n](_ => None);
      mask := if n == 0 then 0 else n - 1;
      head, tail, size := 0, 0, 0;
    }

    method Push(v: T)
      requires Valid() && size != capacity
      modifies this, slots
      ensures Valid() && Contents() == old(Contents()) + [v]
    {
      PushWindow(slots[..], head, size, v);
      MaskStep(tail, capacity);
      slots[tail] := Some(v);
      tail := BitAnd(tail + 1, mask);
      size := size + 1;
    }

    method Pop() returns (v: T)
      requires Valid() && size != 0
      modifies this, slots
      ensures Valid() && old(Contents()) == [v] + Contents()
    {
      PopWindow(slots[..], head, size);
      MaskStep(head, capacity);
      v := slots[head].value;
      slots[head] := None;
      head := BitAnd(head + 1, mask);
      size := size - 1;
    }
  }
}
