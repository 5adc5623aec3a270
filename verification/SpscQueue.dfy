/** The lock-free ring as each thread sees it alone (src/core/SpscQueue.h): a bounded FIFO on
    fixed-width free-running indices. `SpscInterleaving` treats the two threads together. */
module SpscQueue {
  import opened Wrappers
  import opened RingIndex

  /** The slot of the i-th item counted from an index. */
  function SlotAt(base: nat, i: nat, k: nat): (slot: nat)
    ensures slot < Pow2(k)
  {
    LowBits(base + i, k)
  }

  /** The items between two indices, oldest first. */
  function Items<T>(slots: seq<T>, head: nat, count: nat, k: nat): (items: seq<T>)
    requires |slots| == Pow2(k)
    ensures |items| == count
  {
    seq(count, i requires 0 <= i < count => slots[SlotAt(head, i, k)])
  }

  class Queue<T(0)> {
    const k: nat
    const buffer: array<T>
    var head: Index
    var tail: Index

    ghost predicate Valid()
      reads this
    {
      && 1 <= k < WIDTH && buffer.Length == Pow2(k)
      && Minus(tail, head) <= Pow2(k) - 1
    }

    ghost function Contents(): (items: seq<T>)
      requires Valid()
      reads this, buffer
    {
      Items(buffer[..], head, Minus(tail, head), k)
    }

    constructor (k: nat)
      requires 1 <= k < WIDTH
      ensures Valid() && this.k == k && Contents() == [] && fresh(buffer)
    {
      this.k := k;
      buffer := new T[Pow2(k)];
      head, tail := 0, 0;
    }

    method Push(item: T) returns (stored: bool)
      requires Valid()
      modifies this`tail, buffer
      ensures Valid()
      ensures stored <==> |old(Contents())| < Pow2(k) - 1
      ensures Contents() == if stored then old(Contents()) + [item] else old(Contents())
    {
      hide LowBits;
      Pow2Bound(k);
      ghost var count := Minus(tail, head);
      var t := tail;
      var next := Next(t);
      if Minus(next, head) > Pow2(k) - 1 {
        return false;
      }
      SlotOfTail(head, count, k);
      assert t == Wrap(head + count);
      ItemsAppend(buffer[..], head, count, k, item);
      buffer[LowBits(t, k)] := item;
      tail := next;
      assert buffer[..] == old(buffer[..])[LowBits(t, k) := item];
      assert Minus(tail, head) == count + 1;
      return true;
    }

    method Pop() returns (out: Option<T>)
      requires Valid()
      modifies this`head
      ensures Valid()
      ensures out == if old(Contents()) == [] then None else Some(old(Contents())[0])
      ensures Contents() == if out.None? then old(Contents()) else old(Contents())[1..]
    {
      hide LowBits;
      Pow2Bound(k);
      var h := head;
      if h == tail {
        return None;
      }
      out := Some(buffer[LowBits(h, k)]);
      ItemsDrop(buffer[..], h, Minus(tail, h), k);
      head := Next(h);
      assert Minus(tail, head) == Minus(tail, h) - 1;
    }

    method Size() returns (n: nat)
      requires Valid()
      ensures n == |Contents()| <= Pow2(k) - 1
    {
      n := Minus(tail, head);
    }

    method Empty() returns (r: bool)
      requires Valid()
      ensures r <==> Contents() == []
    {
      r := head == tail;
    }

    method Full() returns (r: bool)
      requires Valid()
      ensures r <==> |Contents()| == Pow2(k) - 1
    {
      var n := Size();
      r := n >= Pow2(k) - 1;
    }
  }

  /** The slot the producer writes is the one after the items, wrapped or not. */
  lemma SlotOfTail(head: Index, count: nat, k: nat)
    requires k <= WIDTH && count < MODULUS
    ensures LowBits(Wrap(head + count), k) == LowBits(head + count, k)
  {
    SlotSurvivesWrap(head + count, k);
  }

  lemma ItemsAppend<T>(slots: seq<T>, head: nat, count: nat, k: nat, item: T)
    requires |slots| == Pow2(k) && count < Pow2(k)
    ensures Items(slots[LowBits(head + count, k) := item], head, count + 1, k) == Items(slots, head, count, k) + [item]
  {
    hide LowBits;
    forall i: nat | i < count ensures SlotAt(head, i, k) != LowBits(head + count, k) {
      if SlotAt(head, i, k) == LowBits(head + count, k) {
        SlotsDistinct(head + i, head + count, k);
      }
    }
  }

  lemma SlotAfter(head: Index, i: nat, k: nat)
    requires k <= WIDTH
    ensures SlotAt(Next(head), i, k) == SlotAt(head, i + 1, k)
  {
    hide LowBits;
    SlotSurvivesWrap(Next(head) + i, k);
    SlotSurvivesWrap(head + (i + 1), k);
    assert Wrap(Next(head) + i) == Wrap(head + (i + 1));
  }

  lemma ItemsDrop<T>(slots: seq<T>, head: Index, count: nat, k: nat)
    requires k <= WIDTH && |slots| == Pow2(k) && 0 < count < MODULUS
    ensures Items(slots, Next(head), count - 1, k) == Items(slots, head, count, k)[1..]
  {
    hide LowBits, Next, SlotAt;
    forall i: nat | i < count - 1 ensures SlotAt(Next(head), i, k) == SlotAt(head, i + 1, k) {
      SlotAfter(head, i, k);
    }
  }
}
