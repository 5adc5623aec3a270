/** Two threads on one ring (src/core/SpscQueue.h:83-134): every atomic load, atomic store and
    slot access is a step of its own, and a load of the other thread's index may return any value
    that index has held since the last one seen. */
module SpscInterleaving {
  import opened RingIndex
  import SpscQueue

  // ----- the machine -------------------------------------------------------------------------

  /** Where the producer is: inside `push` after loading its own tail, inside the slot it may
      write, with the slot written and the tail still to publish, or inside `size` after the
      first load. */
  datatype Producer<T> = PIdle | PLoaded(item: T, tail: Index) | PInSlot(item: T, tail: Index)
                       | PWritten(item: T, tail: Index) | PSizing(tail: Index)

  datatype Consumer<T> = CIdle | CLoaded(head: Index) | CInSlot(head: Index)
                       | CTaken(item: T, head: Index) | CSizing(tail: Index)

  /** The shared ring, the two program counters, and what has happened so far: the items pushed
      and popped, and the last count of the other side each thread has seen. */
  datatype State<T> = State(
    slots: seq<T>, head: Index, tail: Index, producer: Producer<T>, consumer: Consumer<T>,
    pushed: seq<T>, popped: seq<T>, headSeen: nat, tailSeen: nat)

  datatype Step<T> =
    | PushCalled(item: T)          // loads its own tail
    | PushChecks(seen: nat)        // loads head, possibly stale, and tests for full
    | PushWrites                   // writes the slot
    | PushPublishes                // stores the new tail
    | PopCalled                    // loads its own head
    | PopChecks(seen: nat)         // loads tail, possibly stale, and tests for empty
    | PopReads(left: T)            // moves the item out, leaving an unspecified value
    | PopPublishes                 // stores the new head
    | ProducerSizes                // size() on the producer's thread: loads tail
    | ProducerSized(seen: nat)     // ... then head
    | ConsumerSizes(seen: nat)     // size() on the consumer's thread: loads tail
    | ConsumerSized                // ... then head

  /** What a load of the other side's index may return: nothing older than what was seen. */
  predicate MaySee(seen: nat, last: nat, now: nat) { last <= seen <= now }

  predicate Enabled<T>(s: State<T>, step: Step<T>, k: nat) {
    && |s.slots| == Pow2(k)
    && match step
    case PushCalled(_) => s.producer.PIdle?
    case PushChecks(seen) => s.producer.PLoaded? && MaySee(seen, s.headSeen, |s.popped|)
    case PushWrites => s.producer.PInSlot?
    case PushPublishes => s.producer.PWritten?
    case PopCalled => s.consumer.CIdle?
    case PopChecks(seen) => s.consumer.CLoaded? && MaySee(seen, s.tailSeen, |s.pushed|)
    case PopReads(_) => s.consumer.CInSlot?
    case PopPublishes => s.consumer.CTaken?
    case ProducerSizes => s.producer.PIdle?
    case ProducerSized(seen) => s.producer.PSizing? && MaySee(seen, s.headSeen, |s.popped|)
    case ConsumerSizes(seen) => s.consumer.CIdle? && MaySee(seen, s.tailSeen, |s.pushed|)
    case ConsumerSized => s.consumer.CSizing?
  }

  /** The test of `push`: full when the producer would catch the head it sees. */
  predicate SeesFull(tail: Index, head: Index, k: nat) {
    Minus(Next(tail), head) > Pow2(k) - 1
  }

  function After<T>(s: State<T>, step: Step<T>, k: nat): State<T>
    requires Enabled(s, step, k)
  {
    match step
    case PushCalled(item) => s.(producer := PLoaded(item, s.tail))
    case PushChecks(seen) =>
      var p := s.producer;
      s.(headSeen := seen,
         producer := if SeesFull(p.tail, Wrap(seen), k) then PIdle else PInSlot(p.item, p.tail))
    case PushWrites =>
      s.(slots := s.slots[LowBits(s.producer.tail, k) := s.producer.item],
         producer := PWritten(s.producer.item, s.producer.tail))
    case PushPublishes =>
      s.(tail := Next(s.producer.tail), pushed := s.pushed + [s.producer.item], producer := PIdle)
    case PopCalled => s.(consumer := CLoaded(s.head))
    case PopChecks(seen) =>
      var h := s.consumer.head;
      s.(tailSeen := seen, consumer := if h == Wrap(seen) then CIdle else CInSlot(h))
    case PopReads(left) =>
      var slot := LowBits(s.consumer.head, k);
      s.(slots := s.slots[slot := left], consumer := CTaken(s.slots[slot], s.consumer.head))
    case PopPublishes =>
      s.(head := Next(s.consumer.head), popped := s.popped + [s.consumer.item], consumer := CIdle)
    case ProducerSizes => s.(producer := PSizing(s.tail))
    case ProducerSized(seen) => s.(headSeen := seen, producer := PIdle)
    case ConsumerSizes(seen) => s.(tailSeen := seen, consumer := CSizing(Wrap(seen)))
    case ConsumerSized => s.(consumer := CIdle)
  }

  ghost predicate Initial<T>(s: State<T>, k: nat) {
    && |s.slots| == Pow2(k) && s.head == 0 && s.tail == 0 && s.producer.PIdle? && s.consumer.CIdle?
    && s.pushed == [] && s.popped == [] && s.headSeen == 0 && s.tailSeen == 0
  }

  // ----- the invariant -----------------------------------------------------------------------

  ghost predicate CountsOk<T>(s: State<T>, k: nat) {
    && s.head == Wrap(|s.popped|) && s.tail == Wrap(|s.pushed|)
    && s.headSeen <= |s.popped| <= s.tailSeen <= |s.pushed| < s.headSeen + Pow2(k)
  }

  ghost predicate ProducerOk<T>(s: State<T>, k: nat)
    requires |s.slots| == Pow2(k)
  {
    var n := |s.pushed|;
    match s.producer
    case PIdle => true
    case PLoaded(_, tail) => tail == s.tail
    case PInSlot(_, tail) => tail == s.tail && n + 1 < s.headSeen + Pow2(k)
    case PWritten(item, tail) => tail == s.tail && n + 1 < s.headSeen + Pow2(k) && s.slots[LowBits(n, k)] == item
    case PSizing(tail) => tail == s.tail
  }

  ghost predicate ConsumerOk<T>(s: State<T>) {
    var n := |s.popped|;
    match s.consumer
    case CIdle => true
    case CLoaded(head) => head == s.head
    case CInSlot(head) => head == s.head && n < s.tailSeen
    case CTaken(item, head) => head == s.head && n < s.tailSeen <= |s.pushed| && item == s.pushed[n]
    case CSizing(tail) => tail == Wrap(s.tailSeen)
  }

  /** The first item still in the slots: one further while a taken item awaits publication. */
  function FirstStored<T>(s: State<T>): nat {
    if s.consumer.CTaken? then |s.popped| + 1 else |s.popped|
  }

  ghost predicate StoredOk<T>(s: State<T>, k: nat)
    requires |s.slots| == Pow2(k)
  {
    forall i: nat :: FirstStored(s) <= i < |s.pushed| ==> s.slots[LowBits(i, k)] == s.pushed[i]
  }

  ghost predicate Inv<T>(s: State<T>, k: nat) {
    && 1 <= k < WIDTH && |s.slots| == Pow2(k)
    && CountsOk(s, k)
    && s.popped <= s.pushed
    && ProducerOk(s, k) && ConsumerOk(s) && StoredOk(s, k)
  }

  lemma InitialInv<T>(s: State<T>, k: nat)
    requires Initial(s, k) && 1 <= k < WIDTH
    ensures Inv(s, k)
  {}

  /** The slot a thread addresses with its wrapped index is the slot of the unbounded count. */
  lemma SlotOf(index: Index, n: nat, k: nat)
    requires index == Wrap(n) && k < WIDTH
    ensures LowBits(index, k) == LowBits(n, k)
  {
    SlotSurvivesWrap(n, k);
  }

  lemma FullMeansFull(tail: Index, n: nat, seen: nat, k: nat)
    requires tail == Wrap(n) && seen <= n < seen + Pow2(k) && k < WIDTH
    ensures SeesFull(tail, Wrap(seen), k) <==> n + 1 == seen + Pow2(k)
  {
    hide Wrap, Minus, Next, Pow2;
    Pow2Bound(k);
    WrapNext(n);
    WrapMinus(n + 1, seen);
  }

  lemma ProducerStepKeeps<T>(s: State<T>, step: Step<T>, k: nat)
    requires Inv(s, k) && Enabled(s, step, k)
    requires step.PushCalled? || step.PushChecks? || step.PushWrites? || step.PushPublishes? || step.ProducerSizes? || step.ProducerSized?
    ensures Inv(After(s, step, k), k)
  {
    hide LowBits, Pow2, Wrap, Minus, Next, SeesFull;
    var n := |s.pushed|;
    match step {
      case PushChecks(seen) =>
        FullMeansFull(s.producer.tail, n, seen, k);
      case PushWrites =>
        SlotOf(s.tail, n, k);
        forall i: nat | FirstStored(s) <= i < n ensures LowBits(i, k) != LowBits(n, k) {
          if LowBits(i, k) == LowBits(n, k) {
            SlotsDistinct(i, n, k);
          }
        }
      case PushPublishes =>
        WrapNext(n);
      case _ =>
    }
  }

  lemma ConsumerStepKeeps<T>(s: State<T>, step: Step<T>, k: nat)
    requires Inv(s, k) && Enabled(s, step, k)
    requires step.PopCalled? || step.PopChecks? || step.PopReads? || step.PopPublishes? || step.ConsumerSizes? || step.ConsumerSized?
    ensures Inv(After(s, step, k), k)
  {
    hide LowBits, Pow2, Wrap, Minus, Next, SeesFull;
    var n := |s.popped|;
    Pow2Bound(k);
    match step {
      case PopChecks(seen) =>
        WrapSame(seen, n);
      case PopReads(left) =>
        SlotOf(s.head, n, k);
        forall i: nat | n < i <= |s.pushed| && i < n + Pow2(k) ensures LowBits(i, k) != LowBits(n, k) {
          if LowBits(i, k) == LowBits(n, k) {
            SlotsDistinct(n, i, k);
          }
        }
      case PopPublishes =>
        WrapNext(n);
      case _ =>
    }
  }

  lemma StepKeeps<T>(s: State<T>, step: Step<T>, k: nat)
    requires Inv(s, k) && Enabled(s, step, k)
    ensures Inv(After(s, step, k), k)
  {
    hide Inv, After;
    if step.PushCalled? || step.PushChecks? || step.PushWrites? || step.PushPublishes? || step.ProducerSizes? || step.ProducerSized? {
      ProducerStepKeeps(s, step, k);
    } else {
      ConsumerStepKeeps(s, step, k);
    }
  }

  // ----- runs --------------------------------------------------------------------------------

  ghost predicate RunTo<T(!new)>(states: seq<State<T>>, steps: seq<Step<T>>, k: nat) {
    && 1 <= k < WIDTH
    && |states| == |steps| + 1 && Initial(states[0], k)
    && forall i :: 0 <= i < |steps| ==> Enabled(states[i], steps[i], k) && states[i + 1] == After(states[i], steps[i], k)
  }

  lemma {:induction false} ReachableInv<T(!new)>(states: seq<State<T>>, steps: seq<Step<T>>, k: nat, i: nat)
    requires RunTo(states, steps, k) && i < |states|
    ensures Inv(states[i], k)
  {
    hide Inv, After, Initial, Enabled;
    if i == 0 {
      InitialInv(states[0], k);
    } else {
      ReachableInv(states, steps, k, i - 1);
      StepKeeps(states[i - 1], steps[i - 1], k);
    }
  }

  /** The queue the two threads share, as a FIFO value. */
  function Queued<T>(s: State<T>): seq<T> {
    if |s.popped| <= |s.pushed| then s.pushed[|s.popped|..] else []
  }

  /** Refinement of a bounded FIFO: publishing a push appends its item to a queue that has room,
      publishing a pop removes the front item and it is the one returned, and every other step,
      stale reads included, leaves the queue alone. */
  ghost predicate RefinesFifo<T>(s: State<T>, step: Step<T>, k: nat)
    requires Enabled(s, step, k)
  {
    var q, t := Queued(s), After(s, step, k);
    match step
    case PushPublishes => |q| < Pow2(k) - 1 && Queued(t) == q + [s.producer.item]
    case PopPublishes => q != [] && s.consumer.item == q[0] && t.popped == s.popped + [q[0]] && Queued(t) == q[1..]
    case _ => Queued(t) == q && t.pushed == s.pushed && t.popped == s.popped
  }

  lemma StepRefinesFifo<T>(s: State<T>, step: Step<T>, k: nat)
    requires Inv(s, k) && Enabled(s, step, k)
    ensures Inv(After(s, step, k), k) && RefinesFifo(s, step, k)
  {
    hide LowBits, Pow2, Wrap, Minus, Next, SeesFull, StoredOk;
    StepKeeps(s, step, k);
  }

  /** Over every interleaving: what was popped is a prefix of what was pushed, in order; the
      occupancy stays within capacity - 1; the two indices are those counts, wrapped. */
  lemma PoppedIsPrefixOfPushed<T(!new)>(states: seq<State<T>>, steps: seq<Step<T>>, k: nat, i: nat)
    requires RunTo(states, steps, k) && i < |states|
    ensures var s := states[i];
      && s.popped <= s.pushed && |s.pushed| - |s.popped| <= Pow2(k) - 1
      && s.head == Wrap(|s.popped|) && s.tail == Wrap(|s.pushed|)
      && Minus(s.tail, s.head) == |s.pushed| - |s.popped|
  {
    hide RunTo, StoredOk, ProducerOk, ConsumerOk, Pow2, Wrap, Minus;
    ReachableInv(states, steps, k, i);
    Pow2Bound(k);
    WrapMinus(|states[i].pushed|, |states[i].popped|);
  }

  /** Slot exclusivity: producer and consumer are never both about to touch one slot, so the
      unsynchronised slot accesses cannot race. */
  lemma SlotsExclusive<T(!new)>(states: seq<State<T>>, steps: seq<Step<T>>, k: nat, i: nat)
    requires RunTo(states, steps, k) && i < |states|
    ensures var s := states[i];
      s.producer.PInSlot? && s.consumer.CInSlot? ==>
        LowBits(s.producer.tail, k) != LowBits(s.consumer.head, k)
  {
    hide RunTo, StoredOk, LowBits, Pow2, Wrap;
    ReachableInv(states, steps, k, i);
    var s := states[i];
    if s.producer.PInSlot? && s.consumer.CInSlot? {
      SlotOf(s.producer.tail, |s.pushed|, k);
      SlotOf(s.consumer.head, |s.popped|, k);
      if LowBits(|s.pushed|, k) == LowBits(|s.popped|, k) {
        SlotsDistinct(|s.popped|, |s.pushed|, k);
      }
    }
  }

  /** `size` on the producer's or the consumer's own thread never underflows and never exceeds
      capacity - 1, although its two loads are separate and one may be stale. */
  lemma SizesBounded<T(!new)>(states: seq<State<T>>, steps: seq<Step<T>>, k: nat, i: nat)
    requires RunTo(states, steps, k) && i < |steps|
    ensures var s := states[i];
      && (forall seen :: steps[i] == ProducerSized(seen) ==>
            Minus(s.producer.tail, Wrap(seen)) == |s.pushed| - seen <= Pow2(k) - 1 && |Queued(s)| <= |s.pushed| - seen)
      && (steps[i] == ConsumerSized ==>
            && s.tailSeen >= |s.popped|
            && Minus(s.consumer.tail, s.head) == s.tailSeen - |s.popped| <= |Queued(s)| <= Pow2(k) - 1)
  {
    hide StoredOk, LowBits, Pow2, Wrap, Minus;
    ReachableInv(states, steps, k, i);
    var s := states[i];
    Pow2Bound(k);
    match steps[i] {
      case ProducerSized(seen) => WrapMinus(|s.pushed|, seen);
      case ConsumerSized => WrapMinus(s.tailSeen, |s.popped|);
      case _ =>
    }
  }

  /** When the two operations refuse. A push refuses exactly when the head it sees leaves no room,
      and, reading a current head, exactly when the queue is full; a pop refuses exactly when the
      tail it sees is its head, and, reading a current tail, exactly when the queue is empty. */
  lemma RefusalsExact<T>(s: State<T>, step: Step<T>, k: nat)
    requires Inv(s, k) && Enabled(s, step, k)
    ensures forall seen :: step == PushChecks(seen) ==>
      && (After(s, step, k).producer.PIdle? <==> |s.pushed| - seen == Pow2(k) - 1)
      && (seen == |s.popped| ==> (After(s, step, k).producer.PIdle? <==> |Queued(s)| == Pow2(k) - 1))
    ensures forall seen :: step == PopChecks(seen) ==>
      && (After(s, step, k).consumer.CIdle? <==> seen == |s.popped|)
      && (seen == |s.pushed| ==> (After(s, step, k).consumer.CIdle? <==> Queued(s) == []))
  {
    hide StoredOk, LowBits, Pow2, Wrap, Minus, Next, SeesFull;
    Pow2Bound(k);
    match step {
      case PushChecks(seen) => FullMeansFull(s.producer.tail, |s.pushed|, seen, k);
      case PopChecks(seen) => WrapSame(seen, |s.popped|);
      case _ =>
    }
  }

  // ----- the machine and the class -----------------------------------------------------------

  /** Undisturbed, the steps of one push with a current head do to the ring what `Queue.Push`
      does: the items between the indices gain the new one, or nothing changes. */
  lemma LonePushIsPush<T>(s: State<T>, item: T, k: nat)
    requires Inv(s, k) && s.producer.PIdle? && !s.consumer.CTaken?
    ensures SpscQueue.Items(s.slots, s.head, Minus(s.tail, s.head), k) == Queued(s)
    ensures var s1 := After(s, PushCalled(item), k);
      Enabled(s1, PushChecks(|s.popped|), k) &&
      var s2 := After(s1, PushChecks(|s.popped|), k);
      if |Queued(s)| == Pow2(k) - 1 then s2.producer.PIdle? && Queued(s2) == Queued(s)
      else
        && Enabled(s2, PushWrites, k) && Enabled(After(s2, PushWrites, k), PushPublishes, k)
        && Queued(After(After(s2, PushWrites, k), PushPublishes, k)) == Queued(s) + [item]
  {
    hide LowBits, Pow2, Wrap, Minus, Next, SeesFull, StoredOk, SpscQueue.Items;
    var s1 := After(s, PushCalled(item), k);
    StepKeeps(s, PushCalled(item), k);
    RefusalsExact(s1, PushChecks(|s.popped|), k);
    ItemsQueued(s, k);
  }

  lemma ItemsQueued<T>(s: State<T>, k: nat)
    requires Inv(s, k) && !s.consumer.CTaken?
    ensures SpscQueue.Items(s.slots, s.head, Minus(s.tail, s.head), k) == Queued(s)
  {
    hide LowBits, Pow2, Wrap, Minus, Next;
    var n, q := |s.popped|, Queued(s);
    Pow2Bound(k);
    WrapMinus(|s.pushed|, n);
    forall i: nat | i < |q| ensures s.slots[SpscQueue.SlotAt(s.head, i, k)] == q[i] {
      SlotSurvivesWrap(s.head + i, k);
      SlotSurvivesWrap(n + i, k);
      WrapSum(n, i);
      assert s.slots[LowBits(n + i, k)] == s.pushed[n + i];
    }
  }

  lemma WrapSum(n: nat, i: nat)
    ensures Wrap(Wrap(n) + i) == Wrap(n + i)
  {}
}
