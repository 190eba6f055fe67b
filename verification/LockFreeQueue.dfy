/**
 * The single-producer single-consumer ring under every interleaving of its atomic steps. The ring never checks that
 * it is full; `cap` is the count below which its producer starts a write.
 */
module LockFreeQueue {

  /** How far the producer is with one element: each step is one atomic access or the write of a slot. */
  datatype Producer =
    | Waiting
    | Allowed
    | Pointing(slot: nat)
    | Written
    | Stepping(next: nat)
    | Stepped

  /** How far the consumer is. It may copy through its pointer once more after giving the slot back. */
  datatype Consumer<T> =
    | Polling
    | Seen
    | Holding(slot: nat)
    | Read(slot: nat, value: T)
    | Advancing(slot: nat, value: T, next: nat)
    | Advanced(slot: nat, value: T)
    | Checked(slot: nat, value: T)
    | Released(slot: nat, value: T)
    | Failed

  datatype State<T> = State(
    store: seq<T>, writeIndex: nat, readIndex: nat, count: nat, producer: Producer, consumer: Consumer<T>,
    produced: seq<T>, consumed: seq<T>, copied: seq<T>)

  datatype Action<T> = Produce(value: T) | Consume

  function Start<T>(store: seq<T>): State<T> {
    State(store, 0, 0, 0, Waiting, Polling, [], [], [])
  }

  /** The producer's next atomic step; a pending write stores v. */
  function ProducerStep<T>(s: State<T>, cap: nat, v: T): State<T>
    requires |s.store| > 0
  {
    match s.producer
    case Waiting => if s.count < cap then s.(producer := Allowed) else s
    case Allowed => s.(producer := Pointing(s.writeIndex))
    case Pointing(i) =>
      if i < |s.store| then s.(store := s.store[i := v], produced := s.produced + [v], producer := Written) else s
    case Written => s.(producer := Stepping((s.writeIndex + 1) % |s.store|))
    case Stepping(i) => s.(writeIndex := i, producer := Stepped)
    case Stepped => s.(count := s.count + 1, producer := Waiting)
  }

  function ConsumerStep<T>(s: State<T>): State<T>
    requires |s.store| > 0
  {
    match s.consumer
    case Polling => if s.count > 0 then s.(consumer := Seen) else s
    case Seen => s.(consumer := Holding(s.readIndex))
    case Holding(i) =>
      if i < |s.store| then s.(consumer := Read(i, s.store[i]), consumed := s.consumed + [s.store[i]]) else s
    case Read(i, v) => s.(consumer := Advancing(i, v, (s.readIndex + 1) % |s.store|))
    case Advancing(i, v, n) => s.(readIndex := n, consumer := Advanced(i, v))
    case Advanced(i, v) => s.(consumer := if s.count == 0 then Failed else Checked(i, v))
    case Checked(i, v) => if s.count > 0 then s.(count := s.count - 1, consumer := Released(i, v)) else s
    case Released(i, v) => if i < |s.store| then s.(copied := s.copied + [s.store[i]], consumer := Polling) else s
    case Failed => s
  }

  function Next<T>(s: State<T>, cap: nat, a: Action<T>): (t: State<T>)
    requires |s.store| > 0
    ensures |t.store| == |s.store|
  {
    match a
    case Produce(v) => ProducerStep(s, cap, v)
    case Consume => ConsumerStep(s)
  }

  function Run<T>(s: State<T>, cap: nat, actions: seq<Action<T>>): (t: State<T>)
    requires |s.store| > 0
    ensures |t.store| == |s.store|
    decreases |actions|
  {
    if actions == [] then s else Run(Next(s, cap, actions[0]), cap, actions[1..])
  }

  // ----- the invariant -----

  /** Elements whose write index has been stored, and whose count has been raised. */
  function Indexed<T>(s: State<T>): int {
    |s.produced| - if s.producer.Written? || s.producer.Stepping? then 1 else 0
  }

  function Published<T>(s: State<T>): int {
    |s.produced| - if s.producer.Written? || s.producer.Stepping? || s.producer.Stepped? then 1 else 0
  }

  /** Elements whose read index has been stored, and whose count has been lowered. */
  function Passed<T>(s: State<T>): int {
    |s.consumed| - if s.consumer.Read? || s.consumer.Advancing? then 1 else 0
  }

  function Freed<T>(s: State<T>): int {
    |s.consumed| - if s.consumer.Read? || s.consumer.Advancing? || s.consumer.Advanced? || s.consumer.Checked?
                     then 1 else 0
  }

  /** The slot the i-th element goes to, going round the ring. */
  function SlotOf(i: nat, n: nat): (slot: nat)
    requires n > 0
    ensures slot < n
  {
    if i == 0 then 0 else if SlotOf(i - 1, n) + 1 == n then 0 else SlotOf(i - 1, n) + 1
  }

  /** Each slot holds the last element written to it. */
  ghost predicate Kept<T>(store: seq<T>, produced: seq<T>) {
    |store| > 0 && forall i :: 0 <= i < |produced| && |produced| - |store| <= i ==>
        store[SlotOf(i, |store|)] == produced[i]
  }

  ghost predicate ProducerOk<T>(s: State<T>, cap: nat)
    requires |s.store| > 0
  {
    && Indexed(s) >= 0 && s.writeIndex == SlotOf(Indexed(s), |s.store|)
    && (!s.producer.Waiting? ==> s.count < cap)
    && (s.producer.Pointing? ==> s.producer.slot == SlotOf(|s.produced|, |s.store|))
    && (s.producer.Stepping? ==> s.producer.next == SlotOf(|s.produced|, |s.store|))
  }

  ghost predicate ConsumerOk<T>(s: State<T>)
    requires |s.store| > 0
  {
    var n := |s.consumed|;
    && Passed(s) >= 0 && s.readIndex == SlotOf(Passed(s), |s.store|)
    && !s.consumer.Failed?
    && (s.consumer.Seen? || s.consumer.Holding? ==> n < Published(s))
    && (s.consumer.Holding? ==> s.consumer.slot == SlotOf(n, |s.store|))
    && (s.consumer.Advancing? ==> s.consumer.next == SlotOf(n, |s.store|))
    && (s.consumer.Read? || s.consumer.Advancing? || s.consumer.Advanced? || s.consumer.Checked?
        || s.consumer.Released? ==>
          n > 0 && s.consumer.slot == SlotOf(n - 1, |s.store|) && s.consumer.value == s.consumed[n - 1])
    && |s.copied| == n - if s.consumer.Polling? || s.consumer.Seen? || s.consumer.Holding? then 0 else 1
  }

  /** The count is what is published and not freed; what is consumed was published, in that order. */
  ghost predicate CountOk<T>(s: State<T>, cap: nat) {
    && s.count == Published(s) - Freed(s) && s.count <= cap
    && |s.consumed| <= Published(s)
    && s.consumed == s.produced[..|s.consumed|]
  }

  ghost predicate Inv<T>(s: State<T>, cap: nat) {
    && |s.store| > 0 && Kept(s.store, s.produced)
    && |s.consumed| <= |s.produced|
    && ProducerOk(s, cap) && ConsumerOk(s) && CountOk(s, cap)
  }

  // ----- arithmetic of the ring -----

  lemma SlotNext(i: nat, n: nat)
    requires n > 0
    ensures (SlotOf(i, n) + 1) % n == SlotOf(i + 1, n)
  {
  }

  lemma {:induction false} SlotAfter(i: nat, d: nat, n: nat)
    requires d < n
    ensures SlotOf(i + d, n) == if SlotOf(i, n) + d < n then SlotOf(i, n) + d else SlotOf(i, n) + d - n
  {
    if d > 0 {
      SlotAfter(i, d - 1, n);
    }
  }

  lemma {:induction false} SlotsApart(i: nat, j: nat, n: nat)
    requires i < j < i + n
    ensures SlotOf(i, n) != SlotOf(j, n)
  {
    SlotAfter(i, j - i, n);
  }

  lemma KeptWrite<T>(store: seq<T>, produced: seq<T>, v: T)
    requires Kept(store, produced)
    ensures Kept(store[SlotOf(|produced|, |store|) := v], produced + [v])
  {
    forall i | 0 <= i < |produced| && |produced| + 1 - |store| <= i
      ensures SlotOf(i, |store|) != SlotOf(|produced|, |store|)
    {
      SlotsApart(i, |produced|, |store|);
    }
  }

  // ----- every step keeps it -----

  lemma ProducerKeeps<T>(s: State<T>, cap: nat, v: T)
    requires Inv(s, cap) && cap <= |s.store|
    ensures Inv(ProducerStep(s, cap, v), cap)
  {
    hide SlotOf, Kept;
    SlotNext(Indexed(s), |s.store|);
    if s.producer.Pointing? {
      KeptWrite(s.store, s.produced, v);
    }
  }

  lemma ConsumerKeeps<T>(s: State<T>, cap: nat)
    requires Inv(s, cap) && cap <= |s.store|
    ensures Inv(ConsumerStep(s), cap)
  {
    hide SlotOf, Kept;
    SlotNext(Passed(s), |s.store|);
    if s.consumer.Holding? {
      KeptAt(s.store, s.produced, |s.consumed|);
    }
  }

  lemma {:induction false} KeptAt<T>(store: seq<T>, produced: seq<T>, i: nat)
    requires Kept(store, produced) && i < |produced| <= i + |store|
    ensures store[SlotOf(i, |store|)] == produced[i]
  {
  }

  lemma StartOk<T>(store: seq<T>, cap: nat)
    requires |store| > 0
    ensures Inv(Start(store), cap)
  {
  }

  lemma {:induction false} RunKeeps<T>(s: State<T>, cap: nat, actions: seq<Action<T>>)
    requires Inv(s, cap) && cap <= |s.store|
    ensures Inv(Run(s, cap, actions), cap)
    decreases |actions|
  {
    hide Inv;
    if actions != [] {
      match actions[0] {
        case Produce(v) => ProducerKeeps(s, cap, v);
        case Consume => ConsumerKeeps(s, cap);
      }
      Sizes(s, cap, actions[0]);
      RunKeeps(Next(s, cap, actions[0]), cap, actions[1..]);
    }
  }

  lemma Sizes<T>(s: State<T>, cap: nat, a: Action<T>)
    requires Inv(s, cap)
    ensures |s.store| > 0 && |Next(s, cap, a).store| == |s.store|
  {
  }

  /** The slot about to be written holds no element that is still to be read. */
  ghost predicate WriteSafe<T>(s: State<T>) {
    s.producer.Pointing? && |s.store| > 0 ==>
      forall i :: |s.consumed| <= i < |s.produced| ==> SlotOf(i, |s.store|) != s.producer.slot
  }

  /** What is consumed is what was produced, in order and without loss. */
  ghost predicate InOrder<T>(s: State<T>) {
    |s.consumed| <= |s.produced| && s.consumed == s.produced[..|s.consumed|]
  }

  /**
   * With at most as many elements queued as there are slots: whatever the interleaving, the consumer reads what was
   * produced, in order and without loss, no unread slot is written, and reading never fails its assertion.
   */
  lemma {:induction false} Fifo<T>(store: seq<T>, cap: nat, actions: seq<Action<T>>)
    requires 0 < |store| && cap <= |store|
    ensures var s := Run(Start(store), cap, actions);
            && InOrder(s)
            && WriteSafe(s) && !s.consumer.Failed? && s.count <= cap
  {
    StartOk(store, cap);
    RunKeeps(Start(store), cap, actions);
    var s := Run(Start(store), cap, actions);
    if s.producer.Pointing? {
      forall i | |s.consumed| <= i < |s.produced|
        ensures SlotOf(i, |s.store|) != s.producer.slot
      {
        SlotsApart(i, |s.produced|, |s.store|);
      }
    }
  }

  // ----- the copy made after giving the slot back -----

  ghost predicate CopiesOk<T>(s: State<T>) {
    |s.copied| <= |s.consumed| && s.copied == s.consumed[..|s.copied|]
  }

  lemma CopyStep<T>(s: State<T>, cap: nat, a: Action<T>)
    requires Inv(s, cap) && cap < |s.store| && CopiesOk(s)
    ensures CopiesOk(Next(s, cap, a))
  {
    if a.Consume? && s.consumer.Released? {
      KeptAt(s.store, s.produced, |s.consumed| - 1);
    }
  }

  lemma {:induction false} CopyRun<T>(s: State<T>, cap: nat, actions: seq<Action<T>>)
    requires Inv(s, cap) && cap < |s.store| && CopiesOk(s)
    ensures CopiesOk(Run(s, cap, actions))
    decreases |actions|
  {
    hide Inv, CopiesOk;
    if actions != [] {
      CopyStep(s, cap, actions[0]);
      RunKeeps(s, cap, [actions[0]]);
      Sizes(s, cap, actions[0]);
      assert [actions[0]][1..] == [];
      CopyRun(Next(s, cap, actions[0]), cap, actions[1..]);
    }
  }

  /** With one slot to spare, a copy made after the read index moved on is still the element that was read. */
  lemma {:induction false} CopyAfterRelease<T>(store: seq<T>, cap: nat, actions: seq<Action<T>>)
    requires cap < |store|
    ensures CopiesOk(Run(Start(store), cap, actions))
  {
    StartOk(store, cap);
    CopyRun(Start(store), cap, actions);
  }

  // ----- at the bounds -----

  lemma {:induction false} RunConcat<T>(s: State<T>, cap: nat, a: seq<Action<T>>, b: seq<Action<T>>)
    requires |s.store| > 0
    ensures Run(s, cap, a + b) == Run(Run(s, cap, a), cap, b)
    decreases |a|
  {
    if a == [] {
      assert a + b == b;
    } else {
      assert (a + b)[1..] == a[1..] + b;
      RunConcat(Next(s, cap, a[0]), cap, a[1..], b);
    }
  }

  function Times<T>(a: Action<T>, n: nat): seq<Action<T>> {
    if n == 0 then [] else [a] + Times(a, n - 1)
  }

  lemma RunTimes<T>(s: State<T>, cap: nat, a: Action<T>, n: nat)
    requires |s.store| > 0 && n > 0
    ensures Run(s, cap, Times(a, n)) == Run(Next(s, cap, a), cap, Times(a, n - 1))
  {
  }

  /** Undisturbed, six steps queue an element. */
  lemma {:induction false} Queued<T>(s: State<T>, cap: nat, v: T)
    requires s.writeIndex < |s.store| && s.producer.Waiting? && s.count < cap
    ensures Run(s, cap, Times(Produce(v), 6)) ==
            s.(store := s.store[s.writeIndex := v], produced := s.produced + [v],
               writeIndex := (s.writeIndex + 1) % |s.store|, count := s.count + 1)
  {
    var a := Produce(v);
    var s1 := Next(s, cap, a);
    var s2 := Next(s1, cap, a);
    var s3 := Next(s2, cap, a);
    var s4 := Next(s3, cap, a);
    var s5 := Next(s4, cap, a);
    RunTimes(s, cap, a, 6);
    RunTimes(s1, cap, a, 5);
    RunTimes(s2, cap, a, 4);
    RunTimes(s3, cap, a, 3);
    RunTimes(s4, cap, a, 2);
    RunTimes(s5, cap, a, 1);
  }

  /** Three steps write one. */
  lemma {:induction false} Overwritten<T>(s: State<T>, cap: nat, v: T)
    requires s.writeIndex < |s.store| && s.producer.Waiting? && s.count < cap
    ensures Run(s, cap, Times(Produce(v), 3)) ==
            s.(store := s.store[s.writeIndex := v], produced := s.produced + [v], producer := Written)
  {
    var a := Produce(v);
    var s1 := Next(s, cap, a);
    RunTimes(s, cap, a, 3);
    RunTimes(s1, cap, a, 2);
    RunTimes(Next(s1, cap, a), cap, a, 1);
  }

  /** Seven steps read an element and give its slot back. */
  lemma {:induction false} Dequeued<T>(s: State<T>, cap: nat)
    requires s.readIndex < |s.store| && s.consumer.Polling? && s.count > 0
    ensures var v := s.store[s.readIndex];
            Run(s, cap, Times(Consume, 7)) ==
            s.(consumer := Released(s.readIndex, v), consumed := s.consumed + [v],
               readIndex := (s.readIndex + 1) % |s.store|, count := s.count - 1)
  {
  }

  /** A ring with k elements queued, of which the first one is in slot 0, and nothing read. */
  ghost predicate Holds(s: State<nat>, size: nat, k: nat) {
    && |s.store| == size > 0 && s.count == k && s.writeIndex == SlotOf(k, size) && s.readIndex == 0
    && s.producer.Waiting? && s.consumer.Polling?
    && |s.produced| == k && s.consumed == [] && s.copied == []
    && (k > 0 ==> s.produced[0] == 0 && s.store[0] == 0)
  }

  lemma {:induction false} Filled(store: seq<nat>, cap: nat, k: nat) returns (actions: seq<Action<nat>>)
    requires k <= |store| && 0 < |store| <= cap
    ensures Holds(Run(Start(store), cap, actions), |store|, k)
  {
    if k == 0 {
      actions := [];
    } else {
      var before := Filled(store, cap, k - 1);
      var s := Run(Start(store), cap, before);
      hide Run;
      Queued(s, cap, k - 1);
      SlotNext(k - 1, |store|);
      SlotAfter(0, k - 1, |store|);
      RunConcat(Start(store), cap, before, Times(Produce(k - 1), 6));
      actions := before + Times(Produce(k - 1), 6);
    }
  }

  lemma {:induction false} RunThree<T>(s: State<T>, cap: nat, a: seq<Action<T>>, b: seq<Action<T>>, c: seq<Action<T>>)
    requires |s.store| > 0
    ensures Run(s, cap, a + b + c) == Run(Run(Run(s, cap, a), cap, b), cap, c)
  {
    RunConcat(s, cap, a + b, c);
    RunConcat(s, cap, a, b);
  }

  lemma {:induction false} FullRing(store: seq<nat>, cap: nat) returns (actions: seq<Action<nat>>, s: State<nat>)
    requires 0 < |store| <= cap
    ensures s == Run(Start(store), cap, actions) && Holds(s, |store|, |store|) && s.writeIndex == 0
  {
    actions := Filled(store, cap, |store|);
    s := Run(Start(store), cap, actions);
    SlotAfter(0, |store| - 1, |store|);
  }

  /** When the ring may fill up completely, the copy can be a later element. */
  lemma {:induction false} CopyOverwritten(store: seq<nat>, cap: nat) returns (actions: seq<Action<nat>>)
    requires 0 < |store| <= cap
    ensures !CopiesOk(Run(Start(store), cap, actions))
  {
    hide Run, Times;
    var fill, s := FullRing(store, cap);
    var read, write := Times(Consume, 7), Times(Produce(7), 3);
    Dequeued(s, cap);
    var s1 := Run(s, cap, read);
    Overwritten(s1, cap, 7);
    RunThree(Start(store), cap, fill, read, write);
    actions := fill + read + write + [Consume];
    RunConcat(Start(store), cap, fill + read + write, [Consume]);
    LastStep(Run(s1, cap, write), cap, Consume);
    var t := Run(Start(store), cap, actions);
    assert t.consumed == [0] && t.copied == [7];
    assert t.consumed[..1][0] != t.copied[0];
  }

  lemma {:induction false} LastStep<T>(s: State<T>, cap: nat, a: Action<T>)
    requires |s.store| > 0
    ensures Run(s, cap, [a]) == Next(s, cap, a)
  {
  }

  /** A producer that may queue more elements than there are slots loses one. */
  lemma {:induction false} Overrun(store: seq<nat>, cap: nat) returns (actions: seq<Action<nat>>)
    requires 0 < |store| < cap
    ensures !InOrder(Run(Start(store), cap, actions))
  {
    hide Run, Times;
    var fill, s := FullRing(store, cap);
    var write, read := Times(Produce(7), 6), Times(Consume, 7);
    Queued(s, cap, 7);
    Dequeued(Run(s, cap, write), cap);
    actions := fill + write + read;
    RunThree(Start(store), cap, fill, write, read);
    var t := Run(Start(store), cap, actions);
    assert t.consumed == [7] && t.consumed[0] != t.produced[..1][0];
  }

  /** A ring keeps the order of its elements under every interleaving exactly when no more are queued than fit. */
  lemma {:induction false} OrderExact(store: seq<nat>, cap: nat)
    requires |store| > 0
    ensures cap <= |store| <==> forall actions :: InOrder(Run(Start(store), cap, actions))
  {
    hide Run, InOrder;
    if cap <= |store| {
      forall actions
        ensures InOrder(Run(Start(store), cap, actions))
      {
        Fifo(store, cap, actions);
      }
    } else {
      var actions := Overrun(store, cap);
    }
  }

  /** The late copy is right under every interleaving exactly when one slot stays free. */
  lemma {:induction false} CopyExact(store: seq<nat>, cap: nat)
    requires |store| > 0
    ensures cap < |store| <==> forall actions :: CopiesOk(Run(Start(store), cap, actions))
  {
    hide Run, CopiesOk;
    if cap < |store| {
      forall actions
        ensures CopiesOk(Run(Start(store), cap, actions))
      {
        CopyAfterRelease(store, cap, actions);
      }
    } else {
      var actions := CopyOverwritten(store, cap);
    }
  }
}
