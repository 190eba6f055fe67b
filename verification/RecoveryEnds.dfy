/** Recovery does end: one whole snapshot cycle is enough exactly when the queued incrementals continue it. */
module RecoveryEnds {
  import opened Types
  import opened MarketStream
  import opened Snapshot
  import opened Recovery
  import opened RecoveryTheorem

  /** Exactly the first k messages of a cycle are queued. */
  ghost predicate Prefix(q: Queued, cycle: seq<Update>, k: nat) {
    && k <= |cycle| && |q| == k
    && (forall i :: 0 <= i < k ==> i in q && q[i] == cycle[i]) && (forall i :: i in q ==> i < k)
  }

  /** The ends of a cycle are where they should be, and there are no others. */
  ghost predicate Bounded(cycle: seq<Update>) {
    && |cycle| >= 2 && cycle[0].kind == SNAPSHOT_START
    && forall k :: 0 <= k < |cycle| ==> (cycle[k].kind == SNAPSHOT_END <==> k == |cycle| - 1)
  }

  lemma {:induction false} CycleBounded(history: seq<Update>, s: nat)
    requires Stream(EmptyBooks(), history) && s <= |history|
    ensures |CycleOf(history, s)| >= 2 && Bounded(CycleOf(history, s))
    ensures CycleOf(history, s)[|CycleOf(history, s)| - 1].orderId == s
  {
    CycleShape(history, s);
    hide *;
    Ends(CycleOf(history, s), s);
  }

  lemma Ends(c: seq<Update>, s: nat)
    requires |c| >= 2 && c[0] == Bound(SNAPSHOT_START, s) && c[|c| - 1] == Bound(SNAPSHOT_END, s)
    requires forall k :: 0 < k < |c| - 1 ==> !IsBound(c[k])
    ensures Bounded(c) && c[|c| - 1].orderId == s
  {
    forall k | 0 <= k < |c|
      ensures c[k].kind == SNAPSHOT_END <==> k == |c| - 1
    {
      assert 0 < k < |c| - 1 ==> !IsBound(c[k]);
    }
  }

  lemma PrefixMeans(q: Queued, cycle: seq<Update>, k: nat)
    requires Bounded(cycle) && Prefix(q, cycle, k) && k > 0
    ensures q != map[] && Gapless(q) && (Complete(q) <==> k == |cycle|) && q[Lowest(q.Keys)].kind == SNAPSHOT_START
  {
    assert 0 in q.Keys && IsLowest(q.Keys, Lowest(q.Keys));
    hide Lowest;
  }

  lemma NextNotQueued(q: Queued, cycle: seq<Update>, k: nat)
    requires Prefix(q, cycle, k) && k < |cycle|
    ensures k !in q
  {
  }

  lemma PrefixStep(q: Queued, cycle: seq<Update>, k: nat)
    requires Prefix(q, cycle, k) && k < |cycle|
    ensures Prefix(q[k := cycle[k]], cycle, k + 1)
  {
  }

  lemma PrefixGrows(q: Queued, cycle: seq<Update>, k: nat)
    requires Bounded(cycle) && Prefix(q, cycle, k) && k < |cycle|
    ensures var q' := q[k := cycle[k]];
            && Prefix(q', cycle, k + 1) && k !in q && q' != map[] && Gapless(q') && (Complete(q') <==> k + 1 == |cycle|)
            && q'[Lowest(q'.Keys)].kind == SNAPSHOT_START
  {
    hide Prefix, Bounded, Complete, Gapless, Lowest;
    NextNotQueued(q, cycle, k);
    PrefixStep(q, cycle, k);
    PrefixMeans(q[k := cycle[k]], cycle, k + 1);
  }

  /** The first message of a cycle starts the queue over, whatever it held. */
  lemma Restart(c: Consumer, src: Origins, cycle: seq<Update>)
    requires c.inRecovery && Waiting(c.snaps, src) && Bounded(cycle)
    ensures Step(c, true, Frame(0, cycle[0])) == Step(c.(snaps := map[]), true, Frame(0, cycle[0]))
  {
    hide CheckSync;
    assert Enqueue(c, true, Frame(0, cycle[0])) == Enqueue(c.(snaps := map[]), true, Frame(0, cycle[0]));
  }

  lemma {:induction false} RestartAll(c: Consumer, src: Origins, cycle: seq<Update>)
    requires c.inRecovery && Waiting(c.snaps, src) && Bounded(cycle)
    ensures StepAll(c, true, Numbered(0, cycle)) == StepAll(c.(snaps := map[]), true, Numbered(0, cycle))
  {
    Restart(c, src, cycle);
    hide Step, Waiting;
    assert Numbered(0, cycle)[0] == Frame(0, cycle[0]);
  }

  /** Until its last message, a cycle is only queued. */
  lemma Collects(c: Consumer, cycle: seq<Update>, k: nat)
    requires c.inRecovery && Bounded(cycle) && Prefix(c.snaps, cycle, k) && k + 1 < |cycle|
    ensures var c' := CheckSync(Enqueue(c, true, Frame(k, cycle[k])));
            c' == c.(snaps := c.snaps[k := cycle[k]]) && Prefix(c'.snaps, cycle, k + 1)
  {
    hide Prefix, Bounded, Complete, Gapless;
    PrefixGrows(c.snaps, cycle, k);
    NextNotQueued(c.snaps, cycle, k);
  }

  lemma {:induction false} AllButLast(c: Consumer, cycle: seq<Update>, k: nat) returns (d: Consumer)
    requires c.inRecovery && Bounded(cycle) && Prefix(c.snaps, cycle, k) && k < |cycle|
    ensures d == c.(snaps := d.snaps) && Prefix(d.snaps, cycle, |cycle| - 1)
    ensures StepAll(c, true, Numbered(k, cycle[k..])) == Step(d, true, Frame(|cycle| - 1, cycle[|cycle| - 1]))
    decreases |cycle| - k
  {
    hide Prefix, Bounded, CheckSync, Enqueue;
    var fs := Numbered(k, cycle[k..]);
    assert fs[0] == Frame(k, cycle[k]);
    if k + 1 == |cycle| {
      d := c;
      assert fs[1..] == [];
      assert StepAll(Step(c, true, fs[0]), true, []) == Step(c, true, fs[0]);
    } else {
      Collects(c, cycle, k);
      assert fs[1..] == Numbered(k + 1, cycle[k + 1..]);
      d := AllButLast(Step(c, true, fs[0]), cycle, k + 1);
    }
  }

  /** What the message that completes the snapshot queue does. */
  lemma Completes(c: Consumer, k: nat, u: Update, q: Queued)
    requires c.inRecovery && k !in c.snaps && q == c.snaps[k := u]
    requires Complete(q) && q[Lowest(q.Keys)].kind == SNAPSHOT_START
    ensures var first := FirstAfter(q); var next := Reach(c.incs, first);
            Step(c, true, Frame(k, u)) ==
            if QueuedBeyond(c.incs, next) then c.(nextExp := next, snaps := map[])
            else Consumer(next, false, map[], map[],
                c.emitted + Payload(Messages(q)) + Payload(Slice(c.incs, first, next)))
  {
    hide FirstAfter, Payload, Messages, Slice, QueuedBeyond;
  }

  /** What a completed cycle, all of one origin, means to the consumer. */
  lemma {:induction false} CompletedCycle(history: seq<Update>, c: Consumer, s: nat)
    requires Stream(EmptyBooks(), history) && IncsOk(history, c.incs) && c.inRecovery && s <= |history|
    requires Prefix(c.snaps, CycleOf(history, s), |CycleOf(history, s)| - 1)
    ensures var cycle, next := CycleOf(history, s), Reach(c.incs, s + 1);
            && |cycle| > 0
            && var d := Step(c, true, Frame(|cycle| - 1, cycle[|cycle| - 1]));
            && d.nextExp == next
            && (d.inRecovery <==> QueuedBeyond(c.incs, next))
            && (!d.inRecovery ==> InStep(history, d))
  {
    hide Stream, CycleOf, InStep, IncsOk, Step, Reach, Payload, Messages, Slice, QueuedBeyond;
    var cycle := CycleOf(history, s);
    var k := |cycle| - 1;
    CycleBounded(history, s);
    PrefixGrows(c.snaps, cycle, k);
    var q := c.snaps[k := cycle[k]];
    var src: Origins := map i | i in q :: s;
    SameCycle(history, q, src, s);
    LastIs(q, cycle, s);
    hide Complete, Gapless, Prefix, Bounded, Traced, Spans, Torn;
    Completes(c, k, cycle[k], q);
    OneCycleUntorn(history, q, src, s);
    SyncCatchesUp(history, c.(snaps := q), src, s);
  }

  lemma LastIs(q: Queued, cycle: seq<Update>, s: nat)
    requires Complete(q) && Prefix(q, cycle, |cycle|) && cycle[|cycle| - 1].orderId == s
    ensures FirstAfter(q) == s + 1
  {
  }

  lemma SameCycle(history: seq<Update>, q: Queued, src: Origins, s: nat)
    requires s <= |history| && |CycleOf(history, s)| > 0 && Prefix(q, CycleOf(history, s), |CycleOf(history, s)|)
    requires src == map i | i in q :: s
    ensures Traced(history, q, src, s) && Spans(q, src)
  {
    hide CycleOf;
    forall i | i in q
      ensures FromCycle(history, q, src, s, i)
    {
    }
  }

  lemma Known(history: seq<Update>, c: Consumer, src: Origins, last: nat)
    requires Inv(history, c, src, last)
    ensures IncsOk(history, c.incs) && Waiting(c.snaps, src)
  {
  }

  lemma NothingQueued(cycle: seq<Update>)
    ensures Prefix(map[], cycle, 0)
  {
  }

  /**
   * Whatever a recovering consumer has queued, one whole cycle in order makes it count everything up to the first
   * missing incremental after the cycle, and ends the recovery exactly when nothing is queued beyond that; and then
   * its output is in step with the exchange.
   */
  lemma {:induction false} CycleEndsRecovery(history: seq<Update>, c: Consumer, src: Origins, last: nat, s: nat)
    requires Stream(EmptyBooks(), history) && Inv(history, c, src, last) && c.inRecovery && s <= |history|
    ensures var next := Reach(c.incs, s + 1); var d := StepAll(c, true, Numbered(0, CycleOf(history, s)));
            && d.nextExp == next
            && (d.inRecovery <==> QueuedBeyond(c.incs, next))
            && (!d.inRecovery ==> InStep(history, d))
  {
    hide *;
    var cycle := CycleOf(history, s);
    CycleBounded(history, s);
    Known(history, c, src, last);
    RestartAll(c, src, cycle);
    NothingQueued(cycle);
    assert cycle[0..] == cycle;
    var d := AllButLast(c.(snaps := map[]), cycle, 0);
    CompletedCycle(history, d, s);
  }
}
