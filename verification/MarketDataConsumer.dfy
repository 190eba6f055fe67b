/** The market data consumer: its queues, its loops over them, and the callback that drives them. */
module MarketDataConsumer {
  import opened Types
  import opened Recovery

  // ----- iterating over an ordered map -----

  /** The keys in the order an ordered map yields them. */
  function Ascending(s: set<nat>): (ks: seq<nat>)
    ensures |ks| == |s| && forall k :: k in ks <==> k in s
    decreases |s|
  {
    if s == {} then [] else [Lowest(s)] + Ascending(s - {Lowest(s)})
  }

  lemma {:induction false} AscendingSorted(s: set<nat>)
    ensures forall i, j :: 0 <= i < j < |Ascending(s)| ==> Ascending(s)[i] < Ascending(s)[j]
    decreases |s|
  {
    if s != {} {
      var rest := s - {Lowest(s)};
      AscendingSorted(rest);
      var ks := Ascending(rest);
      assert Ascending(s) == [Lowest(s)] + ks;
      hide Ascending;
      forall i | 0 <= i < |ks|
        ensures Lowest(s) < ks[i]
      {
        assert ks[i] in rest;
      }
    }
  }

  /** Distinct naturals in ascending order are at least their positions, and leave room for those after them. */
  lemma {:induction false} Spread(ks: seq<nat>, i: nat)
    requires (forall i, j :: 0 <= i < j < |ks| ==> ks[i] < ks[j]) && i < |ks|
    ensures i <= ks[i]
    ensures ks[i] + (|ks| - 1 - i) <= ks[|ks| - 1]
  {
    if i > 0 {
      Spread(ks[..i], i - 1);
    }
    if i < |ks| - 1 {
      Spread(ks[1..], i);
    }
  }

  lemma GaplessIs(q: Queued)
    ensures Gapless(q) <==> forall i :: 0 <= i < |Ascending(q.Keys)| ==> Ascending(q.Keys)[i] == i
  {
    hide Ascending;
    var ks := Ascending(q.Keys);
    AscendingSorted(q.Keys);
    assert |ks| == |q|;
    if Gapless(q) {
      forall i | 0 <= i < |q|
        ensures ks[i] == i
      {
        Spread(ks, i);
        assert ks[|q| - 1] in q;
      }
    } else {
      var k :| k in q && !(k < |q|);
      assert k in ks;
      var i :| 0 <= i < |ks| && ks[i] == k;
      assert Ascending(q.Keys)[i] != i;
    }
  }

  lemma {:induction false} ReachIs(q: Queued, n: nat, m: nat)
    requires n <= m && Has(q, n, m) && m !in q
    ensures Reach(q, n) == m
    decreases m - n
  {
  }

  lemma {:induction false} EmptySlice(q: Queued, n: nat)
    ensures Has(q, n, n) && Payload(Slice(q, n, n)) == []
  {
  }

  lemma HasMore(q: Queued, n: nat, m: nat)
    requires Has(q, n, m) && m in q
    ensures Has(q, n, m + 1)
  {
  }

  lemma SliceGrows(q: Queued, n: nat, m: nat)
    requires Has(q, n, m + 1) && n <= m
    ensures Has(q, n, m) && Payload(Slice(q, n, m + 1)) ==
              Payload(Slice(q, n, m)) + (if IsBound(q[m]) then [] else [q[m]])
  {
    SliceIs(q, n, m);
    SliceIs(q, n, m + 1);
    assert Slice(q, n, m + 1) == Slice(q, n, m) + [q[m]];
    PayloadConcat(Slice(q, n, m), [q[m]]);
    assert [q[m]][1..] == [];
  }

  class MarketDataConsumer {
    var nextExpIncSeqNum: nat
    var isInRecovery: bool
    var snapshotQueuedMsgs: Queued
    var incrementalQueuedMsgs: Queued

    /** Updates passed on to the trading engine. */
    var incomingMdUpdates: seq<Update>

    function View(): Consumer
      reads this
    {
      Consumer(nextExpIncSeqNum, isInRecovery, snapshotQueuedMsgs, incrementalQueuedMsgs, incomingMdUpdates)
    }

    constructor ()
      ensures View() == NEW_CONSUMER
    {
      nextExpIncSeqNum, isInRecovery := 1, false;
      snapshotQueuedMsgs, incrementalQueuedMsgs := map[], map[];
      incomingMdUpdates := [];
    }

    method StartSnapshotSync()
      modifies this`snapshotQueuedMsgs, this`incrementalQueuedMsgs
      ensures snapshotQueuedMsgs == map[] && incrementalQueuedMsgs == map[]
    {
      snapshotQueuedMsgs := map[];
      incrementalQueuedMsgs := map[];
    }

    /** Scan the queued snapshot messages in order; stop at the first hole. */
    method ScanSnapshot() returns (complete: bool, finalEvents: seq<Update>)
      ensures complete <==> Gapless(snapshotQueuedMsgs)
      ensures complete ==> finalEvents == Payload(Messages(snapshotQueuedMsgs))
    {
      hide Ascending, Slice, Payload, Gapless, Has;
      var q := snapshotQueuedMsgs;
      EmptySlice(q, 0);
      var keys := Ascending(q.Keys);
      AscendingSorted(q.Keys);
      GaplessIs(q);
      finalEvents := [];
      var nextSnapshotSeq: nat := 0;
      while nextSnapshotSeq < |keys|
        invariant nextSnapshotSeq <= |keys|
        invariant forall i :: 0 <= i < nextSnapshotSeq ==> keys[i] == i
        invariant Has(q, 0, nextSnapshotSeq) && finalEvents == Payload(Slice(q, 0, nextSnapshotSeq))
      {
        var k := keys[nextSnapshotSeq];
        if k != nextSnapshotSeq {
          assert Ascending(q.Keys)[nextSnapshotSeq] != nextSnapshotSeq;
          return false, finalEvents;
        }
        HasMore(q, 0, k);
        SliceGrows(q, 0, k);
        if !IsBound(q[k]) {
          finalEvents := finalEvents + [q[k]];
        }
        nextSnapshotSeq := nextSnapshotSeq + 1;
      }
      complete := true;
    }

    /** Scan the queued incrementals in order from the next expected one; stop at the first hole. */
    method ScanIncrementals(events: seq<Update>) returns (complete: bool, finalEvents: seq<Update>)
      modifies this`nextExpIncSeqNum
      ensures var first := old(nextExpIncSeqNum); var next := Reach(incrementalQueuedMsgs, first);
              && nextExpIncSeqNum == next
              && (complete <==> !QueuedBeyond(incrementalQueuedMsgs, next))
              && finalEvents == events + Payload(Slice(incrementalQueuedMsgs, first, next))
    {
      hide Ascending, Slice, Payload, Has, Reach, QueuedBeyond;
      var q := incrementalQueuedMsgs;
      EmptySlice(q, nextExpIncSeqNum);
      var keys := Ascending(q.Keys);
      AscendingSorted(q.Keys);
      ghost var first := nextExpIncSeqNum;
      finalEvents := events;
      complete := true;
      var i := 0;
      while i < |keys|
        invariant 0 <= i <= |keys| && first <= nextExpIncSeqNum
        invariant forall j :: 0 <= j < i ==> keys[j] < nextExpIncSeqNum
        invariant Has(q, first, nextExpIncSeqNum)
        invariant finalEvents == events + Payload(Slice(q, first, nextExpIncSeqNum))
      {
        var k := keys[i];
        i := i + 1;
        if k >= nextExpIncSeqNum {
          if k != nextExpIncSeqNum {
            NotQueued(q, keys, i - 1, nextExpIncSeqNum);
            ReachIs(q, first, nextExpIncSeqNum);
            return false, finalEvents;
          }
          HasMore(q, first, k);
          SliceGrows(q, first, k);
          if !IsBound(q[k]) {
            finalEvents := finalEvents + [q[k]];
          }
          nextExpIncSeqNum := nextExpIncSeqNum + 1;
        }
      }
      NotQueued(q, keys, i, nextExpIncSeqNum);
      ReachIs(q, first, nextExpIncSeqNum);
    }

    method CheckSnapshotSync()
      modifies this
      ensures View() == CheckSync(old(View()))
    {
      hide Payload, Messages, Slice, Gapless, Reach, Has, QueuedBeyond;
      if snapshotQueuedMsgs == map[] {
        return;
      }
      var lowest := Lowest(snapshotQueuedMsgs.Keys);
      if snapshotQueuedMsgs[lowest].kind != SNAPSHOT_START {
        snapshotQueuedMsgs := map[];
        return;
      }
      var haveCompleteSnapshot, finalEvents := ScanSnapshot();
      if !haveCompleteSnapshot {
        snapshotQueuedMsgs := map[];
        return;
      }
      KeysBelow(snapshotQueuedMsgs);
      var lastMsg := snapshotQueuedMsgs[|snapshotQueuedMsgs| - 1];
      if lastMsg.kind != SNAPSHOT_END {
        return;
      }
      nextExpIncSeqNum := lastMsg.orderId + 1;
      var haveCompleteIncremental;
      haveCompleteIncremental, finalEvents := ScanIncrementals(finalEvents);
      if !haveCompleteIncremental {
        snapshotQueuedMsgs := map[];
        return;
      }
      incomingMdUpdates := incomingMdUpdates + finalEvents;
      snapshotQueuedMsgs, incrementalQueuedMsgs := map[], map[];
      isInRecovery := false;
    }

    method QueueMessage(isSnapshot: bool, request: Frame)
      modifies this
      ensures View() == CheckSync(Enqueue(old(View()), isSnapshot, request))
    {
      if isSnapshot {
        if request.seqNum in snapshotQueuedMsgs {
          snapshotQueuedMsgs := map[];
        }
        snapshotQueuedMsgs := snapshotQueuedMsgs[request.seqNum := request.update];
      } else {
        incrementalQueuedMsgs := incrementalQueuedMsgs[request.seqNum := request.update];
      }
      CheckSnapshotSync();
    }

    /**
     * Process what one read of a socket delivered. Outside recovery, snapshot data is dropped, incrementals in order
     * are passed on one by one, and the first one out of order starts a recovery with it and the rest of the read
     * queued. In recovery, incrementals are queued for as long as no whole snapshot is.
     */
    method RecvCallback(isSnapshot: bool, requests: seq<Frame>)
      modifies this
      ensures View() == Receive(old(View()), isSnapshot, requests)
      ensures isSnapshot && !old(isInRecovery) ==> View() == old(View())
      ensures !isSnapshot && !old(isInRecovery) && Consecutive(requests, old(nextExpIncSeqNum)) ==>
                && !isInRecovery
                && nextExpIncSeqNum == old(nextExpIncSeqNum) + |requests|
                && incomingMdUpdates == old(incomingMdUpdates) + Carried(requests)
                && snapshotQueuedMsgs == old(snapshotQueuedMsgs)
                && incrementalQueuedMsgs == old(incrementalQueuedMsgs)
      ensures !isSnapshot && !old(isInRecovery) ==>
                forall j :: 0 <= j < |requests| && Consecutive(requests[..j], old(nextExpIncSeqNum))
                            && requests[j].seqNum != old(nextExpIncSeqNum) + j ==>
                  && isInRecovery
                  && nextExpIncSeqNum == old(nextExpIncSeqNum) + j
                  && incomingMdUpdates == old(incomingMdUpdates) + Carried(requests[..j])
                  && snapshotQueuedMsgs == map[] && incrementalQueuedMsgs == Filed(map[], requests[j..])
      ensures !isSnapshot && old(isInRecovery) && Idle(old(snapshotQueuedMsgs)) ==>
                && isInRecovery
                && nextExpIncSeqNum == old(nextExpIncSeqNum)
                && incomingMdUpdates == old(incomingMdUpdates)
                && snapshotQueuedMsgs == old(snapshotQueuedMsgs)
                && incrementalQueuedMsgs == Filed(old(incrementalQueuedMsgs), requests)
    {
      if isSnapshot && !isInRecovery {
        return;
      }
      if !isSnapshot {
        ReadMeans(View(), requests);
      }
      var i := 0;
      while i < |requests|
        invariant 0 <= i <= |requests|
        invariant StepAll(View(), isSnapshot, requests[i..]) == StepAll(old(View()), isSnapshot, requests)
      {
        var request := requests[i];
        assert requests[i..][1..] == requests[i + 1..];
        var alreadyInRecovery := isInRecovery;
        isInRecovery := alreadyInRecovery || request.seqNum != nextExpIncSeqNum;
        if isInRecovery {
          if !alreadyInRecovery {
            StartSnapshotSync();
          }
          QueueMessage(isSnapshot, request);
        } else if !isSnapshot {
          nextExpIncSeqNum := nextExpIncSeqNum + 1;
          incomingMdUpdates := incomingMdUpdates + [request.update];
        }
        i := i + 1;
      }
    }
  }

  /** What a read of incrementals comes to. */
  lemma {:induction false} ReadMeans(c: Consumer, fs: seq<Frame>)
    ensures !c.inRecovery && Consecutive(fs, c.nextExp) ==>
              StepAll(c, false, fs) == c.(nextExp := c.nextExp + |fs|, emitted := c.emitted + Carried(fs))
    ensures !c.inRecovery ==>
              forall j :: 0 <= j < |fs| && Consecutive(fs[..j], c.nextExp) && fs[j].seqNum != c.nextExp + j ==>
                StepAll(c, false, fs) ==
                Consumer(c.nextExp + j, true, map[], Filed(map[], fs[j..]), c.emitted + Carried(fs[..j]))
    ensures c.inRecovery && Idle(c.snaps) ==> StepAll(c, false, fs) == c.(incs := Filed(c.incs, fs))
  {
    hide StepAll, Consecutive, Idle;
    if c.inRecovery {
      if Idle(c.snaps) {
        FiledSteps(c, fs);
      }
    } else {
      if Consecutive(fs, c.nextExp) {
        InOrderSteps(c, fs);
      }
      forall j | 0 <= j < |fs| && Consecutive(fs[..j], c.nextExp) && fs[j].seqNum != c.nextExp + j
        ensures StepAll(c, false, fs) ==
                Consumer(c.nextExp + j, true, map[], Filed(map[], fs[j..]), c.emitted + Carried(fs[..j]))
      {
        BrokenSteps(c, fs, j);
      }
    }
  }

  lemma NotQueued(q: Queued, keys: seq<nat>, i: nat, n: nat)
    requires keys == Ascending(q.Keys) && i <= |keys|
    requires forall j, k :: 0 <= j < k < |keys| ==> keys[j] < keys[k]
    requires forall j :: 0 <= j < i ==> keys[j] < n
    requires i < |keys| ==> n < keys[i]
    ensures n !in q && (QueuedBeyond(q, n) <==> i < |keys|)
  {
    hide Ascending;
    assert n in q ==> n in keys;
    if i < |keys| {
      assert keys[i] in q;
    } else {
      assert forall k :: k in q ==> k in keys;
    }
  }
}
