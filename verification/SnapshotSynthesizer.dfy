/** The snapshot synthesizer on its pool and per-instrument arrays. */
module SnapshotSynthesizer {
  import opened Types
  import opened Sequences
  import opened Pools
  import opened MarketStream
  import opened Snapshot

  /** What the synthesizer's assertions demand of the next incremental update. */
  ghost predicate Expected(m: Record, u: Update) {
    && u.tickerId < ME_MAX_TICKERS
    && (u.kind == ADD || u.kind == MODIFY || u.kind == UpdateType.CANCEL ==> u.orderId < ME_MAX_ORDER_IDS)
    && (u.kind == ADD ==> Key(u) !in m)
    && (u.kind == MODIFY || u.kind == UpdateType.CANCEL ==>
          Key(u) in m && m[Key(u)].orderId == u.orderId && m[Key(u)].side == u.side)
  }

  /** On the exchange's own stream none of the synthesizer's assertions can fail. */
  lemma AssertionsHold(m: Record, bs: Books, u: Update)
    requires MirrorsAll(m, bs) && |bs| == ME_MAX_TICKERS && FollowsIn(bs, u)
    ensures Expected(m, u)
  {
  }

  /** Over the whole of any stream the exchange can send, every update is one the assertions expect. */
  lemma {:induction false} AssertionsNeverFire(us: seq<Update>, n: nat)
    requires Stream(EmptyBooks(), us) && n < |us|
    ensures Expected(RecordOf(us[..n]), us[n])
  {
    hide Expected, MirrorsAll;
    FoldLast(EmptyBooks(), us, n);
    NothingMirrored();
    HistoryMirrored(map[], EmptyBooks(), us[..n]);
    AssertionsHold(RecordOf(us[..n]), Fold(EmptyBooks(), us[..n]), us[n]);
  }

  /** As many blocks in use as orders recorded. */
  ghost predicate Paired(live: set<Ptr>, m: Record) {
    |live| == |m|
  }

  lemma NewEntry(m: Record, u: Update)
    requires Expected(m, u) && u.kind == ADD
    ensures u.tickerId < ME_MAX_TICKERS && u.orderId < ME_MAX_ORDER_IDS && Key(u) !in m && Note(m, u) == m[Key(u) := u]
  {
  }

  lemma Room(live: set<Ptr>, m: Record)
    requires Paired(live, m) && |m| + 1 < ME_MAX_ORDER_IDS
    ensures |live| + 1 < ME_MAX_ORDER_IDS
  {
  }

  lemma PairedAdd(live: set<Ptr>, m: Record, p: Ptr, u: Update)
    requires Paired(live, m) && p !in live && Key(u) !in m
    ensures Paired(live + {p}, m[Key(u) := u])
  {
  }

  lemma PairedModify(live: set<Ptr>, m: Record, u: Update, v: Update)
    requires Paired(live, m) && Key(u) in m
    ensures Paired(live, m[Key(u) := v])
  {
    assert m[Key(u) := v].Keys == m.Keys;
  }

  lemma PairedCancel(live: set<Ptr>, m: Record, p: Ptr, u: Update)
    requires Paired(live, m) && p in live && Key(u) in m
    ensures Paired(live - {p}, m - {Key(u)})
  {
    assert (m - {Key(u)}).Keys == m.Keys - {Key(u)};
  }

  lemma {:induction false} NoteAllConcat(m: Record, us: seq<Update>, vs: seq<Update>)
    ensures NoteAll(m, us + vs) == NoteAll(NoteAll(m, us), vs)
    decreases |us|
  {
    if us == [] {
      assert us + vs == vs;
    } else {
      assert (us + vs)[1..] == us[1..] + vs;
      NoteAllConcat(Note(m, us[0]), us[1..], vs);
    }
  }

  lemma {:induction false} RecordLast(us: seq<Update>, n: nat)
    requires n < |us|
    ensures RecordOf(us[..n + 1]) == Note(RecordOf(us[..n]), us[n])
  {
    assert us[..n + 1] == us[..n] + [us[n]];
    NoteAllConcat(map[], us[..n], [us[n]]);
    assert [us[n]][1..] == [];
  }

  class SnapshotSynthesizer {
    const tickerOrders: array2<Ptr>
    const orderPool: MemoryPool<Update>
    var lastIncSeqNum: nat

    /** What went to the snapshot multicast stream. */
    var sent: seq<Frame>

    /** The orders the arrays point at. */
    ghost var recorded: Record

    ghost predicate Valid()
      reads this`recorded, tickerOrders, orderPool, orderPool.store
    {
      && tickerOrders.Length0 == ME_MAX_TICKERS && tickerOrders.Length1 == ME_MAX_ORDER_IDS
      && orderPool.Valid() && |orderPool.objs| == ME_MAX_ORDER_IDS && Paired(orderPool.live, recorded)
      && (forall k :: k in recorded ==> k.0 < ME_MAX_TICKERS && k.1 < ME_MAX_ORDER_IDS)
      && (forall t: nat, id: nat :: t < ME_MAX_TICKERS && id < ME_MAX_ORDER_IDS ==> SlotOk(t, id))
    }

    /** A slot of the array is null if nothing is recorded there, and points at the block with the record otherwise. */
    ghost predicate SlotOk(t: nat, id: nat)
      requires tickerOrders.Length0 == ME_MAX_TICKERS && tickerOrders.Length1 == ME_MAX_ORDER_IDS
      requires t < ME_MAX_TICKERS && id < ME_MAX_ORDER_IDS
      reads this`recorded, tickerOrders, orderPool
    {
      var p := tickerOrders[t, id];
      if p == NULL then (t, id) !in recorded
      else
        && (t, id) in recorded && Key(recorded[(t, id)]) == (t, id)
        && p in orderPool.live && 0 <= p < |orderPool.objs| && orderPool.objs[p] == recorded[(t, id)]
    }

    constructor ()
      ensures Valid() && recorded == map[] && lastIncSeqNum == 0 && sent == []
    {
      tickerOrders := new Ptr[ME_MAX_TICKERS, ME_MAX_ORDER_IDS]((_, _) => NULL);
      orderPool := new MemoryPool(ME_MAX_ORDER_IDS, ClearOf(TICKER_ID_INVALID));
      lastIncSeqNum := 0;
      sent := [];
      recorded := map[];
    }

    /** Process one incremental update. */
    method AddToSnapshot(frame: Frame)
      requires Valid() && Expected(recorded, frame.update) && frame.seqNum == lastIncSeqNum + 1
      requires frame.update.kind == ADD ==> |recorded| + 1 < ME_MAX_ORDER_IDS
      modifies this`lastIncSeqNum, this`recorded, tickerOrders, orderPool, orderPool.store
      ensures Valid()
      ensures recorded == Note(old(recorded), frame.update)
      ensures lastIncSeqNum == frame.seqNum
    {
      hide MemoryPool.Valid, SlotOk, Expected, Paired;
      var u := frame.update;
      match u.kind {
        case ADD => AddEntry(u);
        case MODIFY => ModifyEntry(u);
        case CANCEL => CancelEntry(u);
        case _ =>
      }
      lastIncSeqNum := frame.seqNum;
    }

    /** Take the next frames of the exchange's stream: no assertion fails, and the record is that of the stream. */
    method TakeAll(frames: seq<Frame>, ghost history: seq<Update>, ghost us: seq<Update>)
      requires Valid() && recorded == RecordOf(history) && lastIncSeqNum == |history|
      requires Stream(EmptyBooks(), history + us) && frames == Numbered(|history| + 1, us)
      requires forall n :: 0 <= n < |us| && us[n].kind == ADD ==> |RecordOf(history + us[..n])| + 1 < ME_MAX_ORDER_IDS
      modifies this`lastIncSeqNum, this`recorded, tickerOrders, orderPool, orderPool.store
      ensures Valid()
      ensures recorded == RecordOf(history + us) && lastIncSeqNum == |history| + |us|
    {
      hide MemoryPool.Valid, SlotOk, Stream, Expected, Note, Paired;
      assert history + us[..0] == history;
      for n := 0 to |frames|
        invariant Valid() && recorded == RecordOf(history + us[..n]) && lastIncSeqNum == |history| + n
      {
        ghost var all, k := history + us, |history| + n;
        assert all[..k] == history + us[..n] && all[..k + 1] == history + us[..n + 1] && all[k] == us[n];
        AssertionsNeverFire(all, k);
        RecordLast(all, k);
        AddToSnapshot(frames[n]);
      }
      assert us[..|us|] == us;
    }

    method AddEntry(u: Update)
      requires Valid() && Expected(recorded, u) && u.kind == ADD && |recorded| + 1 < ME_MAX_ORDER_IDS
      modifies this`recorded, tickerOrders, orderPool, orderPool.store
      ensures Valid()
      ensures recorded == Note(old(recorded), u)
    {
      NewEntry(recorded, u);
      hide Paired, Expected, Note;
      assert SlotOk(u.tickerId, u.orderId);
      Room(orderPool.live, recorded);
      PairedAdd(orderPool.live, recorded, orderPool.nextFreeIndex, u);
      var p := orderPool.Allocate(u);
      tickerOrders[u.tickerId, u.orderId] := p;
      recorded := recorded[(u.tickerId, u.orderId) := u];
      forall t: nat, id: nat | t < ME_MAX_TICKERS && id < ME_MAX_ORDER_IDS
        ensures SlotOk(t, id)
      {
        assert old(SlotOk(t, id));
      }
    }

    method ModifyEntry(u: Update)
      requires Valid() && Expected(recorded, u) && u.kind == MODIFY
      modifies this`recorded, orderPool`objs, orderPool.store
      ensures Valid()
      ensures recorded == Note(old(recorded), u)
    {
      hide MemoryPool.Tied, Paired;
      var p := tickerOrders[u.tickerId, u.orderId];
      assert SlotOk(u.tickerId, u.orderId);
      PairedModify(orderPool.live, recorded, u, recorded[Key(u)].(qty := u.qty, price := u.price));
      orderPool.Put(p, orderPool.Get(p).(qty := u.qty));
      orderPool.Put(p, orderPool.Get(p).(price := u.price));
      recorded := recorded[(u.tickerId, u.orderId) := recorded[(u.tickerId, u.orderId)].(qty := u.qty,
          price := u.price)];
      forall t: nat, id: nat | t < ME_MAX_TICKERS && id < ME_MAX_ORDER_IDS
        ensures SlotOk(t, id)
      {
        assert old(SlotOk(t, id));
      }
    }

    method CancelEntry(u: Update)
      requires Valid() && Expected(recorded, u) && u.kind == UpdateType.CANCEL
      modifies this`recorded, tickerOrders, orderPool`live, orderPool.store
      ensures Valid()
      ensures recorded == Note(old(recorded), u)
    {
      hide MemoryPool.Tied, Paired;
      var p := tickerOrders[u.tickerId, u.orderId];
      assert SlotOk(u.tickerId, u.orderId);
      PairedCancel(orderPool.live, recorded, p, u);
      orderPool.Deallocate(p);
      tickerOrders[u.tickerId, u.orderId] := NULL;
      recorded := recorded - {(u.tickerId, u.orderId)};
      forall t: nat, id: nat | t < ME_MAX_TICKERS && id < ME_MAX_ORDER_IDS
        ensures SlotOk(t, id)
      {
        assert old(SlotOk(t, id));
      }
    }

    method Send(seqNum: nat, u: Update)
      modifies this`sent
      ensures sent == old(sent) + [Frame(seqNum, u)]
    {
      sent := sent + [Frame(seqNum, u)];
    }

    /** Publish a full snapshot cycle. */
    method PublishSnapshot()
      requires Valid()
      modifies this`sent
      ensures Valid()
      ensures sent == old(sent) + Numbered(0, Cycle(recorded, lastIncSeqNum))
    {
      hide Numbered, BodyUpTo, OrdersUpTo, ClearOf, Bound, MemoryPool.Valid, SlotOk;
      ghost var before, start, end := sent, [Bound(SNAPSHOT_START, lastIncSeqNum)],
          [Bound(SNAPSHOT_END, lastIncSeqNum)];
      var snapshotSize := 0;
      Send(snapshotSize, Bound(SNAPSHOT_START, lastIncSeqNum));
      snapshotSize := snapshotSize + 1;
      NumberedOne(0, start[0]);
      NoBody(start, recorded);
      ghost var done := start;
      for tickerId := 0 to ME_MAX_TICKERS
        invariant Valid() && done == start + BodyUpTo(recorded, tickerId)
        invariant snapshotSize == |done| && sent == before + Numbered(0, done)
      {
        ghost var orders := OrdersUpTo(recorded, tickerId, ME_MAX_ORDER_IDS);
        snapshotSize := PublishTicker(tickerId, snapshotSize);
        ghost var more := [ClearOf(tickerId)] + orders;
        NumberedConcat(0, done, more);
        ConcatAssoc(before, Numbered(0, done), Numbered(|done|, more));
        BodyStep(start, recorded, tickerId);
        done := done + more;
      }
      Send(snapshotSize, Bound(SNAPSHOT_END, lastIncSeqNum));
      NumberedConcat(0, done, end);
      NumberedOne(|done|, end[0]);
      ConcatAssoc(before, Numbered(0, done), Numbered(|done|, end));
    }

    /** Publish one instrument: a clear, then every recorded order by ascending id. */
    method PublishTicker(tickerId: nat, snapshotSize: nat) returns (size: nat)
      requires Valid() && tickerId < ME_MAX_TICKERS
      modifies this`sent
      ensures var us := [ClearOf(tickerId)] + OrdersUpTo(recorded, tickerId, ME_MAX_ORDER_IDS);
              size == snapshotSize + |us| && sent == old(sent) + Numbered(snapshotSize, us)
    {
      hide MemoryPool.Tied, Paired;
      size := snapshotSize;
      Send(size, ClearOf(tickerId));
      size := size + 1;
      ghost var done := [ClearOf(tickerId)];
      for id := 0 to ME_MAX_ORDER_IDS
        invariant done == [ClearOf(tickerId)] + OrdersUpTo(recorded, tickerId, id)
        invariant size == snapshotSize + |done| && sent == old(sent) + Numbered(snapshotSize, done)
      {
        assert SlotOk(tickerId, id);
        var order := tickerOrders[tickerId, id];
        ghost var more := if (tickerId, id) in recorded then [recorded[(tickerId, id)]] else [];
        NumberedConcat(snapshotSize, done, more);
        if order != NULL {
          Send(size, orderPool.Get(order));
          size := size + 1;
        }
        done := done + more;
      }
    }
  }

  lemma NumberedOne(n: nat, u: Update)
    ensures Numbered(n, [u]) == [Frame(n, u)]
  {
  }

  lemma {:induction false} NoBody(start: seq<Update>, m: Record)
    ensures start + BodyUpTo(m, 0) == start
  {
  }

  lemma BodyStep(start: seq<Update>, m: Record, t: nat)
    ensures start + BodyUpTo(m, t + 1) == start + BodyUpTo(m, t) + ([ClearOf(t)] + OrdersUpTo(m, t, ME_MAX_ORDER_IDS))
  {
  }
}
