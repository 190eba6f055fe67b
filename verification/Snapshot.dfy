/**
 * Snapshots: the synthesizer's record of all resting orders, the messages it publishes from it, and the theorem that
 * replaying a snapshot gives the books that replaying the whole history gives.
 */
module Snapshot {
  import opened Types
  import opened Sequences
  import opened OrderQueue
  import opened Matching
  import opened Replication
  import opened MarketStream

  // ----- replicas of a well-formed stream -----

  ghost predicate PublicOrder(o: Order) {
    o.owner == Anonymous && o.id < ME_MAX_ORDER_IDS && o.qty > 0
  }

  ghost predicate AllPublic(q: seq<Order>) {
    forall i :: 0 <= i < |q| ==> PublicOrder(q[i])
  }

  ghost predicate ReplicaOk(b: Book) {
    && Queue(BUY, b.bids) && Queue(SELL, b.asks) && IdsUnique(b)
    && AllPublic(b.bids) && AllPublic(b.asks)
  }

  lemma {:induction false} RemoveById(q: seq<Order>, id: nat)
    requires IdsDistinct(q)
    ensures || (Remove(q, id) == q && forall i :: 0 <= i < |q| ==> q[i].id != id)
            || exists k :: 0 <= k < |q| && q[k].id == id && Remove(q, id) == RemoveAt(q, k)
  {
    if k :| 0 <= k < |q| && q[k].id == id {
      RemoveIs(q, k);
    } else {
      RemoveAbsent(q, id);
    }
  }

  lemma {:induction false} RemoveSide(side: Side, q: seq<Order>, id: nat, other: seq<Order>)
    requires Queue(side, q) && IdsDistinct(q) && AllPublic(q) && IdsApart(q, other)
    ensures var r := Remove(q, id);
            && Queue(side, r) && IdsDistinct(r) && AllPublic(r) && IdsApart(r, other)
            && forall o :: o in r <==> o in q && o.id != id
  {
    RemoveById(q, id);
    if k :| 0 <= k < |q| && q[k].id == id && Remove(q, id) == RemoveAt(q, k) {
      RemoveQueue(side, q, k);
      forall o
        ensures o in RemoveAt(q, k) <==> o in q && o.id != id
      {
        if o in q && o != q[k] {
          var i :| 0 <= i < |q| && q[i] == o;
          assert q[i].id != q[k].id;
        }
      }
    }
  }

  lemma SetQtySide(side: Side, q: seq<Order>, id: nat, n: nat, other: seq<Order>)
    requires Queue(side, q) && IdsDistinct(q) && AllPublic(q) && IdsApart(q, other) && n > 0
    ensures var r := SetQty(q, id, n);
            Queue(side, r) && IdsDistinct(r) && AllPublic(r) && IdsApart(r, other)
  {
  }

  lemma InsertSide(side: Side, q: seq<Order>, o: Order, other: seq<Order>)
    requires Queue(side, q) && IdsDistinct(q) && AllPublic(q) && IdsApart(q, other)
    requires o.side == side && PublicOrder(o)
    requires forall i :: 0 <= i < |q| ==> q[i].id < o.id
    requires forall i :: 0 <= i < |other| ==> other[i].id < o.id
    requires forall i :: 0 <= i < |q| && q[i].price == o.price ==> q[i].priority < o.priority
    ensures var r := Insert(side, q, o);
            && Queue(side, r) && IdsDistinct(r) && AllPublic(r) && IdsApart(r, other)
            && forall x :: x in r <==> x == o || x in q
  {
    InsertQueue(side, q, o);
    var k, r := Rank(side, q, o.price), Insert(side, q, o);
    forall i | 0 <= i < |r|
      ensures PublicOrder(r[i])
    {
      assert i != k ==> PublicOrder(q[if i < k then i else i - 1]);
    }
  }

  lemma AddSide(b: Book, u: Update)
    requires ReplicaOk(b) && Follows(b, u) && u.kind == ADD
    ensures ReplicaOk(Apply(b, u))
    ensures forall o :: o in Apply(b, u).Queue(u.side) <==> o == OrderOf(u) || o in b.Queue(u.side)
  {
    hide Insert, Queue, IdsDistinct, AllPublic, IdsApart;
    var q, other := b.Queue(u.side), b.Queue(Opposite(u.side));
    Flip(b.bids, b.asks);
    InsertSide(u.side, q, OrderOf(u), other);
    Flip(Insert(u.side, q, OrderOf(u)), other);
  }

  lemma ApplyKeeps(b: Book, u: Update)
    requires ReplicaOk(b) && Follows(b, u)
    ensures ReplicaOk(Apply(b, u))
  {
    match u.kind {
      case ADD =>
        AddSide(b, u);
      case MODIFY =>
        SetQtySide(BUY, b.bids, u.orderId, u.qty, b.asks);
        Flip(SetQty(b.bids, u.orderId, u.qty), b.asks);
        SetQtySide(SELL, b.asks, u.orderId, u.qty, SetQty(b.bids, u.orderId, u.qty));
        Flip(SetQty(b.asks, u.orderId, u.qty), SetQty(b.bids, u.orderId, u.qty));
      case CANCEL =>
        RemoveSide(BUY, b.bids, u.orderId, b.asks);
        Flip(Remove(b.bids, u.orderId), b.asks);
        RemoveSide(SELL, b.asks, u.orderId, Remove(b.bids, u.orderId));
        Flip(Remove(b.asks, u.orderId), Remove(b.bids, u.orderId));
      case _ =>
    }
  }

  lemma Flip(a: seq<Order>, b: seq<Order>)
    requires IdsApart(a, b)
    ensures IdsApart(b, a)
  {
  }

  // ----- the synthesizer's record -----

  /** Every resting order of every instrument, as the update that would add it. */
  type Record = map<(nat, nat), Update>

  function Key(u: Update): (nat, nat) {
    (u.tickerId, u.orderId)
  }

  function Note(m: Record, u: Update): Record {
    match u.kind
    case ADD => m[Key(u) := u]
    case MODIFY => if Key(u) in m then m[Key(u) := m[Key(u)].(qty := u.qty, price := u.price)] else m
    case CANCEL => m - {Key(u)}
    case _ => m
  }

  function NoteAll(m: Record, us: seq<Update>): Record
    decreases |us|
  {
    if us == [] then m else NoteAll(Note(m, us[0]), us[1..])
  }

  ghost predicate Entry(m: Record, t: nat, id: nat)
    requires (t, id) in m
  {
    var u := m[(t, id)];
    u.kind == ADD && u.tickerId == t && u.orderId == id && id < ME_MAX_ORDER_IDS && (u.side == BUY || u.side == SELL)
  }

  ghost predicate Recorded(m: Record, t: nat, o: Order) {
    (t, o.id) in m && OrderOf(m[(t, o.id)]) == o
  }

  /** The record holds exactly the orders of instrument t's book. */
  ghost predicate Mirrors(m: Record, t: nat, b: Book) {
    && (forall id :: (t, id) in m ==> Entry(m, t, id) && OrderOf(m[(t, id)]) in b.Queue(m[(t, id)].side))
    && (forall i :: 0 <= i < |b.bids| ==> Recorded(m, t, b.bids[i]))
    && (forall i :: 0 <= i < |b.asks| ==> Recorded(m, t, b.asks[i]))
  }

  lemma NoteOther(m: Record, t: nat, b: Book, u: Update)
    requires Mirrors(m, t, b) && u.tickerId != t
    ensures Mirrors(Note(m, u), t, b)
  {
  }

  lemma NoteAdd(m: Record, b: Book, u: Update)
    requires Mirrors(m, u.tickerId, b) && ReplicaOk(b) && Follows(b, u) && u.kind == ADD
    ensures Mirrors(Note(m, u), u.tickerId, Apply(b, u))
  {
    var t, n, c := u.tickerId, Note(m, u), Apply(b, u);
    AddSide(b, u);
    forall id | (t, id) in n
      ensures Entry(n, t, id) && OrderOf(n[(t, id)]) in c.Queue(n[(t, id)].side)
    {
      if id != u.orderId {
        assert Entry(m, t, id) && n[(t, id)] == m[(t, id)];
      }
    }
    forall o | o in c.bids || o in c.asks
      ensures Recorded(n, t, o)
    {
      if o != OrderOf(u) {
        InBook(m, t, b, o);
        assert o.id < u.orderId;
      }
    }
    AllRecorded(n, t, c);
  }

  lemma InBook(m: Record, t: nat, b: Book, o: Order)
    requires Mirrors(m, t, b) && (o in b.bids || o in b.asks)
    ensures Recorded(m, t, o)
  {
  }

  lemma AllRecorded(m: Record, t: nat, b: Book)
    requires forall o :: o in b.bids || o in b.asks ==> Recorded(m, t, o)
    ensures forall i :: 0 <= i < |b.bids| ==> Recorded(m, t, b.bids[i])
    ensures forall i :: 0 <= i < |b.asks| ==> Recorded(m, t, b.asks[i])
  {
  }

  lemma NoteModify(m: Record, b: Book, u: Update)
    requires Mirrors(m, u.tickerId, b) && ReplicaOk(b) && Follows(b, u) && u.kind == MODIFY
    ensures Mirrors(Note(m, u), u.tickerId, Apply(b, u))
  {
    hide IdsDistinct, IdsApart, AllPublic, Queue;
    var t, n, c := u.tickerId, Note(m, u), Apply(b, u);
    var k :| 0 <= k < |b.Queue(u.side)| && b.Queue(u.side)[k].id == u.orderId && b.Queue(u.side)[k].price == u.price;
    assert Recorded(m, t, b.Queue(u.side)[k]);
    forall id | (t, id) in n
      ensures Entry(n, t, id) && OrderOf(n[(t, id)]) in c.Queue(n[(t, id)].side)
    {
      assert Entry(m, t, id);
      var o := OrderOf(m[(t, id)]);
      var i :| 0 <= i < |b.Queue(o.side)| && b.Queue(o.side)[i] == o;
      assert c.Queue(o.side)[i] == OrderOf(n[(t, id)]);
    }
    forall i | 0 <= i < |c.bids|
      ensures Recorded(n, t, c.bids[i])
    {
      assert Recorded(m, t, b.bids[i]);
    }
    forall i | 0 <= i < |c.asks|
      ensures Recorded(n, t, c.asks[i])
    {
      assert Recorded(m, t, b.asks[i]);
    }
  }

  lemma NoteCancel(m: Record, b: Book, u: Update)
    requires Mirrors(m, u.tickerId, b) && ReplicaOk(b) && Follows(b, u) && u.kind == UpdateType.CANCEL
    ensures Mirrors(Note(m, u), u.tickerId, Apply(b, u))
  {
    var t, n, c := u.tickerId, Note(m, u), Apply(b, u);
    RemoveSide(BUY, b.bids, u.orderId, b.asks);
    Flip(b.bids, b.asks);
    RemoveSide(SELL, b.asks, u.orderId, b.bids);
    forall id | (t, id) in n
      ensures Entry(n, t, id) && OrderOf(n[(t, id)]) in c.Queue(n[(t, id)].side)
    {
      assert Entry(m, t, id) && n[(t, id)] == m[(t, id)];
    }
    forall o | o in c.bids || o in c.asks
      ensures Recorded(n, t, o)
    {
      InBook(m, t, b, o);
    }
    AllRecorded(n, t, c);
  }

  /** All instruments' books are well formed and recorded. */
  ghost predicate MirrorsAll(m: Record, bs: Books) {
    && (forall t, id :: (t, id) in m ==> t < |bs|)
    && forall t :: 0 <= t < |bs| ==> ReplicaOk(bs[t]) && Mirrors(m, t, bs[t])
  }

  lemma NoteKeeps(m: Record, bs: Books, u: Update)
    requires MirrorsAll(m, bs) && FollowsIn(bs, u)
    ensures MirrorsAll(Note(m, u), ApplyTo(bs, u))
  {
    hide Mirrors, ReplicaOk, Follows, Apply;
    var n, cs := Note(m, u), ApplyTo(bs, u);
    forall t | 0 <= t < |cs|
      ensures ReplicaOk(cs[t]) && Mirrors(n, t, cs[t])
    {
      if t != u.tickerId {
        NoteOther(m, t, bs[t], u);
      } else {
        ApplyKeeps(bs[t], u);
        NoteOwn(m, bs[t], u);
      }
    }
  }

  lemma NoteOwn(m: Record, b: Book, u: Update)
    requires Mirrors(m, u.tickerId, b) && ReplicaOk(b) && Follows(b, u)
    ensures Mirrors(Note(m, u), u.tickerId, Apply(b, u))
  {
    hide Mirrors, ReplicaOk;
    match u.kind {
      case ADD => NoteAdd(m, b, u);
      case MODIFY => NoteModify(m, b, u);
      case CANCEL => NoteCancel(m, b, u);
      case _ =>
    }
  }

  /** Folding a well-formed stream into the record and into the books keeps the two in step. */
  lemma {:induction false} HistoryMirrored(m: Record, bs: Books, us: seq<Update>)
    requires MirrorsAll(m, bs) && Stream(bs, us)
    ensures MirrorsAll(NoteAll(m, us), Fold(bs, us))
    decreases |us|
  {
    if us != [] {
      NoteKeeps(m, bs, us[0]);
      HistoryMirrored(Note(m, us[0]), ApplyTo(bs, us[0]), us[1..]);
    }
  }

  lemma NothingMirrored()
    ensures MirrorsAll(map[], EmptyBooks())
  {
  }

  // ----- the published messages -----

  /** The recorded orders of instrument t with ids below n, by ascending id. */
  function OrdersUpTo(m: Record, t: nat, n: nat): seq<Update> {
    if n == 0 then [] else OrdersUpTo(m, t, n - 1) + (if (t, n - 1) in m then [m[(t, n - 1)]] else [])
  }

  function ClearOf(t: nat): Update {
    Update(CLEAR, ORDER_ID_INVALID, t, INVALID_SIDE, PRICE_INVALID, QTY_INVALID, PRIORITY_INVALID)
  }

  /** The first k instruments: each cleared, then refilled. */
  function BodyUpTo(m: Record, k: nat): seq<Update> {
    if k == 0 then [] else BodyUpTo(m, k - 1) + [ClearOf(k - 1)] + OrdersUpTo(m, k - 1, ME_MAX_ORDER_IDS)
  }

  /** The message at either end of a cycle; its order id is the last incremental the cycle reflects. */
  function Bound(kind: UpdateType, last: nat): Update {
    Update(kind, last, TICKER_ID_INVALID, INVALID_SIDE, PRICE_INVALID, QTY_INVALID, PRIORITY_INVALID)
  }

  function Cycle(m: Record, last: nat): seq<Update> {
    [Bound(SNAPSHOT_START, last)] + BodyUpTo(m, ME_MAX_TICKERS) + [Bound(SNAPSHOT_END, last)]
  }

  // ----- a snapshot equals the history -----

  /** The orders of a side with ids below n, in a queue. */
  ghost predicate Rebuilt(side: Side, q: seq<Order>, r: seq<Order>, n: nat) {
    Queue(side, r) && forall o :: o in r <==> o in q && o.id < n
  }

  lemma {:induction false} Replay(m: Record, t: nat, b: Book, n: nat)
    requires Mirrors(m, t, b) && ReplicaOk(b)
    ensures var r := ApplyAll(EMPTY_BOOK, OrdersUpTo(m, t, n));
            Rebuilt(BUY, b.bids, r.bids, n) && Rebuilt(SELL, b.asks, r.asks, n)
  {
    hide Mirrors, ReplicaOk, Rebuilt, Apply;
    if n == 0 {
      NothingRebuilt(BUY, b.bids);
      NothingRebuilt(SELL, b.asks);
    } else {
      Replay(m, t, b, n - 1);
      var r := ApplyAll(EMPTY_BOOK, OrdersUpTo(m, t, n - 1));
      if (t, n - 1) in m {
        var u := m[(t, n - 1)];
        ApplyConcat(EMPTY_BOOK, OrdersUpTo(m, t, n - 1), [u]);
        ApplyOne(r, u);
        ReplayOrder(m, t, b, r, n - 1);
      } else {
        assert OrdersUpTo(m, t, n) == OrdersUpTo(m, t, n - 1);
        SkipId(m, t, b, BUY, r.bids, n - 1);
        SkipId(m, t, b, SELL, r.asks, n - 1);
      }
    }
  }

  lemma NothingRebuilt(side: Side, q: seq<Order>)
    ensures Rebuilt(side, q, [], 0)
  {
  }

  lemma SkipId(m: Record, t: nat, b: Book, side: Side, r: seq<Order>, id: nat)
    requires Mirrors(m, t, b) && (t, id) !in m && (side == BUY || side == SELL)
    requires Rebuilt(side, b.Queue(side), r, id)
    ensures Rebuilt(side, b.Queue(side), r, id + 1)
  {
  }

  lemma ReplayOrder(m: Record, t: nat, b: Book, r: Book, id: nat)
    requires Mirrors(m, t, b) && ReplicaOk(b) && (t, id) in m
    requires Rebuilt(BUY, b.bids, r.bids, id) && Rebuilt(SELL, b.asks, r.asks, id)
    ensures var c := Apply(r, m[(t, id)]);
            Rebuilt(BUY, b.bids, c.bids, id + 1) && Rebuilt(SELL, b.asks, c.asks, id + 1)
  {
    assert Entry(m, t, id);
    var u := m[(t, id)];
    var o := OrderOf(u);
    var q, other := b.Queue(u.side), Opposite(u.side);
    OnlyOne(m, t, b, u.side, o);
    RebuildSide(u.side, q, r.Queue(u.side), o);
    forall x | x in b.Queue(other)
      ensures x.id != id
    {
      InBook(m, t, b, x);
    }
  }

  /** An order of the book is the only one with its id. */
  lemma OnlyOne(m: Record, t: nat, b: Book, side: Side, o: Order)
    requires Mirrors(m, t, b) && (side == BUY || side == SELL) && o in b.Queue(side)
    ensures forall x :: x in b.bids || x in b.asks ==> (x.id == o.id <==> x == o)
  {
  }

  lemma RebuildSide(side: Side, q: seq<Order>, r: seq<Order>, o: Order)
    requires Queue(side, q) && o in q && Rebuilt(side, q, r, o.id) && o.side == side
    requires forall x :: x in q ==> (x.id == o.id <==> x == o)
    ensures Rebuilt(side, q, Insert(side, r, o), o.id + 1)
  {
  }

  /** One instrument: clearing and re-adding the recorded orders, in id order, rebuilds the book exactly. */
  lemma {:induction false} ReplayTicker(m: Record, t: nat, b: Book)
    requires Mirrors(m, t, b) && ReplicaOk(b)
    ensures ApplyAll(EMPTY_BOOK, OrdersUpTo(m, t, ME_MAX_ORDER_IDS)) == b
  {
    Replay(m, t, b, ME_MAX_ORDER_IDS);
    var r := ApplyAll(EMPTY_BOOK, OrdersUpTo(m, t, ME_MAX_ORDER_IDS));
    WholeSide(BUY, b.bids, r.bids);
    WholeSide(SELL, b.asks, r.asks);
  }

  lemma WholeSide(side: Side, q: seq<Order>, r: seq<Order>)
    requires Queue(side, q) && AllPublic(q) && Rebuilt(side, q, r, ME_MAX_ORDER_IDS)
    ensures r == q
  {
    forall o | o in q
      ensures o.id < ME_MAX_ORDER_IDS
    {
      var i :| 0 <= i < |q| && q[i] == o;
      assert PublicOrder(q[i]);
    }
    QueueUnique(side, r, q);
  }

  lemma {:induction false} OrdersTicker(m: Record, t: nat, n: nat)
    requires forall id :: (t, id) in m ==> Entry(m, t, id)
    ensures OfTicker(OrdersUpTo(m, t, n), t)
  {
    if n > 0 {
      OrdersTicker(m, t, n - 1);
      assert (t, n - 1) in m ==> Entry(m, t, n - 1);
    }
  }

  /** From any books whatever, the body of a snapshot leads to the recorded books. */
  lemma {:induction false} ReplayBody(m: Record, from: Books, bs: Books, k: nat)
    requires MirrorsAll(m, bs) && |from| == |bs| && k <= |bs|
    ensures forall t :: 0 <= t < |bs| ==> Fold(from, BodyUpTo(m, k))[t] == if t < k then bs[t] else from[t]
  {
    if k > 0 {
      var t := k - 1;
      ReplayBody(m, from, bs, t);
      assert ReplicaOk(bs[t]) && Mirrors(m, t, bs[t]);
      hide Mirrors, ReplicaOk, MirrorsAll;
      var mid := Fold(from, BodyUpTo(m, t));
      var orders := OrdersUpTo(m, t, ME_MAX_ORDER_IDS);
      ReplayOne(m, mid, t, bs[t]);
      hide Fold, OrdersUpTo;
      assert BodyUpTo(m, k) == BodyUpTo(m, t) + ([ClearOf(t)] + orders);
      FoldConcat(from, BodyUpTo(m, t), [ClearOf(t)] + orders);
    }
  }

  lemma {:induction false} ReplayOne(m: Record, from: Books, t: nat, b: Book)
    requires t < |from| && ReplicaOk(b) && Mirrors(m, t, b)
    ensures Fold(from, [ClearOf(t)] + OrdersUpTo(m, t, ME_MAX_ORDER_IDS)) == from[t := b]
  {
    var orders := OrdersUpTo(m, t, ME_MAX_ORDER_IDS);
    ReplayTicker(m, t, b);
    OrdersTicker(m, t, ME_MAX_ORDER_IDS);
    hide Mirrors, ReplicaOk, OrdersUpTo;
    var cleared := ApplyTo(from, ClearOf(t));
    assert ([ClearOf(t)] + orders)[1..] == orders;
    FoldOne(cleared, t, orders);
  }

  /** The record of a history. */
  function RecordOf(us: seq<Update>): Record {
    NoteAll(map[], us)
  }

  /**
   * Snapshot equals history: for every stream the exchange can send, replaying the snapshot taken after it from any
   * books gives the same books, down to each level's queue, as replaying the stream from empty books.
   */
  lemma {:induction false} SnapshotIsHistory(us: seq<Update>, from: Books)
    requires Stream(EmptyBooks(), us) && |from| == ME_MAX_TICKERS
    ensures Fold(from, BodyUpTo(RecordOf(us), ME_MAX_TICKERS)) == Fold(EmptyBooks(), us)
  {
    NothingMirrored();
    HistoryMirrored(map[], EmptyBooks(), us);
    ReplayBody(RecordOf(us), from, Fold(EmptyBooks(), us), ME_MAX_TICKERS);
  }
}
