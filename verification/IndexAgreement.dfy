/**
 * The order book whose client-order index is a map of maps. Its list code is that of the array book; what differs is
 * the test a cancel makes before it looks an order up, and that looking up inserts.
 */
module IndexAgreement {
  import opened Types
  import opened Sequences
  import opened OrderQueue
  import opened Matching
  import opened Guarantees

  /** From client to client order id to market order id; a cleared entry stays in the map without a value. */
  type Index = map<nat, map<nat, Option<nat>>>

  function Entry(ix: Index, c: nat, oid: nat): Option<nat> {
    if c in ix && oid in ix[c] then ix[c][oid] else None
  }

  function Put(ix: Index, c: nat, oid: nat, v: Option<nat>): Index {
    var entries: map<nat, Option<nat>> := if c in ix then ix[c] else map[];
    ix[c := entries[oid := v]]
  }

  /** Reading through the map's brackets makes the entry. */
  function Touch(ix: Index, c: nat, oid: nat): Index {
    Put(ix, c, oid, Entry(ix, c, oid))
  }

  function DropAll(ix: Index, gone: seq<Order>): Index
    decreases |gone|
  {
    if gone == [] then ix else DropAll(Put(ix, ClientOf(gone[0]), ClientOrderOf(gone[0]), None), gone[1..])
  }

  datatype MapExchange = MapExchange(exch: Exchange, index: Index)

  datatype MapResult = MapResult(next: MapExchange, responses: seq<Response>, updates: seq<Update>)

  // ----- requests -----

  /** The orders a new order trades away completely. */
  function Gone(m: Exchange, t: nat, c: nat, oid: nat, side: Side, price: int, qty: nat): seq<Order> {
    var q := m.book.Queue(Opposite(side));
    var left := |MatchNew(m, t, c, oid, side, price, qty).queue|;
    q[..if left <= |q| then |q| - left else 0]
  }

  function MapAddOrder(m: MapExchange, t: nat, c: nat, oid: nat, side: Side, price: int, qty: nat): MapResult {
    var r := AddOrder(m.exch, t, c, oid, side, price, qty);
    var ix := DropAll(m.index, Gone(m.exch, t, c, oid, side, price, qty));
    var rests := MatchNew(m.exch, t, c, oid, side, price, qty).leaves > 0;
    MapResult(MapExchange(r.next, if rests then Put(ix, c, oid, Some(m.exch.nextId)) else ix), r.responses, r.updates)
  }

  function IdAt(q: seq<Order>, id: nat): (k: nat)
    ensures k <= |q|
    ensures k < |q| ==> q[k].id == id
    ensures forall i :: 0 <= i < k ==> q[i].id != id
  {
    if q == [] || q[0].id == id then 0 else 1 + IdAt(q[1..], id)
  }

  function Rejected(m: MapExchange, t: nat, c: nat, oid: nat): MapResult {
    MapResult(m, [Response(CANCEL_REJECTED, c, t, oid, ORDER_ID_INVALID, INVALID_SIDE, PRICE_INVALID, QTY_INVALID,
        QTY_INVALID)], [])
  }

  /** Take out the order with this market id. */
  function MapRemove(m: MapExchange, t: nat, c: nat, oid: nat, side: Side, id: nat): MapResult
    requires IdAt(m.exch.book.Queue(side), id) < |m.exch.book.Queue(side)|
  {
    var q := m.exch.book.Queue(side);
    var k := IdAt(q, id);
    var o := q[k];
    MapResult(MapExchange(m.exch.(book := m.exch.book.With(side, RemoveAt(q, k))), Put(m.index, c, oid, None)),
              [Response(CANCELED, c, t, oid, o.id, o.side, o.price, QTY_INVALID, o.qty)],
              [Update(UpdateType.CANCEL, o.id, t, o.side, o.price, 0, o.priority)])
  }

  /** The cancel test compares the client id with the number of clients in the map. */
  function MapCancelOrder(m: MapExchange, t: nat, c: nat, oid: nat): MapResult {
    if c >= |m.index| then Rejected(m, t, c, oid)
    else
      var touched := m.(index := Touch(m.index, c, oid));
      match Entry(touched.index, c, oid)
      case None => Rejected(touched, t, c, oid)
      case Some(id) =>
        if IdAt(m.exch.book.bids, id) < |m.exch.book.bids| then MapRemove(touched, t, c, oid, BUY, id)
        else if IdAt(m.exch.book.asks, id) < |m.exch.book.asks| then MapRemove(touched, t, c, oid, SELL, id)
        else Rejected(touched, t, c, oid)
  }

  function MapProcess(m: MapExchange, t: nat, r: Request): MapResult {
    match r
    case New(c, oid, side, price, qty) => MapAddOrder(m, t, c, oid, side, price, qty)
    case Cancel(c, oid) => MapCancelOrder(m, t, c, oid)
  }

  function MapSession(m: MapExchange, t: nat, rs: seq<Request>): MapResult
    decreases |rs|
  {
    if rs == [] then MapResult(m, [], [])
    else
      var first := MapProcess(m, t, rs[0]);
      var rest := MapSession(first.next, t, rs[1..]);
      MapResult(rest.next, first.responses + rest.responses, first.updates + rest.updates)
  }

  // ----- the index names the resting orders -----

  ghost predicate InQueue(q: seq<Order>, c: nat, oid: nat, id: nat) {
    exists i :: 0 <= i < |q| && q[i].owner == Owner(c, oid) && q[i].id == id
  }

  ghost predicate Live(b: Book, c: nat, oid: nat, id: nat) {
    InQueue(b.bids, c, oid, id) || InQueue(b.asks, c, oid, id)
  }

  ghost predicate Names(ix: Index, b: Book) {
    forall c: nat, oid: nat, id: nat :: Entry(ix, c, oid) == Some(id) <==> Live(b, c, oid, id)
  }

  lemma EntryPut(ix: Index, c: nat, oid: nat, v: Option<nat>)
    ensures forall d, o :: Entry(Put(ix, c, oid, v), d, o) == if d == c && o == oid then v else Entry(ix, d, o)
    ensures Put(ix, c, oid, v).Keys == ix.Keys + {c}
  {
  }

  ghost predicate OwnedIn(q: seq<Order>, c: nat, oid: nat) {
    exists i :: 0 <= i < |q| && q[i].owner == Owner(c, oid)
  }

  lemma {:induction false} EntryDropAll(ix: Index, gone: seq<Order>)
    requires forall i :: 0 <= i < |gone| ==> gone[i].owner.Owner?
    ensures forall c, oid :: Entry(DropAll(ix, gone), c, oid) ==
              if OwnedIn(gone, c, oid) then None else Entry(ix, c, oid)
    ensures forall c :: c in DropAll(ix, gone) <==>
              c in ix || exists i :: 0 <= i < |gone| && gone[i].owner.clientId == c
    decreases |gone|
  {
    if gone != [] {
      var c0, o0 := ClientOf(gone[0]), ClientOrderOf(gone[0]);
      var next := Put(ix, c0, o0, None);
      EntryPut(ix, c0, o0, None);
      EntryDropAll(next, gone[1..]);
      hide Entry, Put, DropAll;
      forall c, oid
        ensures OwnedIn(gone, c, oid) <==> (c == c0 && oid == o0) || OwnedIn(gone[1..], c, oid)
      {
        OwnedFirst(gone, c, oid);
      }
      assert DropAll(ix, gone) == DropAll(next, gone[1..]) by {
        DropFirst(ix, gone);
      }
      forall c
        ensures c in DropAll(ix, gone) <==> c in ix || exists i :: 0 <= i < |gone| && gone[i].owner.clientId == c
      {
        ClientFirst(gone, c);
      }
    }
  }

  lemma {:induction false} DropFirst(ix: Index, gone: seq<Order>)
    requires gone != []
    ensures DropAll(ix, gone) == DropAll(Put(ix, ClientOf(gone[0]), ClientOrderOf(gone[0]), None), gone[1..])
  {
  }

  lemma OwnedFirst(gone: seq<Order>, c: nat, oid: nat)
    requires gone != [] && gone[0].owner.Owner?
    ensures OwnedIn(gone, c, oid) <==> gone[0].owner == Owner(c, oid) || OwnedIn(gone[1..], c, oid)
  {
  }

  lemma ClientFirst(gone: seq<Order>, c: nat)
    requires gone != [] && forall i :: 0 <= i < |gone| ==> gone[i].owner.Owner?
    ensures (exists i :: 0 <= i < |gone| && gone[i].owner.clientId == c) <==>
            gone[0].owner.clientId == c || exists i :: 0 <= i < |gone[1..]| && gone[1..][i].owner.clientId == c
  {
    if i :| 0 <= i < |gone[1..]| && gone[1..][i].owner.clientId == c {
      assert gone[i + 1].owner.clientId == c;
    }
    if i :| 0 < i < |gone| && gone[i].owner.clientId == c {
      assert gone[1..][i - 1].owner.clientId == c;
    }
  }

  // ----- new orders -----

  /** Losing its first orders, the queue loses exactly their owners. */
  lemma ShrunkOwners(q: seq<Order>, q': seq<Order>, g: nat, c: nat, oid: nat, id: nat)
    requires Shrunk(q, q', g) && Distinct(q)
    ensures InQueue(q', c, oid, id) <==> InQueue(q, c, oid, id) && !OwnedIn(q[..g], c, oid)
  {
    if InQueue(q', c, oid, id) {
      var j :| 0 <= j < |q'| && q'[j].owner == Owner(c, oid) && q'[j].id == id;
      assert q[g + j].owner == Owner(c, oid) && q[g + j].id == id;
      forall i | 0 <= i < g
        ensures q[..g][i].owner != Owner(c, oid)
      {
        assert q[i].owner != q[g + j].owner;
      }
    }
    if InQueue(q, c, oid, id) && !OwnedIn(q[..g], c, oid) {
      var i :| 0 <= i < |q| && q[i].owner == Owner(c, oid) && q[i].id == id;
      assert q'[i - g].owner == Owner(c, oid) && q'[i - g].id == id;
    }
  }

  lemma ApartOwners(a: seq<Order>, b: seq<Order>, g: nat, c: nat, oid: nat, id: nat)
    requires Apart(a, b) && g <= |b|
    ensures InQueue(a, c, oid, id) ==> !OwnedIn(b[..g], c, oid)
  {
  }

  lemma LiveIs(b: Book, side: Side, c: nat, oid: nat, id: nat)
    requires side == BUY || side == SELL
    ensures Live(b, c, oid, id) <==> InQueue(b.Queue(side), c, oid, id) || InQueue(b.Queue(Opposite(side)), c, oid, id)
  {
  }

  /** Clearing the entries of the orders traded away leaves the index naming what still rests. */
  lemma TradesNamed(m: MapExchange, t: nat, c: nat, oid: nat, side: Side, price: int, qty: nat)
    requires ExchangeOk(m.exch) && Names(m.index, m.exch.book) && (side == BUY || side == SELL)
    ensures Names(DropAll(m.index, Gone(m.exch, t, c, oid, side, price, qty)),
              AfterTrades(m.exch, t, c, oid, side, price, qty))
    ensures DropAll(m.index, Gone(m.exch, t, c, oid, side, price, qty)).Keys == m.index.Keys
  {
    hide MatchNew, ExchangeOk, Gone, AfterTrades, Distinct, Apart;
    var opp, b := Opposite(side), m.exch.book;
    var q, other := b.Queue(opp), b.Queue(side);
    Owners(m.exch, opp);
    var g := GoneIs(m.exch, t, c, oid, side, price, qty);
    var r := MatchNew(m.exch, t, c, oid, side, price, qty);
    var gone, after := Gone(m.exch, t, c, oid, side, price, qty), AfterTrades(m.exch, t, c, oid, side, price, qty);
    ApartFlip(b.bids, b.asks);
    EntryDropAll(m.index, gone);
    var ix := DropAll(m.index, gone);
    hide DropAll;
    forall d: nat, o: nat, id: nat
      ensures Entry(ix, d, o) == Some(id) <==> Live(after, d, o, id)
    {
      ShrunkOwners(q, r.queue, g, d, o, id);
      ApartOwners(other, q, g, d, o, id);
      LiveIs(b, side, d, o, id);
      LiveIs(after, side, d, o, id);
      assert Entry(m.index, d, o) == Some(id) <==> Live(b, d, o, id);
    }
    forall d | exists i :: 0 <= i < |gone| && gone[i].owner.clientId == d
      ensures d in m.index
    {
      var i :| 0 <= i < |gone| && gone[i].owner.clientId == d;
      NamedClient(m.index, b, opp, i);
    }
  }

  /** The orders gone are the first ones of the opposite queue. */
  lemma GoneIs(m: Exchange, t: nat, c: nat, oid: nat, side: Side, price: int, qty: nat) returns (g: nat)
    requires ExchangeOk(m) && (side == BUY || side == SELL)
    ensures var r, q := MatchNew(m, t, c, oid, side, price, qty), m.book.Queue(Opposite(side));
            && Shrunk(q, r.queue, g) && g <= |q| && Gone(m, t, c, oid, side, price, qty) == q[..g]
            && AfterTrades(m, t, c, oid, side, price, qty) == m.book.With(Opposite(side), r.queue)
  {
    Owners(m, Opposite(side));
    g := MatchShrinks(t, IncomingOf(m, c, oid, side, price), m.book.Queue(Opposite(side)), qty);
    hide MatchQueue, ExchangeOk;
  }

  lemma Owners(m: Exchange, side: Side)
    requires ExchangeOk(m) && (side == BUY || side == SELL)
    ensures var q := m.book.Queue(side);
            Positive(q) && Distinct(q) && (forall i :: 0 <= i < |q| ==> q[i].owner.Owner?)
                && Apart(m.book.bids, m.book.asks)
  {
  }

  /** The client of a resting order is in the map. */
  lemma NamedClient(ix: Index, b: Book, side: Side, i: nat)
    requires Names(ix, b) && (side == BUY || side == SELL) && i < |b.Queue(side)| && b.Queue(side)[i].owner.Owner?
    ensures b.Queue(side)[i].owner.clientId in ix
  {
    var o := b.Queue(side)[i];
    assert InQueue(b.Queue(side), o.owner.clientId, o.owner.clientOrderId, o.id);
    assert Live(b, o.owner.clientId, o.owner.clientOrderId, o.id);
  }

  lemma InsertedOwners(q: seq<Order>, k: nat, x: Order, c: nat, oid: nat, id: nat)
    requires k <= |q|
    ensures InQueue(InsertAt(q, k, x), c, oid, id) <==>
              InQueue(q, c, oid, id) || (x.owner == Owner(c, oid) && x.id == id)
  {
    var t := InsertAt(q, k, x);
    if i :| 0 <= i < |q| && q[i].owner == Owner(c, oid) && q[i].id == id {
      assert t[if i < k then i else i + 1] == q[i];
    }
    if i :| 0 <= i < |t| && t[i].owner == Owner(c, oid) && t[i].id == id {
      assert i != k ==> q[if i < k then i else i - 1] == t[i];
    }
    assert t[k] == x;
  }

  lemma NotLive(b: Book, c: nat, oid: nat, id: nat)
    requires SideOfOwner(b, Owner(c, oid)) == INVALID_SIDE
    ensures !Live(b, c, oid, id)
  {
  }

  lemma AddNamed(m: MapExchange, t: nat, c: nat, oid: nat, side: Side, price: int, qty: nat)
    requires ExchangeOk(m.exch) && Names(m.index, m.exch.book) && Admitted(m.exch, t, New(c, oid, side, price, qty))
    ensures var r := MapAddOrder(m, t, c, oid, side, price, qty);
            && Names(r.next.index, r.next.exch.book)
            && r.next.index.Keys == m.index.Keys + if MatchNew(m.exch, t, c, oid, side, price, qty).leaves > 0 then {c}
                                         else {}
  {
    TradesNamed(m, t, c, oid, side, price, qty);
    var r, b := MatchNew(m.exch, t, c, oid, side, price, qty), AfterTrades(m.exch, t, c, oid, side, price, qty);
    var ix := DropAll(m.index, Gone(m.exch, t, c, oid, side, price, qty));
    hide MatchNew, AfterTrades, DropAll, Gone, ExchangeOk;
    if r.leaves > 0 {
      var o := Residual(m.exch, b, c, oid, side, price, r.leaves);
      var q := b.Queue(side);
      var k := Rank(side, q, o.price);
      var b' := b.With(side, InsertAt(q, k, o));
      EntryPut(ix, c, oid, Some(m.exch.nextId));
      hide Put, Entry;
      forall d: nat, x: nat, id: nat
        ensures Entry(Put(ix, c, oid, Some(m.exch.nextId)), d, x) == Some(id) <==> Live(b', d, x, id)
      {
        InsertedOwners(q, k, o, d, x, id);
        LiveIs(b, side, d, x, id);
        LiveIs(b', side, d, x, id);
        if d == c && x == oid {
          NotLive(b, c, oid, id);
        }
      }
    }
  }

  // ----- cancels -----

  lemma {:induction false} OwnerPlace(q: seq<Order>, c: nat, oid: nat, id: nat)
    requires Distinct(q) && InQueue(q, c, oid, id)
    ensures var k := IdAt(q, id); k < |q| && q[k].owner == Owner(c, oid) && IndexOf(q, Owner(c, oid)) == k
  {
  }

  lemma {:induction false} IdAbsent(a: seq<Order>, b: seq<Order>, i: nat)
    requires Apart(a, b) && i < |b|
    ensures IdAt(a, b[i].id) == |a|
  {
  }

  lemma {:induction false} OwnerAbsent(a: seq<Order>, b: seq<Order>, i: nat)
    requires Apart(a, b) && i < |b|
    ensures IndexOf(a, b[i].owner) == |a|
  {
  }

  lemma RemovedOwners(q: seq<Order>, k: nat, c: nat, oid: nat, id: nat)
    requires Distinct(q) && k < |q|
    ensures InQueue(RemoveAt(q, k), c, oid, id) <==> InQueue(q, c, oid, id) && q[k].owner != Owner(c, oid)
  {
    var t := RemoveAt(q, k);
    if i :| 0 <= i < |t| && t[i].owner == Owner(c, oid) && t[i].id == id {
      var j := if i < k then i else i + 1;
      assert q[j] == t[i];
      assert q[if j < k then j else k].owner != q[if j < k then k else j].owner;
    }
    if InQueue(q, c, oid, id) && q[k].owner != Owner(c, oid) {
      var i :| 0 <= i < |q| && q[i].owner == Owner(c, oid) && q[i].id == id;
      assert t[if i < k then i else i - 1] == q[i];
    }
  }

  /** Where a cancel finds its order, if anywhere, both through the index and through the book. */
  lemma CancelPlace(m: MapExchange, c: nat, oid: nat) returns (side: Side, k: nat)
    requires ExchangeOk(m.exch) && Names(m.index, m.exch.book)
    ensures side == SideOfOwner(m.exch.book, Owner(c, oid))
    ensures side == INVALID_SIDE <==> Entry(m.index, c, oid) == None
    ensures side != INVALID_SIDE ==>
              var q := m.exch.book.Queue(side);
              && k < |q| && k == IndexOf(q, Owner(c, oid)) && q[k].owner == Owner(c, oid)
              && Entry(m.index, c, oid) == Some(q[k].id) && IdAt(q, q[k].id) == k
              && (side == SELL ==> IdAt(m.exch.book.bids, q[k].id) == |m.exch.book.bids|)
  {
    var b := m.exch.book;
    k := 0;
    match Entry(m.index, c, oid) {
      case None =>
        side := SideOfOwner(b, Owner(c, oid));
        if side != INVALID_SIDE {
          var i := IndexOf(b.Queue(side), Owner(c, oid));
          assert InQueue(b.Queue(side), c, oid, b.Queue(side)[i].id);
          assert Live(b, c, oid, b.Queue(side)[i].id);
        }
      case Some(id) =>
        assert Live(b, c, oid, id);
        side := if InQueue(b.bids, c, oid, id) then BUY else SELL;
        OwnerPlace(b.Queue(side), c, oid, id);
        k := IdAt(b.Queue(side), id);
        if side == SELL {
          IdAbsent(b.bids, b.asks, k);
          OwnerAbsent(b.bids, b.asks, k);
        }
    }
  }

  /** Both books do the same thing with a cancel. */
  ghost predicate Agree(m: MapResult, r: Result) {
    m.next.exch == r.next && m.responses == r.responses && m.updates == r.updates
  }

  /**
   * The two books agree on a cancel exactly when there is no such order or the client's id is below the number of
   * clients in the map; and either way the index goes on naming the resting orders.
   */
  lemma CancelAgrees(m: MapExchange, t: nat, c: nat, oid: nat)
    requires ExchangeOk(m.exch) && Names(m.index, m.exch.book)
    ensures Agree(MapCancelOrder(m, t, c, oid), CancelOrder(m.exch, t, c, oid)) <==>
            SideOfOwner(m.exch.book, Owner(c, oid)) == INVALID_SIDE || c < |m.index|
    ensures Names(MapCancelOrder(m, t, c, oid).next.index, MapCancelOrder(m, t, c, oid).next.exch.book)
    ensures MapCancelOrder(m, t, c, oid).next.index.Keys == m.index.Keys + if c < |m.index| then {c} else {}
  {
    hide ExchangeOk, Names, Live;
    var side, k := CancelPlace(m, c, oid);
    if c < |m.index| {
      var ix := Touch(m.index, c, oid);
      EntryPut(m.index, c, oid, Entry(m.index, c, oid));
      EntryPut(ix, c, oid, None);
      hide Put, Entry;
      NamesSame(m.index, ix, m.exch.book);
      if side != INVALID_SIDE {
        CancelNamed(ix, m.exch, side, k, c, oid);
      }
    }
  }

  lemma NamesSame(ix: Index, ix': Index, b: Book)
    requires Names(ix, b) && forall c, oid :: Entry(ix', c, oid) == Entry(ix, c, oid)
    ensures Names(ix', b)
  {
  }

  lemma CancelNamed(ix: Index, m: Exchange, side: Side, k: nat, c: nat, oid: nat)
    requires ExchangeOk(m) && Names(ix, m.book) && (side == BUY || side == SELL)
    requires k < |m.book.Queue(side)| && m.book.Queue(side)[k].owner == Owner(c, oid)
    ensures Names(Put(ix, c, oid, None), m.book.With(side, RemoveAt(m.book.Queue(side), k)))
  {
    var b, q, other := m.book, m.book.Queue(side), m.book.Queue(Opposite(side));
    var b' := b.With(side, RemoveAt(q, k));
    Owners(m, side);
    ApartFlip(b.bids, b.asks);
    EntryPut(ix, c, oid, None);
    hide Put, Entry, ExchangeOk, Distinct, Apart;
    forall d: nat, o: nat, id: nat
      ensures Entry(Put(ix, c, oid, None), d, o) == Some(id) <==> Live(b', d, o, id)
    {
      RemovedOwners(q, k, d, o, id);
      LiveIs(b, side, d, o, id);
      LiveIs(b', side, d, o, id);
      if d == c && o == oid {
        NotOther(other, q, k, id);
      }
    }
  }

  lemma NotOther(a: seq<Order>, q: seq<Order>, k: nat, id: nat)
    requires Apart(a, q) && k < |q| && q[k].owner.Owner?
    ensures !InQueue(a, q[k].owner.clientId, q[k].owner.clientOrderId, id)
  {
  }

  // ----- sessions -----

  /** The map's clients are 0, 1, 2, ... */
  ghost predicate Dense(ix: Index) {
    forall c: nat :: c in ix <==> c < |ix|
  }

  /** Whenever an order rests, its client is in the map already or is the next one. */
  ghost predicate Joining(m: MapExchange, t: nat, rs: seq<Request>)
    decreases |rs|
  {
    rs != [] ==>
      && Admitted(m.exch, t, rs[0])
      && (rs[0].New? && MatchNew(m.exch, t, rs[0].clientId, rs[0].orderId, rs[0].side, rs[0].price, rs[0].qty)
                         .leaves > 0 ==>
            rs[0].clientId <= |m.index|)
      && Joining(MapProcess(m, t, rs[0]).next, t, rs[1..])
  }

  ghost predicate DenseSet(s: set<nat>) {
    forall c: nat :: c in s <==> c < |s|
  }

  lemma DenseSetGrows(s: set<nat>, c: nat)
    requires DenseSet(s) && c <= |s|
    ensures DenseSet(s + {c})
  {
    if c in s {
      assert s + {c} == s;
    } else {
      assert |s + {c}| == |s| + 1;
    }
  }

  lemma DenseGrows(ix: Index, ix': Index, c: nat)
    requires Dense(ix) && c <= |ix| && ix'.Keys == ix.Keys + {c}
    ensures Dense(ix')
  {
    assert |ix| == |ix.Keys| && |ix'| == |ix'.Keys|;
    assert forall d: nat :: d in ix <==> d in ix.Keys;
    DenseSetGrows(ix.Keys, c);
  }

  /** The two books answer alike over every session whose clients first rest orders in the order 0, 1, 2, ... */
  lemma {:induction false} SessionsAgree(m: MapExchange, t: nat, rs: seq<Request>)
    requires ExchangeOk(m.exch) && Names(m.index, m.exch.book) && Dense(m.index) && Joining(m, t, rs)
    ensures Agree(MapSession(m, t, rs), Session(m.exch, t, rs))
    decreases |rs|
  {
    hide ExchangeOk, Names, Admitted, MatchNew, AddOrder, CancelOrder, MapCancelOrder, MapAddOrder, Dense;
    if rs != [] {
      ProcessKeeps(m.exch, t, rs[0]);
      StepAgrees(m, t, rs[0]);
      SessionsAgree(MapProcess(m, t, rs[0]).next, t, rs[1..]);
    }
  }

  lemma StepAgrees(m: MapExchange, t: nat, r: Request)
    requires ExchangeOk(m.exch) && Names(m.index, m.exch.book) && Dense(m.index) && Admitted(m.exch, t, r)
    requires r.New? && MatchNew(m.exch, t, r.clientId, r.orderId, r.side, r.price, r.qty).leaves > 0 ==>
               r.clientId <= |m.index|
    ensures var s := MapProcess(m, t, r);
            Agree(s, Process(m.exch, t, r)) && Names(s.next.index, s.next.exch.book) && Dense(s.next.index)
  {
    hide ExchangeOk, Names, MatchNew, AddOrder, CancelOrder, MapCancelOrder, Dense;
    var ix' := MapProcess(m, t, r).next.index;
    match r {
      case New(c, oid, side, price, qty) =>
        AddNamed(m, t, c, oid, side, price, qty);
        if MatchNew(m.exch, t, c, oid, side, price, qty).leaves > 0 {
          DenseGrows(m.index, ix', c);
        } else {
          DenseSame(m.index, ix');
        }
      case Cancel(c, oid) =>
        CancelAgrees(m, t, c, oid);
        if c < |m.index| {
          DenseGrows(m.index, ix', c);
        } else {
          DenseSame(m.index, ix');
          DenseLive(m, c, oid);
        }
    }
  }

  lemma DenseSame(ix: Index, ix': Index)
    requires Dense(ix) && ix'.Keys == ix.Keys
    ensures Dense(ix')
  {
  }

  /** With the clients dense, a live order's client is below their number. */
  lemma DenseLive(m: MapExchange, c: nat, oid: nat)
    requires ExchangeOk(m.exch) && Names(m.index, m.exch.book) && Dense(m.index) && c >= |m.index|
    ensures SideOfOwner(m.exch.book, Owner(c, oid)) == INVALID_SIDE
  {
    var side, k := CancelPlace(m, c, oid);
  }

  /** An order for an empty book rests, and the client that sent it is the only one in the map. */
  lemma OnlyClient(m: MapExchange, t: nat, c: nat)
    requires m == MapExchange(NEW_EXCHANGE, map[])
    ensures var r := MapAddOrder(m, t, c, 1, BUY, 100, 5); var s := AddOrder(m.exch, t, c, 1, BUY, 100, 5);
            && |r.next.index| == 1 && r.responses == s.responses && |s.responses| == 1
            && s.next.book == Book([Order(Owner(c, 1), 1, BUY, 100, 5, 1)], [])
  {
  }

  lemma {:induction false} SessionTwo(m: MapExchange, t: nat, a: Request, b: Request)
    ensures var x := MapProcess(m, t, a);
              MapSession(m, t, [a, b]).responses == x.responses + MapProcess(x.next, t, b).responses
    ensures var y := Process(m.exch, t, a);
              Session(m.exch, t, [a, b]).responses == y.responses + Process(y.next, t, b).responses
  {
    hide MapProcess, Process;
    assert [a, b][1..] == [b] && [b][1..] == [];
    var x, y := MapProcess(m, t, a).next, Process(m.exch, t, a).next;
    assert MapSession(MapProcess(x, t, b).next, t, []).responses == [];
    assert MapSession(x, t, [b]).responses == MapProcess(x, t, b).responses;
    assert Session(Process(y, t, b).next, t, []).responses == [];
    assert Session(y, t, [b]).responses == Process(y, t, b).responses;
  }

  /** A client with a high id that is the only one: the array book cancels its order, the map book refuses to. */
  lemma {:induction false} SparseClient(m: MapExchange, t: nat, c: nat)
    requires c > 0 && m == MapExchange(NEW_EXCHANGE, map[])
    ensures !Agree(MapSession(m, t, [New(c, 1, BUY, 100, 5), Cancel(c, 1)]),
              Session(m.exch, t, [New(c, 1, BUY, 100, 5), Cancel(c, 1)]))
  {
    var a, b := New(c, 1, BUY, 100, 5), Cancel(c, 1);
    OnlyClient(m, t, c);
    SessionTwo(m, t, a, b);
    hide AddOrder, MapAddOrder, MapSession, Session;
    var x, y := MapProcess(m, t, a), Process(m.exch, t, a);
    var p, q := MapProcess(x.next, t, b), Process(y.next, t, b);
    assert p.responses[0].kind == CANCEL_REJECTED && q.responses[0].kind == CANCELED;
    assert (x.responses + p.responses)[1] == p.responses[0] && (y.responses + q.responses)[1] == q.responses[0];
  }
}
