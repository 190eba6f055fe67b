/**
 * The linked exchange book and the linked replica side by side: whatever requests the one serves, feeding its updates
 * to the other makes the two hold the same orders in the same places.
 */
module ReplicaRun {
  import opened Types
  import opened BookHeap
  import opened Matching
  import opened Guarantees
  import opened Replication
  import opened MatchingEngineOrderBook
  import opened MarketOrderBook

  /** Every ADD finds room and a slot of its own in the replica as it then is. */
  ghost predicate Feedable(b: Book, us: seq<Update>)
    decreases |us|
  {
    us != [] ==>
      && (us[0].kind == ADD ==> Listable(b, us[0]) && OwnsSlot(b, us[0]))
      && Feedable(Apply(b, us[0]), us[1..])
  }

  /** What the exchange's book asks of a request: a real side, ids and room for what rests, and no collision. */
  ghost predicate Takes(m: Exchange, t: nat, r: Request) {
    && Numberable(m, r)
    && match r
       case New(c, oid, side, price, qty) =>
         && IsSide(side)
         && var b := AfterTrades(m, t, c, oid, side, price, qty);
            MatchNew(m, t, c, oid, side, price, qty).leaves > 0 ==> CanRest(b, price, c, oid) && NoCollision(b, price)
       case Cancel(c, oid) => c < ME_MAX_NUM_CLIENTS ==> oid < ME_MAX_ORDER_IDS
  }

  lemma {:induction false} FeedConcat(b: Book, us: seq<Update>, vs: seq<Update>)
    ensures Feedable(b, us + vs) <==> Feedable(b, us) && Feedable(ApplyAll(b, us), vs)
    decreases |us|
  {
    if us == [] {
      assert us + vs == vs;
    } else {
      assert (us + vs)[1..] == us[1..] + vs;
      FeedConcat(Apply(b, us[0]), us[1..], vs);
    }
  }

  lemma {:induction false} NoAdds(b: Book, us: seq<Update>)
    requires forall i :: 0 <= i < |us| ==> us[i].kind != ADD
    ensures Feedable(b, us)
    decreases |us|
  {
    if us != [] {
      NoAdds(Apply(b, us[0]), us[1..]);
    }
  }

  lemma {:induction false} MatchAdds(t: nat, a: Aggressor, q: seq<Order>, leaves: nat)
    ensures var us := MatchQueue(t, a, q, leaves).updates; forall i :: 0 <= i < |us| ==> us[i].kind != ADD
  {
    if leaves > 0 && q != [] && Marketable(a.side, a.price, q[0].price) && q[0].qty <= leaves {
      MatchAdds(t, a, q[1..], leaves - q[0].qty);
      MatchFirst(t, a, q, leaves);
    }
  }

  lemma NewFeeds(m: Exchange, t: nat, c: nat, oid: nat, side: Side, price: int, qty: nat)
    requires ExchangeOk(m) && Takes(m, t, New(c, oid, side, price, qty))
    ensures Feedable(Public(m.book), AddOrder(m, t, c, oid, side, price, qty).updates)
  {
    var a, opp := IncomingOf(m, c, oid, side, price), Opposite(side);
    MatchAdds(t, a, m.book.Queue(opp), qty);
    IdsOf(m);
    MatchReplica(t, a, m.book, opp, qty);
    TradesKeep(m, t, c, oid, side, price, qty);
    var r, b := MatchNew(m, t, c, oid, side, price, qty), AfterTrades(m, t, c, oid, side, price, qty);
    assert r == MatchQueue(t, a, m.book.Queue(opp), qty);
    hide MatchNew, AfterTrades, MatchQueue, ExchangeOk, Public, Apply, Listable, OwnsSlot, Clear, NoCollision, CanRest;
    NoAdds(Public(m.book), r.updates);
    if r.leaves > 0 {
      var o := Residual(m, b, c, oid, side, price, r.leaves);
      var u := Update(ADD, o.id, t, side, price, o.qty, o.priority);
      ListableReplica(b, u, c, oid);
      FeedConcat(Public(m.book), r.updates, [u]);
      assert [u][1..] == [];
    }
  }

  lemma RequestFeeds(m: Exchange, t: nat, r: Request)
    requires ExchangeOk(m) && Takes(m, t, r)
    ensures Admitted(m, t, r) && Feedable(Public(m.book), Process(m, t, r).updates)
  {
    match r
    case New(c, oid, side, price, qty) =>
      AdmittedIf(m, t, c, oid, side, price, qty);
      NewFeeds(m, t, c, oid, side, price, qty);
    case Cancel(c, oid) =>
      NoAdds(Public(m.book), CancelOrder(m, t, c, oid).updates);
  }

  ghost predicate TakesAll(m: Exchange, t: nat, rs: seq<Request>)
    decreases |rs|
  {
    rs != [] ==> Takes(m, t, rs[0]) && TakesAll(Process(m, t, rs[0]).next, t, rs[1..])
  }

  /** Feed updates to a replica one after the other. */
  method Feed(book: MarketOrderBook, us: seq<Update>)
    requires book.Valid() && FollowsAll(book.Abstract(), us) && Feedable(book.Abstract(), us)
    modifies book`bbo, book.oidToOrder, book.lists, book.lists.Parts()
    ensures book.Valid() && book.Abstract() == ApplyAll(old(book.Abstract()), us)
  {
    hide MarketOrderBook.Valid, MarketOrderBook.Abstract, Listable, OwnsSlot, Apply, Follows;
    for i := 0 to |us|
      invariant book.Valid() && FollowsAll(book.Abstract(), us[i..]) && Feedable(book.Abstract(), us[i..])
      invariant ApplyAll(book.Abstract(), us[i..]) == ApplyAll(old(book.Abstract()), us)
    {
      assert us[i..][0] == us[i] && us[i..][1..] == us[i + 1..];
      Real(book.Abstract(), us[i]);
      book.OnMarketUpdate(us[i]);
    }
    assert us[|us|..] == [];
  }

  lemma Real(b: Book, u: Update)
    requires Follows(b, u)
    ensures u.kind != CLEAR && u.kind != SNAPSHOT_START && u.kind != SNAPSHOT_END
  {
  }

  /** Serve one request at the exchange. */
  method ServeOne(engine: MEOrderBook, r: Request)
    requires engine.Valid() && Takes(engine.Abstract(), engine.tickerId, r)
    modifies engine, engine.cidOidToOrder, engine.lists, engine.lists.Parts()
    ensures engine.Valid()
    ensures var s := Process(old(engine.Abstract()), engine.tickerId, r);
            && engine.Abstract() == s.next
            && engine.responses == old(engine.responses) + s.responses
            && engine.updates == old(engine.updates) + s.updates
  {
    hide MEOrderBook.Valid, MEOrderBook.Abstract, CanRest, NoCollision;
    match r {
      case New(c, oid, side, price, qty) => engine.AddOrder(c, oid, side, price, qty);
      case Cancel(c, oid) => engine.CancelOrder(c, oid);
    }
  }

  /** What each of the two owns. */
  ghost function EngineParts(engine: MEOrderBook): set<object>
    reads engine.lists
  {
    {engine, engine.cidOidToOrder, engine.lists} + engine.lists.Parts()
  }

  ghost function BookParts(book: MarketOrderBook): set<object>
    reads book.lists
  {
    {book, book.oidToOrder, book.lists} + book.lists.Parts()
  }

  /** Serving a request leaves a replica alone that shares nothing with the exchange's book. */
  method ServeBeside(engine: MEOrderBook, book: MarketOrderBook, r: Request)
    requires engine.Valid() && Takes(engine.Abstract(), engine.tickerId, r)
    requires book.Valid() && EngineParts(engine) !! BookParts(book)
    modifies EngineParts(engine)
    ensures engine.Valid() && book.Valid() && book.Abstract() == old(book.Abstract())
    ensures EngineParts(engine) == old(EngineParts(engine)) && BookParts(book) == old(BookParts(book))
    ensures var s := Process(old(engine.Abstract()), engine.tickerId, r);
            && engine.Abstract() == s.next
            && engine.responses == old(engine.responses) + s.responses
            && engine.updates == old(engine.updates) + s.updates
  {
    hide MEOrderBook.Valid, MEOrderBook.Abstract, MarketOrderBook.Valid, MarketOrderBook.Abstract, Takes, Process;
    ServeOne(engine, r);
  }

  /** Feeding the replica leaves the exchange's book alone. */
  method FeedBeside(engine: MEOrderBook, book: MarketOrderBook, us: seq<Update>)
    requires book.Valid() && FollowsAll(book.Abstract(), us) && Feedable(book.Abstract(), us)
    requires engine.Valid() && EngineParts(engine) !! BookParts(book)
    modifies BookParts(book)
    ensures book.Valid() && book.Abstract() == ApplyAll(old(book.Abstract()), us)
    ensures engine.Valid() && engine.Abstract() == old(engine.Abstract())
    ensures EngineParts(engine) == old(EngineParts(engine)) && BookParts(book) == old(BookParts(book))
  {
    hide MEOrderBook.Valid, MEOrderBook.Abstract, MarketOrderBook.Valid, MarketOrderBook.Abstract, FollowsAll, Feedable;
    Feed(book, us);
  }

  /**
   * The exchange serves requests and the replica is fed what each one publishes: after every request both linked
   * books are sound and hold the same orders, quantities and priorities in the same places.
   */
  method FollowExchange(engine: MEOrderBook, book: MarketOrderBook, rs: seq<Request>)
    requires engine.Valid() && book.Valid() && EngineParts(engine) !! BookParts(book)
    requires book.Abstract() == Public(engine.Abstract().book)
    requires TakesAll(engine.Abstract(), engine.tickerId, rs)
    modifies EngineParts(engine), BookParts(book)
    ensures engine.Valid() && book.Valid()
    ensures engine.Abstract() == Session(old(engine.Abstract()), engine.tickerId, rs).next
    ensures book.Abstract() == Public(engine.Abstract().book)
  {
    hide MEOrderBook.Valid, MEOrderBook.Abstract, MarketOrderBook.Valid, MarketOrderBook.Abstract, Takes, Process;
    hide Public;
    hide EngineParts, BookParts;
    for i := 0 to |rs|
      invariant engine.Valid() && book.Valid() && book.Abstract() == Public(engine.Abstract().book)
      invariant EngineParts(engine) == old(EngineParts(engine)) && BookParts(book) == old(BookParts(book))
      invariant TakesAll(engine.Abstract(), engine.tickerId, rs[i..])
      invariant Session(engine.Abstract(), engine.tickerId, rs[i..]).next ==
                Session(old(engine.Abstract()), engine.tickerId, rs).next
    {
      ghost var m := engine.Abstract();
      assert rs[i..][0] == rs[i] && rs[i..][1..] == rs[i + 1..];
      Sound(engine);
      RequestFeeds(m, engine.tickerId, rs[i]);
      Serviceable(m, engine.tickerId, rs[i]);
      ProcessReplica(m, engine.tickerId, rs[i]);
      var published := |engine.updates|;
      ServeBeside(engine, book, rs[i]);
      FeedBeside(engine, book, engine.updates[published..]);
    }
    assert rs[|rs|..] == [];
  }

  lemma Sound(engine: MEOrderBook)
    requires engine.Valid()
    ensures ExchangeOk(engine.Abstract())
  {
  }

  lemma Serviceable(m: Exchange, t: nat, r: Request)
    requires Takes(m, t, r)
    ensures Numberable(m, r)
  {
  }

  /** From the opening on: a new exchange book and a new replica hold the same after any session. */
  method FollowFromOpening(tickerId: nat, rs: seq<Request>) returns (engine: MEOrderBook, book: MarketOrderBook)
    requires TakesAll(NEW_EXCHANGE, tickerId, rs)
    ensures engine.Valid() && book.Valid()
    ensures engine.Abstract() == Session(NEW_EXCHANGE, tickerId, rs).next
    ensures book.Abstract() == Public(engine.Abstract().book)
  {
    hide MEOrderBook.Valid, MEOrderBook.Abstract, MarketOrderBook.Valid, MarketOrderBook.Abstract, Takes, Process;
    engine := new MEOrderBook(tickerId);
    book := new MarketOrderBook(tickerId);
    assert Public(EMPTY_BOOK) == EMPTY_BOOK;
    FollowExchange(engine, book, rs);
  }
}
