/** One client's share of the exchange: its resting orders, and the responses it receives per side. */
module OwnOrders {
  import opened Types
  import opened Sequences
  import opened OrderQueue
  import opened Matching
  import opened Guarantees

  predicate Real(side: Side) {
    side == BUY || side == SELL
  }

  predicate Owns(o: Order, c: nat) {
    o.owner.Owner? && o.owner.clientId == c
  }

  /** The client's orders of a queue. */
  function Own(q: seq<Order>, c: nat): seq<Order> {
    if q == [] then [] else (if Owns(q[0], c) then [q[0]] else []) + Own(q[1..], c)
  }

  /** The responses to a client that bear a side. */
  function For(rs: seq<Response>, c: nat, side: Side): seq<Response> {
    if rs == [] then [] else (if rs[0].clientId == c && rs[0].side == side then [rs[0]] else []) + For(rs[1..], c, side)
  }

  /** At most one order of the client rests in the queue: none when n is 0, else one of id `oid` with quantity n. */
  predicate Held(q: seq<Order>, c: nat, oid: nat, n: nat) {
    if n == 0 then Own(q, c) == []
    else |Own(q, c)| == 1 && Own(q, c)[0].owner == Owner(c, oid) && Own(q, c)[0].qty == n
  }

  /** Fills that take an order's quantity from n to m, each reporting what is left. */
  predicate Chain(rs: seq<Response>, n: nat, m: nat) {
    if rs == [] then n == m
    else
      && rs[0].kind == FILLED && rs[0].execQty > 0 && rs[0].execQty + rs[0].leavesQty == n
      && Chain(rs[1..], rs[0].leavesQty, m)
  }

  /** An acceptance, then fills. */
  predicate Accepts(rs: seq<Response>, n: nat, m: nat) {
    rs != [] && rs[0].kind == ACCEPTED && Chain(rs[1..], n, m)
  }

  /** Fills from n down to some rest, then the cancel's report of that rest. */
  predicate Ended(rs: seq<Response>, n: nat) {
    && rs != [] && rs[|rs| - 1].kind == CANCELED && rs[|rs| - 1].leavesQty > 0
    && Chain(rs[..|rs| - 1], n, rs[|rs| - 1].leavesQty)
  }

  lemma {:induction false} ChainFromNone(rs: seq<Response>, m: nat)
    ensures Chain(rs, 0, m) ==> m == 0 && rs == []
  {
  }

  /** What has no quantity cannot be cancelled. */
  lemma {:induction false} NotEnded(rs: seq<Response>)
    ensures !Ended(rs, 0)
  {
    if rs != [] {
      ChainFromNone(rs[..|rs| - 1], rs[|rs| - 1].leavesQty);
    }
  }

  lemma {:induction false} OwnConcat(p: seq<Order>, q: seq<Order>, c: nat)
    ensures Own(p + q, c) == Own(p, c) + Own(q, c)
  {
    if p == [] {
      assert p + q == q;
    } else {
      assert (p + q)[1..] == p[1..] + q;
      OwnConcat(p[1..], q, c);
      ConcatAssoc(if Owns(p[0], c) then [p[0]] else [], Own(p[1..], c), Own(q, c));
    }
  }

  lemma {:induction false} OwnOne(o: Order, c: nat)
    ensures Own([o], c) == if Owns(o, c) then [o] else []
  {
  }

  lemma {:induction false} ForConcat(p: seq<Response>, q: seq<Response>, c: nat, side: Side)
    ensures For(p + q, c, side) == For(p, c, side) + For(q, c, side)
  {
    if p == [] {
      assert p + q == q;
    } else {
      assert (p + q)[1..] == p[1..] + q;
      ForConcat(p[1..], q, c, side);
      ConcatAssoc(if p[0].clientId == c && p[0].side == side then [p[0]] else [],
                  For(p[1..], c, side), For(q, c, side));
    }
  }

  lemma {:induction false} ForOne(r: Response, c: nat, side: Side)
    ensures For([r], c, side) == if r.clientId == c && r.side == side then [r] else []
  {
  }

  lemma {:induction false} ChainConcat(p: seq<Response>, q: seq<Response>, n: nat, m: nat, k: nat)
    requires Chain(p, n, m) && Chain(q, m, k)
    ensures Chain(p + q, n, k)
  {
    if p == [] {
      assert p + q == q;
    } else {
      assert (p + q)[1..] == p[1..] + q;
      ChainConcat(p[1..], q, p[0].leavesQty, m, k);
    }
  }

  lemma {:induction false} OwnInsert(q: seq<Order>, k: nat, o: Order, c: nat)
    requires k <= |q|
    ensures !Owns(o, c) ==> Own(InsertAt(q, k, o), c) == Own(q, c)
    ensures Owns(o, c) && Own(q, c) == [] ==> Own(InsertAt(q, k, o), c) == [o]
  {
    OwnConcat(q[..k] + [o], q[k..], c);
    OwnConcat(q[..k], [o], c);
    OwnOne(o, c);
    OwnConcat(q[..k], q[k..], c);
    assert q == q[..k] + q[k..];
  }

  lemma {:induction false} OwnRemove(q: seq<Order>, k: nat, c: nat)
    requires k < |q|
    ensures !Owns(q[k], c) ==> Own(RemoveAt(q, k), c) == Own(q, c)
    ensures Owns(q[k], c) ==> |Own(q, c)| == |Own(RemoveAt(q, k), c)| + 1
    ensures Owns(q[k], c) && |Own(q, c)| == 1 ==> Own(q, c) == [q[k]]
  {
    OwnConcat(q[..k] + [q[k]], q[k + 1..], c);
    OwnConcat(q[..k], [q[k]], c);
    OwnOne(q[k], c);
    OwnConcat(q[..k], q[k + 1..], c);
    assert q == q[..k] + [q[k]] + q[k + 1..];
  }

  // ----- what matching does to the client's orders -----

  ghost predicate Sided(side: Side, q: seq<Order>) {
    forall i :: 0 <= i < |q| ==> q[i].side == side && q[i].owner.Owner? && q[i].qty > 0
  }

  lemma {:induction false} FillsFor(t: nat, a: Aggressor, o: Order, fill: nat, leaves: nat, c: nat)
    requires fill <= o.qty && Real(a.side) && o.side == Opposite(a.side) && o.owner.Owner?
    ensures var rs := Fills(t, a, o, fill, leaves);
            && For(rs, c, o.side) == (if Owns(o, c) then [PassiveFill(t, o, fill, o.qty - fill)] else [])
            && For(rs, c, a.side) == (if a.clientId == c then [AggressorFill(t, a, o, fill, leaves)] else [])
  {
    var x, y := AggressorFill(t, a, o, fill, leaves), PassiveFill(t, o, fill, o.qty - fill);
    assert Fills(t, a, o, fill, leaves) == [x] + [y];
    ForConcat([x], [y], c, o.side);
    ForConcat([x], [y], c, a.side);
    ForOne(x, c, o.side);
    ForOne(x, c, a.side);
    ForOne(y, c, o.side);
    ForOne(y, c, a.side);
  }

  lemma {:induction false} ChainFirst(r: Response, rest: seq<Response>, n: nat, m: nat)
    requires r.kind == FILLED && r.execQty > 0 && r.execQty + r.leavesQty == n && Chain(rest, r.leavesQty, m)
    ensures Chain([r] + rest, n, m)
  {
  }

  /**
   * Matching fills the client's resting order in one chain of reports and the client's own incoming order in another,
   * each from what it had to what it has left.
   */
  lemma {:induction false} MatchOwn(t: nat, a: Aggressor, q: seq<Order>, leaves: nat, c: nat, oid: nat,
        n: nat) returns (n': nat)
    requires Real(a.side) && Sided(Opposite(a.side), q) && Held(q, c, oid, n)
    ensures var r := MatchQueue(t, a, q, leaves);
            && Held(r.queue, c, oid, n') && Chain(For(r.responses, c, Opposite(a.side)), n, n')
            && (if a.clientId == c then Chain(For(r.responses, c, a.side), leaves, r.leaves)
                else For(r.responses, c, a.side) == [])
  {
    hide MatchQueue, Held, Chain, For, Owns;
    n' := n;
    if leaves == 0 || q == [] || !Marketable(a.side, a.price, q[0].price) {
      NoneOwn(t, a, q, leaves, c, n);
    } else if q[0].qty <= leaves {
      SidedTail(Opposite(a.side), q);
      HeldTail(q, c, oid, n);
      n' := MatchOwn(t, a, q[1..], leaves - q[0].qty, c, oid, if Owns(q[0], c) then 0 else n);
      FullOwn(t, a, q, leaves, c, oid, n, n');
    } else {
      n' := PartialOwn(t, a, q, leaves, c, oid, n);
    }
  }

  /** Nothing trades. */
  lemma {:induction false} NoneOwn(t: nat, a: Aggressor, q: seq<Order>, leaves: nat, c: nat, n: nat)
    requires leaves == 0 || q == [] || !Marketable(a.side, a.price, q[0].price)
    ensures MatchQueue(t, a, q, leaves) == Matched(q, leaves, [], [])
    ensures Chain([], n, n) && Chain([], leaves, leaves)
    ensures For([], c, a.side) == For([], c, Opposite(a.side)) == []
  {
  }

  lemma SidedTail(side: Side, q: seq<Order>)
    requires Sided(side, q) && q != []
    ensures Sided(side, q[1..]) && q[0].side == side && q[0].owner.Owner? && q[0].qty > 0
  {
  }

  lemma HeldTail(q: seq<Order>, c: nat, oid: nat, n: nat)
    requires q != [] && q[0].qty > 0 && Held(q, c, oid, n)
    ensures Held(q[1..], c, oid, if Owns(q[0], c) then 0 else n)
    ensures Owns(q[0], c) ==> n == q[0].qty
  {
  }

  lemma FullOwn(t: nat, a: Aggressor, q: seq<Order>, leaves: nat, c: nat, oid: nat, n: nat, n': nat)
    requires Real(a.side) && q != [] && q[0].side == Opposite(a.side) && q[0].owner.Owner? && q[0].qty > 0
    requires Marketable(a.side, a.price, q[0].price) && q[0].qty <= leaves && (Owns(q[0], c) ==> n == q[0].qty)
    requires var s := MatchQueue(t, a, q[1..], leaves - q[0].qty);
             && Held(s.queue, c, oid, n')
                 && Chain(For(s.responses, c, Opposite(a.side)), if Owns(q[0], c) then 0 else n, n')
             && (if a.clientId == c then Chain(For(s.responses, c, a.side), leaves - q[0].qty, s.leaves)
                 else For(s.responses, c, a.side) == [])
    ensures var r := MatchQueue(t, a, q, leaves);
            && Held(r.queue, c, oid, n') && Chain(For(r.responses, c, Opposite(a.side)), n, n')
            && (if a.clientId == c then Chain(For(r.responses, c, a.side), leaves, r.leaves)
                else For(r.responses, c, a.side) == [])
  {
    hide MatchQueue, Fills, Chain, Held, For, Marketable, Own;
    var o, s := q[0], MatchQueue(t, a, q[1..], leaves - q[0].qty);
    var rs := Fills(t, a, o, o.qty, leaves - o.qty);
    FillsFor(t, a, o, o.qty, leaves - o.qty, c);
    MatchFirst(t, a, q, leaves);
    ForConcat(rs, s.responses, c, o.side);
    ForConcat(rs, s.responses, c, a.side);
    var passive, own := For(s.responses, c, o.side), For(s.responses, c, a.side);
    assert [] + passive == passive && [] + own == own;
    if Owns(o, c) {
      ChainFirst(PassiveFill(t, o, o.qty, 0), passive, n, n');
    }
    if a.clientId == c {
      ChainFirst(AggressorFill(t, a, o, o.qty, leaves - o.qty), own, leaves, s.leaves);
    }
  }

  lemma PartialOwn(t: nat, a: Aggressor, q: seq<Order>, leaves: nat, c: nat, oid: nat, n: nat) returns (n': nat)
    requires Real(a.side) && Sided(Opposite(a.side), q) && Held(q, c, oid, n)
    requires q != [] && Marketable(a.side, a.price, q[0].price) && 0 < leaves < q[0].qty
    ensures var r := MatchQueue(t, a, q, leaves);
            && Held(r.queue, c, oid, n') && Chain(For(r.responses, c, Opposite(a.side)), n, n')
            && (if a.clientId == c then Chain(For(r.responses, c, a.side), leaves, r.leaves)
                else For(r.responses, c, a.side) == [])
  {
    var o := q[0];
    FillsFor(t, a, o, leaves, 0, c);
    var left := o.(qty := o.qty - leaves);
    assert ([left] + q[1..])[1..] == q[1..];
    n' := if Owns(o, c) then n - leaves else n;
    ChainFirst(PassiveFill(t, o, leaves, o.qty - leaves), [], o.qty, o.qty - leaves);
    ChainFirst(AggressorFill(t, a, o, leaves, 0), [], leaves, 0);
    assert forall x: Response :: [x] + [] == [x];
  }

  // ----- what each request does to the client's orders -----

  ghost predicate Sendable(rs: seq<Response>) {
    forall i :: 0 <= i < |rs| ==> Real(rs[i].side) || rs[i].kind == CANCEL_REJECTED
  }

  lemma {:induction false} MatchSendable(t: nat, a: Aggressor, q: seq<Order>, leaves: nat)
    requires Real(a.side) && Sided(Opposite(a.side), q)
    ensures Sendable(MatchQueue(t, a, q, leaves).responses)
  {
    if leaves > 0 && q != [] && Marketable(a.side, a.price, q[0].price) && q[0].qty <= leaves {
      MatchSendable(t, a, q[1..], leaves - q[0].qty);
    }
  }

  lemma QueueSided(m: Exchange, side: Side)
    requires ExchangeOk(m) && Real(side)
    ensures Sided(side, m.book.Queue(side))
  {
  }

  lemma {:induction false} HeldOne(o: Order, c: nat, oid: nat)
    requires o.owner == Owner(c, oid) && o.qty > 0
    ensures forall q :: Own(q, c) == [o] ==> Held(q, c, oid, o.qty)
  {
  }

  /** The client's own new order: accepted, traded in one chain, and what is left rests. */
  lemma {:induction false} OwnNewServed(m: Exchange, t: nat, c: nat, oid: nat, side: Side, price: int, qty: nat,
        oidP: nat, nP: nat)
    returns (n: nat, nP': nat)
    requires ExchangeOk(m) && Real(side)
    requires Held(m.book.Queue(side), c, oid, 0) && Held(m.book.Queue(Opposite(side)), c, oidP, nP)
    ensures var r := AddOrder(m, t, c, oid, side, price, qty);
            && Held(r.next.book.Queue(side), c, oid, n) && Held(r.next.book.Queue(Opposite(side)), c, oidP, nP')
            && Chain(For(r.responses, c, Opposite(side)), nP, nP') && Accepts(For(r.responses, c, side), qty, n)
            && Sendable(r.responses)
  {
    var opp, a := Opposite(side), IncomingOf(m, c, oid, side, price);
    QueueSided(m, opp);
    nP' := MatchOwn(t, a, m.book.Queue(opp), qty, c, oidP, nP);
    MatchSendable(t, a, m.book.Queue(opp), qty);
    TradesKeep(m, t, c, oid, side, price, qty);
    var r, b := MatchNew(m, t, c, oid, side, price, qty), AfterTrades(m, t, c, oid, side, price, qty);
    assert r == MatchQueue(t, a, m.book.Queue(opp), qty) && b.Queue(opp) == r.queue;
    hide MatchNew, AfterTrades, MatchQueue, ExchangeOk;
    n := r.leaves;
    var accepted := Response(ACCEPTED, c, t, oid, m.nextId, side, price, 0, qty);
    AcceptedFor(accepted, r.responses, c);
    if r.leaves > 0 {
      var o := Residual(m, b, c, oid, side, price, r.leaves);
      OwnInsert(b.Queue(side), Rank(side, b.Queue(side), o.price), o, c);
      HeldOne(o, c, oid);
    }
  }

  lemma {:induction false} AcceptedFor(x: Response, rs: seq<Response>, c: nat)
    requires Real(x.side)
    ensures For([x] + rs, c, x.side) == (if x.clientId == c then [x] else []) + For(rs, c, x.side)
    ensures For([x] + rs, c, Opposite(x.side)) == For(rs, c, Opposite(x.side))
    ensures Sendable(rs) ==> Sendable([x] + rs)
  {
  }

  /** Another client's new order can only fill the client's order on the opposite side. */
  lemma {:induction false} OtherNewServed(m: Exchange, t: nat, d: nat, did: nat, side: Side, price: int, qty: nat,
                                          c: nat, oid: nat, n: nat, oidP: nat, nP: nat)
    returns (nP': nat)
    requires ExchangeOk(m) && Real(side) && d != c
    requires Held(m.book.Queue(side), c, oid, n) && Held(m.book.Queue(Opposite(side)), c, oidP, nP)
    ensures var r := AddOrder(m, t, d, did, side, price, qty);
            && Held(r.next.book.Queue(side), c, oid, n) && Held(r.next.book.Queue(Opposite(side)), c, oidP, nP')
            && Chain(For(r.responses, c, Opposite(side)), nP, nP') && For(r.responses, c, side) == []
            && Sendable(r.responses)
  {
    var opp, a := Opposite(side), IncomingOf(m, d, did, side, price);
    QueueSided(m, opp);
    nP' := MatchOwn(t, a, m.book.Queue(opp), qty, c, oidP, nP);
    MatchSendable(t, a, m.book.Queue(opp), qty);
    TradesKeep(m, t, d, did, side, price, qty);
    var r, b := MatchNew(m, t, d, did, side, price, qty), AfterTrades(m, t, d, did, side, price, qty);
    assert r == MatchQueue(t, a, m.book.Queue(opp), qty) && b.Queue(opp) == r.queue;
    hide MatchNew, AfterTrades, MatchQueue, ExchangeOk;
    AcceptedFor(Response(ACCEPTED, d, t, did, m.nextId, side, price, 0, qty), r.responses, c);
    if r.leaves > 0 {
      var o := Residual(m, b, d, did, side, price, r.leaves);
      OwnInsert(b.Queue(side), Rank(side, b.Queue(side), o.price), o, c);
    }
  }

  /** What a cancel leaves of the client's order on one side: everything, or nothing and a report of what it had. */
  ghost predicate CancelEffect(hit: bool, f: seq<Response>, n: nat, n': nat) {
    if hit then n > 0 && n' == 0 && |f| == 1 && f[0].kind == CANCELED && f[0].leavesQty == n else f == [] && n' == n
  }

  lemma {:induction false} OwnAt(q: seq<Order>, k: nat, c: nat)
    requires k < |q| && Owns(q[k], c)
    ensures Own(q, c) != []
  {
    if k > 0 {
      OwnAt(q[1..], k - 1, c);
    }
  }

  lemma {:induction false} CancelOnSide(m: Exchange, t: nat, d: nat, did: nat, c: nat, side: Side, oid: nat, n: nat)
    returns (hit: bool, n': nat)
    requires ExchangeOk(m) && Real(side) && Held(m.book.Queue(side), c, oid, n)
    ensures var r := CancelOrder(m, t, d, did);
            && Held(r.next.book.Queue(side), c, oid, n') && CancelEffect(hit, For(r.responses, c, side), n, n')
            && Sendable(r.responses)
    ensures hit ==> d == c && did == oid
    ensures d == c && did == oid && n > 0 ==> hit
  {
    var r, found := CancelOrder(m, t, d, did), SideOfOwner(m.book, Owner(d, did));
    var q := m.book.Queue(side);
    ForOne(r.responses[0], c, side);
    if d == c && did == oid && n > 0 {
      OwnIndex(q, c, oid, n);
    }
    hit := d == c && found == side;
    n' := if hit then 0 else n;
    if found == side {
      var k := IndexOf(q, Owner(d, did));
      QueueSided(m, side);
      OwnRemove(q, k, c);
      if hit {
        OwnAt(q, k, c);
      }
    } else if found != INVALID_SIDE {
      QueueSided(m, found);
    }
  }

  /** The client's order can be found by its owner on that side, and a bid is looked for before an ask. */
  lemma {:induction false} OwnIndex(q: seq<Order>, c: nat, oid: nat, n: nat)
    requires Held(q, c, oid, n) && n > 0
    ensures IndexOf(q, Owner(c, oid)) < |q|
  {
    if !Owns(q[0], c) {
      OwnIndex(q[1..], c, oid, n);
    }
  }
}
