/**
 * One side of a book as the sequence of its orders, best price first and oldest first within a price.
 * The price levels are the runs of equal prices in it.
 */
module OrderQueue {
  import opened Types
  import opened Sequences

  /** Price p is strictly more aggressive than price q. */
  predicate Ahead(side: Side, p: int, q: int) {
    if side == BUY then p > q else p < q
  }

  /** Price-time priority: better price, or same price and accepted earlier. */
  predicate Before(side: Side, a: Order, b: Order) {
    || Ahead(side, a.price, b.price)
    || (a.price == b.price && a.id < b.id && a.priority < b.priority)
  }

  ghost predicate Queue(side: Side, q: seq<Order>) {
    && (forall i :: 0 <= i < |q| ==> q[i].side == side)
    && (forall i, j :: 0 <= i < j < |q| ==> Before(side, q[i], q[j]))
  }

  /** How many orders of the queue a new order at price p stands behind. */
  function Rank(side: Side, q: seq<Order>, p: int): (k: nat)
    ensures k <= |q|
    ensures forall i :: 0 <= i < k ==> !Ahead(side, p, q[i].price)
    ensures k < |q| ==> Ahead(side, p, q[k].price)
  {
    if q == [] || Ahead(side, p, q[0].price) then 0 else 1 + Rank(side, q[1..], p)
  }

  function Insert(side: Side, q: seq<Order>, o: Order): seq<Order> {
    InsertAt(q, Rank(side, q, o.price), o)
  }

  function Remove(q: seq<Order>, id: nat): seq<Order> {
    if q == [] then [] else if q[0].id == id then q[1..] else [q[0]] + Remove(q[1..], id)
  }

  function SetQty(q: seq<Order>, id: nat, n: nat): seq<Order> {
    seq(|q|, i requires 0 <= i < |q| => if q[i].id == id then q[i].(qty := n) else q[i])
  }

  function Total(q: seq<Order>): nat {
    if q == [] then 0 else q[0].qty + Total(q[1..])
  }

  /** The priority the next order at price p receives. */
  function NextPriority(side: Side, q: seq<Order>, p: int): nat {
    var k := Rank(side, q, p);
    if k > 0 && q[k - 1].price == p then q[k - 1].priority + 1 else 1
  }

  lemma {:induction false} RankIs(side: Side, q: seq<Order>, p: int, k: nat)
    requires k <= |q|
    requires forall i :: 0 <= i < k ==> !Ahead(side, p, q[i].price)
    requires k < |q| ==> Ahead(side, p, q[k].price)
    ensures Rank(side, q, p) == k
  {
  }

  lemma {:induction false} RemoveIs(q: seq<Order>, k: nat)
    requires k < |q|
    requires forall i :: 0 <= i < k ==> q[i].id != q[k].id
    ensures Remove(q, q[k].id) == RemoveAt(q, k)
  {
    if k > 0 {
      RemoveIs(q[1..], k - 1);
      assert RemoveAt(q, k) == [q[0]] + RemoveAt(q[1..], k - 1);
    }
  }

  lemma {:induction false} RemoveAbsent(q: seq<Order>, id: nat)
    requires forall i :: 0 <= i < |q| ==> q[i].id != id
    ensures Remove(q, id) == q
  {
    if q != [] {
      RemoveAbsent(q[1..], id);
    }
  }

  /** A queue is determined by the set of its orders. */
  lemma {:induction false} QueueUnique(side: Side, a: seq<Order>, b: seq<Order>)
    requires Queue(side, a) && Queue(side, b)
    requires forall o :: o in a <==> o in b
    ensures a == b
  {
    assert a != [] ==> a[0] in b;
    if b != [] {
      assert b[0] in a;
      assert a[0] == b[0];
      forall o
        ensures o in a[1..] <==> o in b[1..]
      {
        InTail(side, a, o);
        InTail(side, b, o);
      }
      QueueUnique(side, a[1..], b[1..]);
      assert a == [a[0]] + a[1..] && b == [b[0]] + b[1..];
    }
  }

  lemma InTail(side: Side, q: seq<Order>, o: Order)
    requires Queue(side, q) && q != []
    ensures o in q[1..] <==> o in q && o != q[0]
  {
  }

  /** A new order with the latest id and priority joins behind all orders at its price and ahead of worse ones. */
  lemma InsertQueue(side: Side, q: seq<Order>, o: Order)
    requires Queue(side, q) && o.side == side
    requires forall i :: 0 <= i < |q| && q[i].price == o.price ==> q[i].id < o.id && q[i].priority < o.priority
    ensures Queue(side, Insert(side, q, o))
    ensures forall x :: x in Insert(side, q, o) <==> x == o || x in q
  {
    var k := Rank(side, q, o.price);
    var t := Insert(side, q, o);
    forall i, j | 0 <= i < j < |t|
      ensures Before(side, t[i], t[j])
    {
      if i != k && j != k {
        assert Before(side, q[if i < k then i else i - 1], q[if j < k then j else j - 1]);
      } else if i == k && j > k + 1 {
        assert Before(side, q[k], q[j - 1]);
      }
    }
    forall x
      ensures x in t <==> x == o || x in q
    {
      InsertMembers(q, k, o, x);
    }
  }

  lemma RemoveQueue(side: Side, q: seq<Order>, k: nat)
    requires Queue(side, q) && k < |q|
    ensures Queue(side, RemoveAt(q, k))
    ensures forall x :: x in RemoveAt(q, k) <==> x in q && x != q[k]
  {
  }
}
