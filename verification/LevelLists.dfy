/**
 * The shape of a linked order book: per side one circular list of price levels, per level one circular list of
 * orders, and one array that finds a level from its price. Facts about these as values; LinkedBook keeps them.
 */
module LevelLists {
  import opened Types
  import opened Sequences
  import opened Pools
  import opened Rings
  import opened OrderQueue

  datatype LevelData = LevelData(side: Side, price: int, first: Ptr)

  type OrderNode = Node<Order>
  type LevelNode = Node<LevelData>

  /** Where a price level's node is, and its orders' nodes from the oldest to the newest. */
  datatype Level = Level(at: Ptr, fifo: seq<Ptr>)

  function PriceToIndex(price: int): (i: nat)
    ensures i < ME_MAX_PRICE_LEVELS
  {
    price % ME_MAX_PRICE_LEVELS
  }

  ghost function Ats(sp: seq<Level>): (s: seq<Ptr>)
    ensures |s| == |sp| && forall i :: 0 <= i < |sp| ==> s[i] == sp[i].at
  {
    seq(|sp|, i requires 0 <= i < |sp| => sp[i].at)
  }

  /** All order nodes of a side, level by level. */
  ghost function Ptrs(sp: seq<Level>): seq<Ptr> {
    if sp == [] then [] else sp[0].fifo + Ptrs(sp[1..])
  }

  ghost predicate InRange(os: seq<OrderNode>, ps: seq<Ptr>) {
    forall i :: 0 <= i < |ps| ==> 0 <= ps[i] < |os|
  }

  ghost function Data(os: seq<OrderNode>, ps: seq<Ptr>): (q: seq<Order>)
    requires InRange(os, ps)
    ensures |q| == |ps| && forall i :: 0 <= i < |ps| ==> q[i] == os[ps[i]].data
  {
    seq(|ps|, i requires 0 <= i < |ps| => os[ps[i]].data)
  }

  ghost predicate LevelOk(os: seq<OrderNode>, ls: seq<LevelNode>, side: Side, lv: Level) {
    && 0 <= lv.at < |ls|
    && lv.fifo != []
    && Ring(os, lv.fifo)
    && ls[lv.at].data == LevelData(side, ls[lv.at].data.price, lv.fifo[0])
    && forall i :: 0 <= i < |lv.fifo| ==> AtLevel(os[lv.fifo[i]].data, side, ls[lv.at].data.price)
  }

  predicate AtLevel(o: Order, side: Side, price: int) {
    o.side == side && o.price == price
  }

  ghost predicate SideOk(os: seq<OrderNode>, ls: seq<LevelNode>, side: Side, head: Ptr, sp: seq<Level>) {
    && (forall i :: 0 <= i < |sp| ==> LevelOk(os, ls, side, sp[i]))
    && (forall i, j :: 0 <= i < j < |sp| ==> Ahead(side, ls[sp[i].at].data.price, ls[sp[j].at].data.price))
    && Ring(ls, Ats(sp))
    && head == (if sp == [] then NULL else sp[0].at)
  }

  // ----- flattening -----

  lemma {:induction false} PtrsSplit(sp: seq<Level>, i: nat)
    requires i <= |sp|
    ensures Ptrs(sp) == Ptrs(sp[..i]) + Ptrs(sp[i..])
  {
    if i > 0 {
      PtrsSplit(sp[1..], i - 1);
      assert sp[..i][1..] == sp[1..][..i - 1];
      assert sp[1..][i - 1..] == sp[i..];
    } else {
      assert sp[i..] == sp;
    }
  }

  lemma {:induction false} PtrsFind(sp: seq<Level>, p: Ptr) returns (i: nat, j: nat)
    requires p in Ptrs(sp)
    ensures i < |sp| && j < |sp[i].fifo| && sp[i].fifo[j] == p
  {
    if p in sp[0].fifo {
      i := 0;
      j :| 0 <= j < |sp[0].fifo| && sp[0].fifo[j] == p;
    } else {
      i, j := PtrsFind(sp[1..], p);
      i := i + 1;
    }
  }

  /** Where the j-th order of level i stands in the side. */
  ghost function Position(sp: seq<Level>, i: nat, j: nat): nat
    requires i <= |sp|
  {
    |Ptrs(sp[..i])| + j
  }

  lemma {:induction false} PtrsAt(sp: seq<Level>, i: nat, j: nat)
    requires i < |sp| && j < |sp[i].fifo|
    ensures Position(sp, i, j) < |Ptrs(sp)| && Ptrs(sp)[Position(sp, i, j)] == sp[i].fifo[j]
    ensures sp[i].fifo[j] in Ptrs(sp)
  {
    PtrsSplit(sp, i);
    assert Ptrs(sp[i..])[j] == sp[i].fifo[j];
  }

  /** Replacing level i by any number of levels changes the side only at that level's place. */
  lemma {:induction false} PtrsReplace(sp: seq<Level>, i: nat, mid: seq<Level>)
    requires i < |sp|
    ensures Ptrs(sp[..i] + mid + sp[i + 1..]) == Ptrs(sp[..i]) + Ptrs(mid) + Ptrs(sp[i + 1..])
    ensures Ptrs(sp) == Ptrs(sp[..i]) + sp[i].fifo + Ptrs(sp[i + 1..])
  {
    var t := sp[..i] + mid + sp[i + 1..];
    PtrsSplit(t, i);
    assert t[..i] == sp[..i] && t[i..] == mid + sp[i + 1..];
    PtrsSplit(t[i..], |mid|);
    assert t[i..][..|mid|] == mid && t[i..][|mid|..] == sp[i + 1..];
    PtrsSplit(sp, i);
    assert sp[i..][1..] == sp[i + 1..];
  }

  lemma PtrsRefill(sp: seq<Level>, i: nat, f: seq<Ptr>)
    requires i < |sp|
    ensures Ptrs(sp[i := Level(sp[i].at, f)]) == Ptrs(sp[..i]) + f + Ptrs(sp[i + 1..])
    ensures Ptrs(sp) == Ptrs(sp[..i]) + sp[i].fifo + Ptrs(sp[i + 1..])
  {
    var lv := Level(sp[i].at, f);
    PtrsReplace(sp, i, [lv]);
    assert sp[i := lv] == sp[..i] + [lv] + sp[i + 1..];
    assert Ptrs([lv]) == f;
  }

  lemma {:induction false} PtrsAppend(sp: seq<Level>, i: nat, p: Ptr)
    requires i < |sp|
    ensures Position(sp, i, |sp[i].fifo|) == Position(sp, i + 1, 0) <= |Ptrs(sp)|
    ensures Ptrs(sp[i := Level(sp[i].at, sp[i].fifo + [p])]) == InsertAt(Ptrs(sp), Position(sp, i, |sp[i].fifo|), p)
  {
    var f := sp[i].fifo;
    PtrsRefill(sp, i, f + [p]);
    InsertWithin(Ptrs(sp[..i]), f, Ptrs(sp[i + 1..]), |f|, p);
    assert InsertAt(f, |f|, p) == f + [p];
    PtrsRefill(sp[..i + 1], i, f);
    assert sp[..i + 1][..i] == sp[..i];
  }

  lemma {:induction false} PtrsNewLevel(sp: seq<Level>, i: nat, l: Ptr, p: Ptr)
    requires i <= |sp|
    ensures Position(sp, i, 0) <= |Ptrs(sp)|
    ensures Ptrs(InsertAt(sp, i, Level(l, [p]))) == InsertAt(Ptrs(sp), Position(sp, i, 0), p)
  {
    var t := InsertAt(sp, i, Level(l, [p]));
    PtrsSplit(sp, i);
    PtrsReplace(t, i, []);
    assert t[..i] == sp[..i] && t[i + 1..] == sp[i..];
  }

  lemma {:induction false} PtrsRemove(sp: seq<Level>, i: nat, j: nat)
    requires i < |sp| && j < |sp[i].fifo|
    ensures Position(sp, i, j) < |Ptrs(sp)|
    ensures Ptrs(Dropped(sp, i, j)) == RemoveAt(Ptrs(sp), Position(sp, i, j))
  {
    var f := sp[i].fifo;
    PtrsRefill(sp, i, RemoveAt(f, j));
    RemoveWithin(Ptrs(sp[..i]), f, Ptrs(sp[i + 1..]), j);
    if |f| == 1 {
      PtrsReplace(sp, i, []);
      assert RemoveAt(sp, i) == sp[..i] + [] + sp[i + 1..];
      assert RemoveAt(f, j) == [];
    }
  }

  /** The levels once the j-th order of level i is gone; an emptied level goes too. */
  ghost function Dropped(sp: seq<Level>, i: nat, j: nat): seq<Level>
    requires i < |sp| && j < |sp[i].fifo|
  {
    if |sp[i].fifo| == 1 then RemoveAt(sp, i) else sp[i := Level(sp[i].at, RemoveAt(sp[i].fifo, j))]
  }

  // ----- keeping the shape -----

  /** Nodes of one side and price that two stores agree on, quantities apart. */
  ghost predicate SameAt(os: seq<OrderNode>, os': seq<OrderNode>, side: Side, price: int) {
    && |os'| == |os|
    && forall q :: 0 <= q < |os| && AtLevel(os[q].data, side, price) ==>
         AtLevel(os'[q].data, side, price) && os'[q].prev == os[q].prev && os'[q].next == os[q].next
  }

  lemma LevelFrame(os: seq<OrderNode>, os': seq<OrderNode>, ls: seq<LevelNode>, ls': seq<LevelNode>, side: Side,
        lv: Level)
    requires LevelOk(os, ls, side, lv)
    requires |ls'| == |ls| && ls'[lv.at].data == ls[lv.at].data
    requires SameAt(os, os', side, ls[lv.at].data.price)
    ensures LevelOk(os', ls', side, lv)
  {
    RingFrame(os, os', lv.fifo);
  }

  /** A side is untouched by changes to the other side's nodes and to quantities. */
  lemma SideFrame(os: seq<OrderNode>, os': seq<OrderNode>, ls: seq<LevelNode>, ls': seq<LevelNode>, side: Side,
        head: Ptr, sp: seq<Level>)
    requires SideOk(os, ls, side, head, sp)
    requires |ls'| == |ls| && forall i :: 0 <= i < |sp| ==> ls'[sp[i].at] == ls[sp[i].at]
    requires forall i :: 0 <= i < |sp| ==> SameAt(os, os', side, ls[sp[i].at].data.price)
    ensures SideOk(os', ls', side, head, sp)
  {
    RingFrame(ls, ls', Ats(sp));
    forall i | 0 <= i < |sp|
      ensures LevelOk(os', ls', side, sp[i])
    {
      LevelFrame(os, os', ls, ls', side, sp[i]);
    }
  }

  /** An order node linked behind the last order of level i. */
  lemma AppendSide(os: seq<OrderNode>, ls: seq<LevelNode>, side: Side, head: Ptr, sp: seq<Level>, i: nat, p: Ptr)
    requires SideOk(os, ls, side, head, sp) && i < |sp|
    requires 0 <= p < |os| && p !in sp[i].fifo && AtLevel(os[p].data, side, ls[sp[i].at].data.price)
    ensures var f := sp[i].fifo; f[0] != p && f[|f| - 1] != p && os[f[0]].prev == f[|f| - 1]
    ensures var f := sp[i].fifo;
            SideOk(Splice(os, p, f[|f| - 1], f[0]), ls, side, head, sp[i := Level(sp[i].at, f + [p])])
  {
    var f := sp[i].fifo;
    assert LinkedAt(os, f, 0);
    var os' := Splice(os, p, f[|f| - 1], f[0]);
    var sp' := sp[i := Level(sp[i].at, f + [p])];
    RingSplice(os, f, |f|, p, f[|f| - 1], f[0]);
    assert InsertAt(f, |f|, p) == f + [p];
    assert Ats(sp') == Ats(sp);
    forall k | 0 <= k < |sp'|
      ensures LevelOk(os', ls, side, sp'[k])
    {
      if k != i {
        LevelFrame(os, os', ls, ls, side, sp[k]);
      }
    }
  }

  /** An order node taken out of level i, which keeps at least one other; `ls'` repairs the level's first order. */
  lemma UnlinkSide(os: seq<OrderNode>, ls: seq<LevelNode>, ls': seq<LevelNode>, side: Side, head: Ptr,
        sp: seq<Level>, i: nat, j: nat)
    requires SideOk(os, ls, side, head, sp) && i < |sp| && j < |sp[i].fifo| && 1 < |sp[i].fifo|
    requires var f, l := sp[i].fifo, sp[i].at;
             ls' == if j == 0 then ls[l := ls[l].(data := ls[l].data.(first := f[1]))] else ls
    ensures var p := sp[i].fifo[j];
            os[p].prev != p && os[p].next != p && 0 <= os[p].prev < |os| && 0 <= os[p].next < |os|
    ensures SideOk(Unsplice(os, sp[i].fifo[j]), ls', side, head, Dropped(sp, i, j))
    ensures j == 0 ==> os[sp[i].fifo[0]].next == sp[i].fifo[1]
  {
    var sp' := Dropped(sp, i, j);
    UnlinkOwn(os, ls, ls', side, sp[i], j);
    var os' := Unsplice(os, sp[i].fifo[j]);
    assert Ats(sp') == Ats(sp);
    DistinctLevels(os, ls, side, head, sp);
    RingFrame(ls, ls', Ats(sp));
    forall k | 0 <= k < |sp'|
      ensures LevelOk(os', ls', side, sp'[k])
    {
      if k != i {
        UnlinkOther(os, ls, ls', side, sp[i], j, sp[k]);
      }
    }
  }

  lemma UnlinkOwn(os: seq<OrderNode>, ls: seq<LevelNode>, ls': seq<LevelNode>, side: Side, lv: Level, j: nat)
    requires LevelOk(os, ls, side, lv) && j < |lv.fifo| && 1 < |lv.fifo|
    requires ls' == if j == 0 then ls[lv.at := ls[lv.at].(data := ls[lv.at].data.(first := lv.fifo[1]))] else ls
    ensures var p := lv.fifo[j]; os[p].prev != p && os[p].next != p && 0 <= os[p].prev < |os| && 0 <= os[p].next < |os|
    ensures LevelOk(Unsplice(os, lv.fifo[j]), ls', side, Level(lv.at, RemoveAt(lv.fifo, j)))
    ensures j == 0 ==> os[lv.fifo[0]].next == lv.fifo[1]
  {
    RingUnsplice(os, lv.fifo, j);
    assert RemoveAt(lv.fifo, j)[0] == if j == 0 then lv.fifo[1] else lv.fifo[0];
  }

  lemma UnlinkOther(os: seq<OrderNode>, ls: seq<LevelNode>, ls': seq<LevelNode>, side: Side, lv: Level, j: nat,
        other: Level)
    requires LevelOk(os, ls, side, lv) && LevelOk(os, ls, side, other)
    requires ls[lv.at].data.price != ls[other.at].data.price
    requires |ls'| == |ls| && ls'[other.at] == ls[other.at]
    requires j < |lv.fifo| && 1 < |lv.fifo|
    requires var p := lv.fifo[j];
             0 <= os[p].prev < |os| && 0 <= os[p].next < |os| && os[p].prev != p && os[p].next != p
    ensures LevelOk(Unsplice(os, lv.fifo[j]), ls', side, other)
  {
    RingUnsplice(os, lv.fifo, j);
    LevelFrame(os, Unsplice(os, lv.fifo[j]), ls, ls', side, other);
  }

  lemma DistinctLevels(os: seq<OrderNode>, ls: seq<LevelNode>, side: Side, head: Ptr, sp: seq<Level>)
    requires SideOk(os, ls, side, head, sp)
    ensures forall i, j :: 0 <= i < |sp| && 0 <= j < |sp| && i != j ==>
              sp[i].at != sp[j].at && ls[sp[i].at].data.price != ls[sp[j].at].data.price
  {
  }

  lemma LevelAt(os: seq<OrderNode>, ls: seq<LevelNode>, side: Side, lv: Level)
    requires LevelOk(os, ls, side, lv)
    ensures 0 <= lv.at < |ls|
  {
  }

  /** A level of a single order linked at position k of the side's list. */
  lemma AddLevelSide(os: seq<OrderNode>, os': seq<OrderNode>, ls: seq<LevelNode>, ls': seq<LevelNode>,
                     side: Side, head: Ptr, sp: seq<Level>, k: nat, lv: Level)
    requires SideOk(os, ls, side, head, sp) && k <= |sp|
    requires |ls'| == |ls| && lv.at !in Ats(sp) && LevelOk(os', ls', side, lv)
    requires forall i :: 0 <= i < |ls| && i != lv.at ==> ls'[i].data == ls[i].data
    requires forall i :: 0 <= i < |sp| ==> SameAt(os, os', side, ls[sp[i].at].data.price)
    requires Ring(ls', InsertAt(Ats(sp), k, lv.at))
    requires forall i :: 0 <= i < k ==> Ahead(side, ls[sp[i].at].data.price, ls'[lv.at].data.price)
    requires forall i :: k <= i < |sp| ==> Ahead(side, ls'[lv.at].data.price, ls[sp[i].at].data.price)
    ensures SideOk(os', ls', side, if k == 0 then lv.at else head, InsertAt(sp, k, lv))
  {
    hide LevelOk, Ring, Ahead;
    var sp' := InsertAt(sp, k, lv);
    LevelAt(os', ls', side, lv);
    assert Ats(sp') == InsertAt(Ats(sp), k, lv.at);
    forall i | 0 <= i < |sp|
      ensures 0 <= sp[i].at < |ls|
    {
      LevelAt(os, ls, side, sp[i]);
    }
    assert forall i :: 0 <= i < |sp| ==> sp[i].at != lv.at by {
      assert forall i :: 0 <= i < |sp| ==> Ats(sp)[i] == sp[i].at;
    }
    forall i | 0 <= i < |sp'|
      ensures LevelOk(os', ls', side, sp'[i])
    {
      if i != k {
        LevelFrame(os, os', ls, ls', side, sp[if i < k then i else i - 1]);
      }
    }
    PricesInserted(ls, ls', side, sp, k, lv);
  }

  lemma PricesInserted(ls: seq<LevelNode>, ls': seq<LevelNode>, side: Side, sp: seq<Level>, k: nat, lv: Level)
    requires k <= |sp| && |ls'| == |ls| && 0 <= lv.at < |ls|
    requires forall i :: 0 <= i < |sp| ==> 0 <= sp[i].at < |ls| && ls'[sp[i].at].data == ls[sp[i].at].data
    requires forall i, j :: 0 <= i < j < |sp| ==> Ahead(side, ls[sp[i].at].data.price, ls[sp[j].at].data.price)
    requires forall i :: 0 <= i < k ==> Ahead(side, ls[sp[i].at].data.price, ls'[lv.at].data.price)
    requires forall i :: k <= i < |sp| ==> Ahead(side, ls'[lv.at].data.price, ls[sp[i].at].data.price)
    ensures var sp' := InsertAt(sp, k, lv);
            && (forall i :: 0 <= i < |sp'| ==> 0 <= sp'[i].at < |ls'|)
            && forall i, j :: 0 <= i < j < |sp'| ==> Ahead(side, ls'[sp'[i].at].data.price, ls'[sp'[j].at].data.price)
  {
    hide Ahead;
    var sp' := InsertAt(sp, k, lv);
    forall i, j | 0 <= i < j < |sp'|
      ensures Ahead(side, ls'[sp'[i].at].data.price, ls'[sp'[j].at].data.price)
    {
      if i != k && j != k {
        var x, y := if i < k then i else i - 1, if j < k then j else j - 1;
        assert sp'[i] == sp[x] && sp'[j] == sp[y] && x < y;
      }
    }
  }

  /** A level taken out of the side's list. */
  lemma DropLevelSide(os: seq<OrderNode>, ls: seq<LevelNode>, side: Side, head: Ptr, sp: seq<Level>, i: nat)
    requires SideOk(os, ls, side, head, sp) && i < |sp| && 1 < |sp|
    ensures var l := sp[i].at; ls[l].prev != l && ls[l].next != l && 0 <= ls[l].prev < |ls| && 0 <= ls[l].next < |ls|
    ensures i == 0 ==> ls[sp[0].at].next == sp[1].at
    ensures SideOk(os, Unsplice(ls, sp[i].at), side, if i == 0 then sp[1].at else head, RemoveAt(sp, i))
  {
    hide LevelOk, Ring, Unsplice;
    RingNeighbours(ls, Ats(sp), i);
    RingUnsplice(ls, Ats(sp), i);
    assert Ats(RemoveAt(sp, i)) == RemoveAt(Ats(sp), i);
    DroppedLevels(os, ls, Unsplice(ls, sp[i].at), side, sp, i);
  }

  /** The levels that stay, and their order. */
  lemma DroppedLevels(os: seq<OrderNode>, ls: seq<LevelNode>, ls': seq<LevelNode>, side: Side, sp: seq<Level>, i: nat)
    requires i < |sp| && forall k :: 0 <= k < |sp| ==> LevelOk(os, ls, side, sp[k]) && 0 <= sp[k].at < |ls|
    requires forall k, l :: 0 <= k < l < |sp| ==> Ahead(side, ls[sp[k].at].data.price, ls[sp[l].at].data.price)
    requires |ls'| == |ls| && forall k :: 0 <= k < |ls| ==> ls'[k].data == ls[k].data
    ensures var sp' := RemoveAt(sp, i);
            && (forall k :: 0 <= k < |sp'| ==> LevelOk(os, ls', side, sp'[k]) && 0 <= sp'[k].at < |ls'|)
            && forall k, l :: 0 <= k < l < |sp'| ==> Ahead(side, ls'[sp'[k].at].data.price, ls'[sp'[l].at].data.price)
  {
    var sp' := RemoveAt(sp, i);
    forall k | 0 <= k < |sp'|
      ensures LevelOk(os, ls', side, sp'[k]) && ls'[sp'[k].at].data == ls[sp'[k].at].data
    {
      var o := if k < i then k else k + 1;
      assert sp'[k] == sp[o] && LevelOk(os, ls, side, sp[o]);
      LevelFrame(os, os, ls, ls', side, sp[o]);
    }
  }

  // ----- what the shape means -----

  lemma {:induction false} InSide(os: seq<OrderNode>, ls: seq<LevelNode>, side: Side, head: Ptr, sp: seq<Level>)
    requires SideOk(os, ls, side, head, sp)
    ensures InRange(os, Ptrs(sp))
    ensures forall i :: 0 <= i < |Ptrs(sp)| ==> os[Ptrs(sp)[i]].data.side == side
  {
    forall k | 0 <= k < |Ptrs(sp)|
      ensures 0 <= Ptrs(sp)[k] < |os| && os[Ptrs(sp)[k]].data.side == side
    {
      var i, j := PtrsFind(sp, Ptrs(sp)[k]);
      assert LevelOk(os, ls, side, sp[i]);
    }
  }

  /** A price between the levels before k and those from k on ranks behind exactly the former's orders. */
  lemma {:induction false} RankAtLevel(os: seq<OrderNode>, ls: seq<LevelNode>, side: Side, head: Ptr,
        sp: seq<Level>, k: nat, price: int)
    requires SideOk(os, ls, side, head, sp) && k <= |sp|
    requires forall i :: 0 <= i < k ==> !Ahead(side, price, ls[sp[i].at].data.price)
    requires forall i :: k <= i < |sp| ==> Ahead(side, price, ls[sp[i].at].data.price)
    ensures InRange(os, Ptrs(sp))
    ensures Rank(side, Data(os, Ptrs(sp)), price) == Position(sp, k, 0) <= |Ptrs(sp)|
  {
    InSide(os, ls, side, head, sp);
    PtrsSplit(sp, k);
    var q, n := Data(os, Ptrs(sp)), Position(sp, k, 0);
    forall x | 0 <= x < |q|
      ensures x < n <==> !Ahead(side, price, q[x].price)
    {
      BeforeLevel(os, ls, side, head, sp, k, price, x);
    }
    hide SideOk;
    RankIs(side, q, price, n);
  }

  lemma {:induction false} BeforeLevel(os: seq<OrderNode>, ls: seq<LevelNode>, side: Side, head: Ptr,
        sp: seq<Level>, k: nat, price: int, x: nat)
    requires SideOk(os, ls, side, head, sp) && k <= |sp| && x < |Ptrs(sp)|
    requires forall i :: 0 <= i < k ==> !Ahead(side, price, ls[sp[i].at].data.price)
    requires forall i :: k <= i < |sp| ==> Ahead(side, price, ls[sp[i].at].data.price)
    ensures 0 <= Ptrs(sp)[x] < |os|
    ensures x < Position(sp, k, 0) <==> !Ahead(side, price, os[Ptrs(sp)[x]].data.price)
  {
    hide Ring, LevelOk;
    PtrsSplit(sp, k);
    var n := Position(sp, k, 0);
    if x < n {
      var i, j := PtrsFind(sp[..k], Ptrs(sp[..k])[x]);
      FifoPrice(os, ls, side, sp[i], j);
    } else {
      var i, j := PtrsFind(sp[k..], Ptrs(sp[k..])[x - n]);
      FifoPrice(os, ls, side, sp[k + i], j);
    }
  }

  lemma FifoPrice(os: seq<OrderNode>, ls: seq<LevelNode>, side: Side, lv: Level, j: nat)
    requires LevelOk(os, ls, side, lv) && j < |lv.fifo|
    ensures 0 <= lv.fifo[j] < |os| && 0 <= lv.at < |ls| && os[lv.fifo[j]].data.price == ls[lv.at].data.price
  {
  }
}
