/**
 * The consumer never compares the update named by SNAPSHOT_START with the one named by SNAPSHOT_END. A run in which a
 * snapshot made of two cycles is accepted and the replica keeps an order that was cancelled.
 */
module TornSnapshot {
  import opened Types
  import opened Matching
  import opened Replication
  import opened MarketStream
  import opened Snapshot
  import opened Recovery
  import opened RecoveryTheorem

  const ADDED := Update(ADD, 1, 0, BUY, 100, 5, 1)
  const CANCELLED := Update(UpdateType.CANCEL, 1, 0, BUY, 100, 0, 1)

  function History(): seq<Update> {
    [ADDED, CANCELLED]
  }

  lemma HistoryStream()
    ensures Stream(EmptyBooks(), History())
    ensures RecordOf(History()[..1]) == map[(0, 1) := ADDED] && RecordOf(History()[..2]) == map[]
    ensures Fold(EmptyBooks(), History()[..2])[0] == EMPTY_BOOK
  {
    var one := Book([OrderOf(ADDED)], []);
    var bs, bs' := EmptyBooks(), EmptyBooks()[0 := one];
    assert Apply(EMPTY_BOOK, ADDED) == one;
    assert one.Queue(BUY)[0].id == 1;
    assert History()[1..] == [CANCELLED] && [CANCELLED][1..] == [];
    assert ApplyTo(bs, ADDED) == bs';
    assert Apply(one, CANCELLED) == EMPTY_BOOK;
    FoldLast(bs, History(), 0);
    FoldLast(bs, History(), 1);
    assert History()[..0] == [];
    NoteOne(map[], ADDED);
    assert History()[..1] == [ADDED] && History()[..2] == [ADDED, CANCELLED] && History()[..2][1..] == [CANCELLED];
    NoteOne(Note(map[], ADDED), CANCELLED);
  }

  lemma {:induction false} NoteOne(m: Record, u: Update)
    ensures NoteAll(m, [u]) == Note(m, u)
  {
    assert [u][1..] == [];
  }

  lemma {:induction false} NoOrders(t: nat, n: nat)
    ensures OrdersUpTo(map[], t, n) == []
  {
    if n > 0 {
      NoOrders(t, n - 1);
    }
  }

  lemma {:induction false} OneOrder(n: nat)
    ensures OrdersUpTo(map[(0, 1) := ADDED], 0, n) == if n < 2 then [] else [ADDED]
  {
    if n > 0 {
      OneOrder(n - 1);
    }
  }

  lemma {:induction false} EmptyBody(k: nat)
    ensures |BodyUpTo(map[], k)| == k && forall i :: 0 <= i < k ==> BodyUpTo(map[], k)[i] == ClearOf(i)
  {
    if k > 0 {
      EmptyBody(k - 1);
      NoOrders(k - 1, ME_MAX_ORDER_IDS);
    }
  }

  lemma {:induction false} FilledBody(k: nat)
    requires k > 0
    ensures var b := BodyUpTo(map[(0, 1) := ADDED], k); |b| >= 2 && b[0] == ClearOf(0) && b[1] == ADDED
  {
    if k == 1 {
      OneOrder(ME_MAX_ORDER_IDS);
      assert BodyUpTo(map[(0, 1) := ADDED], 0) == [];
    } else {
      FilledBody(k - 1);
    }
  }

  /** Three messages of the cycle taken after the ADD, then those of the cycle taken after the CANCEL. */
  function Message(k: nat): Update {
    if k == 0 then Bound(SNAPSHOT_START, 1)
    else if k == 1 then ClearOf(0)
    else if k == 2 then ADDED
    else if k < 9 then ClearOf(k - 1)
    else Bound(SNAPSHOT_END, 2)
  }

  function CycleAt(k: nat): nat {
    if k < 3 then 1 else 2
  }

  /** The head of the first cycle. */
  lemma FirstCycle(h: seq<Update>)
    requires h == History()
    ensures var c := CycleOf(h, 1);
            |c| > 3 && c[0] == Bound(SNAPSHOT_START, 1) && c[1] == ClearOf(0) && c[2] == ADDED
  {
    hide BodyUpTo, RecordOf, Fold, Stream;
    HistoryStream();
    FilledBody(ME_MAX_TICKERS);
  }

  /** The whole of the second. */
  lemma SecondCycle(h: seq<Update>)
    requires h == History()
    ensures var c := CycleOf(h, 2);
            |c| == 10 && c[9] == Bound(SNAPSHOT_END, 2) && forall i :: 0 < i < 9 ==> c[i] == ClearOf(i - 1)
  {
    hide BodyUpTo, RecordOf, Fold, Stream;
    HistoryStream();
    EmptyBody(ME_MAX_TICKERS);
  }

  lemma MessageSent(h: seq<Update>, k: nat)
    requires h == History() && k < 10
    ensures Sent(h, Snap(CycleAt(k), k)) && FrameOf(h, Snap(CycleAt(k), k)) == Frame(k, Message(k))
  {
    assert |h| == 2;
    hide CycleOf, History, Bound, ClearOf;
    if k < 3 {
      FirstCycle(h);
    } else {
      SecondCycle(h);
    }
  }

  /** Exactly the first n of these messages are queued. */
  predicate Holds(q: Queued, n: nat) {
    |q| == n && (forall k :: 0 <= k < n ==> k in q && q[k] == Message(k)) && (forall k :: k in q ==> k < n)
  }

  /** Update 1 was lost, update 2 started the recovery, and n snapshot messages have come. */
  predicate Collecting(c: Consumer, n: nat) {
    c.nextExp == 1 && c.inRecovery && Holds(c.snaps, n) && c.incs == map[2 := CANCELLED] && c.emitted == []
  }

  lemma {:induction false} OthersLeave(bs: Books, us: seq<Update>)
    requires |bs| > 0 && forall i :: 0 <= i < |us| ==> us[i].tickerId != 0
    ensures Fold(bs, us)[0] == bs[0]
    decreases |us|
  {
    if us != [] {
      OthersLeave(ApplyTo(bs, us[0]), us[1..]);
    }
  }

  function Body(): seq<Update> {
    [ClearOf(0), ADDED] + seq(6, i requires 0 <= i < 6 => ClearOf(i + 2))
  }

  lemma TornMessages(q: Queued, n: nat)
    requires n == 10 && Holds(q, n)
    ensures Gapless(q) && Payload(Messages(q)) == Body()
  {
    hide Body, Messages, Holds, Payload, Plain;
    var first, last, body := [Bound(SNAPSHOT_START, 1)], [Bound(SNAPSHOT_END, 2)], Body();
    MessagesAre(q, n);
    PlainBody();
    BoundDrops(first[0]);
    BoundDrops(last[0]);
    PayloadConcat(first + body, last);
    PayloadConcat(first, body);
    PayloadPlain(body);
  }

  lemma PlainBody()
    ensures Plain(Body())
  {
  }

  lemma {:induction false} BoundDrops(u: Update)
    requires IsBound(u)
    ensures Payload([u]) == []
  {
    assert [u][1..] == [];
  }

  lemma MessagesAre(q: Queued, n: nat)
    requires n == 10 && Holds(q, n)
    ensures Gapless(q) && Messages(q) == [Bound(SNAPSHOT_START, 1)] + Body() + [Bound(SNAPSHOT_END, 2)]
  {
    KeysBelow(q);
    SliceIs(q, 0, n);
    hide Slice;
  }

  lemma TornBooks()
    ensures Fold(EmptyBooks(), Body())[0].bids == [OrderOf(ADDED)]
  {
    var bs, more := EmptyBooks(), seq(6, i requires 0 <= i < 6 => ClearOf(i + 2));
    FoldConcat(bs, [ClearOf(0), ADDED], more);
    assert [ClearOf(0), ADDED][1..] == [ADDED] && [ADDED][1..] == [];
    assert Apply(EMPTY_BOOK, ADDED).bids == [OrderOf(ADDED)];
    OthersLeave(Fold(bs, [ClearOf(0), ADDED]), more);
  }

  lemma HoldsGrows(q: Queued, n: nat)
    requires Holds(q, n) && n < 10
    ensures var q' := q[n := Message(n)];
            && Holds(q', n + 1) && n !in q && q' != map[] && Gapless(q') && (Complete(q') <==> n == 9)
            && q'[Lowest(q'.Keys)].kind == SNAPSHOT_START
  {
    var q' := q[n := Message(n)];
    assert q'.Keys == q.Keys + {n};
    assert IsLowest(q'.Keys, Lowest(q'.Keys)) && 0 in q'.Keys;
    assert |q'| == n + 1 && q'[n] == Message(n);
  }

  /** One more message is queued and nothing else happens. */
  lemma Grow(c: Consumer, n: nat)
    requires Collecting(c, n) && n < 9
    ensures Collecting(Step(c, true, Frame(n, Message(n))), n + 1)
  {
    hide Holds, Complete, Gapless, Message;
    HoldsGrows(c.snaps, n);
  }

  /** The tenth completes the snapshot. */
  lemma Accepted(c: Consumer, f: Frame, n: nat)
    requires Collecting(c, 9) && n == 10 && f == Frame(9, Message(9))
    ensures var c' := Step(c, true, f);
            && !c'.inRecovery && c'.nextExp == 3
            && var q := c.snaps[9 := Message(9)]; Holds(q, n) && Gapless(q) && c'.emitted == Payload(Messages(q))
  {
    hide Messages, Gapless;
    var q := c.snaps[9 := Message(9)];
    HoldsGrows(c.snaps, 9);
    assert FirstAfter(q) == 3 && 3 !in c.incs;
    assert Slice(c.incs, 3, Reach(c.incs, 3)) == [];
    assert Payload([]) == [];
  }

  ghost predicate AllSent(h: seq<Update>, rs: seq<Read>) {
    forall i, j :: 0 <= i < |rs| && 0 <= j < |rs[i].ds| ==> Sent(h, rs[i].ds[j])
  }

  /** A read of one delivery that the consumer does not drop is one step. */
  lemma {:induction false} RunLast(h: seq<Update>, c: Consumer, rs: seq<Read>, d: Delivery)
    requires AllSent(h, rs) && Sent(h, d) && (d.Snap? ==> Run(h, c, rs).inRecovery)
    ensures AllSent(h, rs + [Read(d.Snap?, [d])])
    ensures Run(h, c, rs + [Read(d.Snap?, [d])]) == Step(Run(h, c, rs), d.Snap?, FrameOf(h, d))
    decreases |rs|
  {
    hide Sent, FrameOf, Step;
    var r := Read(d.Snap?, [d]);
    if rs == [] {
      assert rs + [r] == [r] && [r][1..] == [];
      var f := FrameOf(h, d);
      assert Frames(h, [d]) == [f] && [f][1..] == [];
      assert StepAll(c, d.Snap?, [f]) == StepAll(Step(c, d.Snap?, f), d.Snap?, []);
      assert Run(h, c, []) == c && Receive(c, d.Snap?, [f]) == Step(c, d.Snap?, f);
      assert Run(h, c, [r]) == Run(h, Receive(c, d.Snap?, [f]), []);
    } else {
      assert (rs + [r])[1..] == rs[1..] + [r] && (rs + [r])[0] == rs[0];
      RunLast(h, Receive(c, rs[0].isSnapshot, Frames(h, rs[0].ds)), rs[1..], d);
    }
  }

  lemma {:induction false} Collected(h: seq<Update>, n: nat) returns (rs: seq<Read>)
    requires h == History() && n <= 9
    ensures AllSent(h, rs) && Collecting(Run(h, NEW_CONSUMER, rs), n)
  {
    if n == 0 {
      RunLast(h, NEW_CONSUMER, [], Inc(2));
      rs := [] + [Read(false, [Inc(2)])];
    } else {
      var before := Collected(h, n - 1);
      MessageSent(h, n - 1);
      Grow(Run(h, NEW_CONSUMER, before), n - 1);
      hide Sent, FrameOf, Step, History, Run;
      RunLast(h, NEW_CONSUMER, before, Snap(CycleAt(n - 1), n - 1));
      rs := before + [Read(true, [Snap(CycleAt(n - 1), n - 1)])];
    }
  }

  /**
   * A run of a new consumer: update 1 is lost, three messages of the cycle after update 1 arrive, the rest of it is
   * lost, and the cycle after update 2 arrives without its first three messages. Recovery is over, both updates count
   * as received, and the books are wrong.
   */
  lemma {:induction false} TornSnapshotAccepted() returns (h: seq<Update>, rs: seq<Read>)
    ensures Stream(EmptyBooks(), h)
    ensures forall i, j :: 0 <= i < |rs| && 0 <= j < |rs[i].ds| ==> Sent(h, rs[i].ds[j])
    ensures var c := Run(h, NEW_CONSUMER, rs);
            && !c.inRecovery && c.nextExp == |h| + 1
            && Fold(EmptyBooks(), c.emitted) != Fold(EmptyBooks(), h[..c.nextExp - 1])
  {
    hide Fold, Stream, Step, Messages, Payload, Body, Run, Sent, FrameOf, Holds;
    h := History();
    HistoryStream();
    var before := Collected(h, 9);
    var c := Run(h, NEW_CONSUMER, before);
    MessageSent(h, 9);
    Accepted(c, Frame(9, Message(9)), 10);
    RunLast(h, NEW_CONSUMER, before, Snap(2, 9));
    rs := before + [Read(true, [Snap(2, 9)])];
    TornMessages(c.snaps[9 := Message(9)], 10);
    TornBooks();
  }
}
