/**
 * Every run of the consumer over a lossy, reordering network: outside recovery, its output rebuilds the exchange's
 * books.
 */
module RecoveryTheorem {
  import opened Types
  import opened MarketStream
  import opened Snapshot
  import opened Recovery

  // ----- what the network delivers -----

  /**
   * A delivered frame: an incremental by its number, or a message of the snapshot cycle taken after `cycle` updates.
   */
  datatype Delivery = Inc(seqNum: nat) | Snap(cycle: nat, seqNum: nat)

  function CycleOf(history: seq<Update>, s: nat): seq<Update>
    requires s <= |history|
  {
    Cycle(RecordOf(history[..s]), s)
  }

  ghost predicate Sent(history: seq<Update>, d: Delivery) {
    match d
    case Inc(n) => 0 < n <= |history|
    case Snap(s, k) => s <= |history| && k < |CycleOf(history, s)|
  }

  ghost function FrameOf(history: seq<Update>, d: Delivery): Frame
    requires Sent(history, d)
  {
    match d
    case Inc(n) => Frame(n, history[n - 1])
    case Snap(s, k) => Frame(k, CycleOf(history, s)[k])
  }

  /** The newest snapshot cycle heard of. */
  function LastOf(last: nat, d: Delivery): nat {
    if d.Snap? then d.cycle else last
  }

  // ----- the messages of a cycle -----

  lemma {:induction false} OrdersPlain(m: Record, bs: Books, t: nat, n: nat)
    requires MirrorsAll(m, bs)
    ensures forall i :: 0 <= i < |OrdersUpTo(m, t, n)| ==> OrdersUpTo(m, t, n)[i].kind == ADD
  {
    if n > 0 {
      OrdersPlain(m, bs, t, n - 1);
      if (t, n - 1) in m {
        assert Mirrors(m, t, bs[t]);
        assert Entry(m, t, n - 1);
      }
    }
  }

  ghost predicate Plain(us: seq<Update>) {
    forall i :: 0 <= i < |us| ==> !IsBound(us[i])
  }

  lemma {:induction false} BodyPlain(m: Record, bs: Books, k: nat)
    requires MirrorsAll(m, bs)
    ensures Plain(BodyUpTo(m, k))
  {
    hide MirrorsAll;
    if k > 0 {
      BodyPlain(m, bs, k - 1);
      OrdersPlain(m, bs, k - 1, ME_MAX_ORDER_IDS);
    }
  }

  lemma {:induction false} PayloadPlain(us: seq<Update>)
    requires Plain(us)
    ensures Payload(us) == us
  {
    if us != [] {
      PayloadPlain(us[1..]);
    }
  }

  lemma {:induction false} HistoryRecord(history: seq<Update>, s: nat)
    requires Stream(EmptyBooks(), history) && s <= |history|
    ensures Stream(EmptyBooks(), history[..s])
    ensures MirrorsAll(RecordOf(history[..s]), Fold(EmptyBooks(), history[..s]))
  {
    assert history == history[..s] + history[s..];
    FoldConcat(EmptyBooks(), history[..s], history[s..]);
    NothingMirrored();
    HistoryMirrored(map[], EmptyBooks(), history[..s]);
  }

  /** Within a cycle, the START is first, the END is last, and what is between is passed on. */
  lemma {:induction false} CycleShape(history: seq<Update>, s: nat)
    requires Stream(EmptyBooks(), history) && s <= |history|
    ensures var c, body := CycleOf(history, s), BodyUpTo(RecordOf(history[..s]), ME_MAX_TICKERS);
            && |c| == |body| + 2
            && c[0] == Bound(SNAPSHOT_START, s) && c[|c| - 1] == Bound(SNAPSHOT_END, s)
            && (forall k :: 0 < k < |c| - 1 ==> !IsBound(c[k]))
            && Payload(c) == body
  {
    HistoryRecord(history, s);
    var m := RecordOf(history[..s]);
    BodyPlain(m, Fold(EmptyBooks(), history[..s]), ME_MAX_TICKERS);
    hide RecordOf, Stream, MirrorsAll, BodyUpTo;
    Framed(BodyUpTo(m, ME_MAX_TICKERS), s);
  }

  lemma Framed(body: seq<Update>, s: nat)
    requires Plain(body)
    ensures var c := [Bound(SNAPSHOT_START, s)] + body + [Bound(SNAPSHOT_END, s)];
            && |c| == |body| + 2
            && c[0] == Bound(SNAPSHOT_START, s) && c[|c| - 1] == Bound(SNAPSHOT_END, s)
            && (forall k :: 0 < k < |c| - 1 ==> !IsBound(c[k]))
            && Payload(c) == body
  {
    var first, last := [Bound(SNAPSHOT_START, s)], [Bound(SNAPSHOT_END, s)];
    PayloadPlain(body);
    PayloadConcat(first + body, last);
    PayloadConcat(first, body);
    assert first[1..] == [] && last[1..] == [];
  }

  // ----- the invariant -----

  type Origins = map<nat, nat>

  ghost predicate FromCycle(history: seq<Update>, q: Queued, src: Origins, last: nat, k: nat)
    requires k in q && k in src
  {
    src[k] <= last && src[k] <= |history| && k < |CycleOf(history, src[k])| && q[k] == CycleOf(history, src[k])[k]
  }

  /** Each queued snapshot message belongs to a cycle already begun. */
  ghost predicate Traced(history: seq<Update>, q: Queued, src: Origins, last: nat) {
    src.Keys == q.Keys && forall k :: k in q ==> FromCycle(history, q, src, last, k)
  }

  /** What survives a check: nothing, or a START and what follows it without a hole, still waiting for an END. */
  ghost predicate Waiting(q: Queued, src: Origins) {
    q != map[] ==>
      Gapless(q) && !Complete(q) && 0 in q && 0 in src && forall k :: k in src ==> src[0] <= src[k]
  }

  predicate IncOk(history: seq<Update>, n: nat, u: Update) {
    0 < n <= |history| && u == history[n - 1]
  }

  ghost predicate IncsOk(history: seq<Update>, q: Queued) {
    forall n :: n in q ==> IncOk(history, n, q[n])
  }

  ghost predicate InStep(history: seq<Update>, c: Consumer) {
    && 0 < c.nextExp <= |history| + 1
    && Fold(EmptyBooks(), c.emitted) == Fold(EmptyBooks(), history[..c.nextExp - 1])
  }

  ghost predicate Inv(history: seq<Update>, c: Consumer, src: Origins, last: nat) {
    && (!c.inRecovery ==> InStep(history, c) && c.snaps == map[] && c.incs == map[])
    && IncsOk(history, c.incs)
    && Traced(history, c.snaps, src, last) && Waiting(c.snaps, src)
  }

  /** A completed snapshot whose two ends name different updates. */
  predicate Torn(q: Queued) {
    Complete(q) && 0 in q && q[0].orderId != q[|q| - 1].orderId
  }

  /** The consumer's state when it checks its queues, having received a frame that it must queue. */
  function Pending(c: Consumer, isSnapshot: bool, f: Frame): Consumer {
    Enqueue(if c.inRecovery then c else StartRecovery(c), isSnapshot, f)
  }

  predicate Queues(c: Consumer, f: Frame) {
    c.inRecovery || f.seqNum != c.nextExp
  }

  /** This frame does not complete a torn snapshot. */
  predicate Untorn(c: Consumer, isSnapshot: bool, f: Frame) {
    Queues(c, f) ==> !Torn(Pending(c, isSnapshot, f).snaps)
  }

  // ----- a completed snapshot -----

  /** The first and last queued snapshot messages belong to the oldest and the newest of the cycles queued. */
  ghost predicate Spans(q: Queued, src: Origins) {
    |q| > 0 && 0 in src && |q| - 1 in src && forall k :: k in src ==> src[0] <= src[k] <= src[|q| - 1]
  }

  /** Where the ends of a cycle are, and what they name. */
  lemma {:induction false} EndsOf(history: seq<Update>, s: nat, k: nat)
    requires Stream(EmptyBooks(), history) && s <= |history| && k < |CycleOf(history, s)|
    ensures CycleOf(history, s)[k].kind == SNAPSHOT_START <==> k == 0
    ensures CycleOf(history, s)[k].kind == SNAPSHOT_END <==> k == |CycleOf(history, s)| - 1
    ensures IsBound(CycleOf(history, s)[k]) ==> CycleOf(history, s)[k].orderId == s
  {
    CycleShape(history, s);
    hide CycleOf, Stream, BodyUpTo, RecordOf, Payload;
  }

  /** A completed snapshot is one whole cycle exactly when its two ends name the same update. */
  lemma {:induction false} WholeCycle(history: seq<Update>, q: Queued, src: Origins, last: nat)
    requires Stream(EmptyBooks(), history) && Traced(history, q, src, last) && Complete(q) && Spans(q, src)
    ensures var s := src[|q| - 1];
            s <= |history| && FirstAfter(q) == s + 1 && (Messages(q) == CycleOf(history, s) <==> !Torn(q))
  {
    hide Stream, CycleOf, Slice;
    var n, s := |q|, src[|q| - 1];
    KeysBelow(q);
    assert FromCycle(history, q, src, last, n - 1) && FromCycle(history, q, src, last, 0);
    EndsOf(history, s, n - 1);
    EndsOf(history, s, 0);
    EndsOf(history, src[0], 0);
    SliceIs(q, 0, n);
    if !Torn(q) {
      forall k | 0 <= k < n
        ensures Messages(q)[k] == CycleOf(history, s)[k]
      {
        assert FromCycle(history, q, src, last, k);
      }
    }
  }

  lemma {:induction false} HistoryPlain(history: seq<Update>, n: nat)
    requires Stream(EmptyBooks(), history) && n < |history|
    ensures !IsBound(history[n])
  {
    FoldLast(EmptyBooks(), history, n);
  }

  /** The queued incrementals that continue the snapshot are that part of the history. */
  lemma {:induction false} QueuedHistory(history: seq<Update>, q: Queued, n: nat, m: nat)
    requires Stream(EmptyBooks(), history) && IncsOk(history, q) && 0 < n <= m && Has(q, n, m) && n <= |history| + 1
    ensures m <= |history| + 1 && history[..n - 1] + Payload(Slice(q, n, m)) == history[..m - 1]
  {
    if n < m {
      assert IncOk(history, m - 1, q[m - 1]);
    }
    SliceIs(q, n, m);
    forall i | 0 <= i < m - n
      ensures Slice(q, n, m)[i] == history[n - 1 + i] && !IsBound(history[n - 1 + i])
    {
      assert IncOk(history, n + i, q[n + i]);
      HistoryPlain(history, n - 1 + i);
    }
    assert Slice(q, n, m) == history[n - 1..m - 1];
    PayloadPlain(Slice(q, n, m));
  }

  lemma {:induction false} CycleFolds(history: seq<Update>, s: nat, from: Books)
    requires Stream(EmptyBooks(), history) && s <= |history| && |from| == ME_MAX_TICKERS
    ensures Fold(from, Payload(CycleOf(history, s))) == Fold(EmptyBooks(), history[..s])
  {
    HistoryRecord(history, s);
    CycleShape(history, s);
    SnapshotIsHistory(history[..s], from);
  }

  lemma {:induction false} FoldResumes(bs: Books, emitted: seq<Update>, body: seq<Update>, past: seq<Update>,
        more: seq<Update>)
    requires Fold(Fold(bs, emitted), body) == Fold(bs, past)
    ensures Fold(bs, emitted + body + more) == Fold(bs, past + more)
  {
    hide Fold, Stream;
    FoldConcat(bs, emitted + body, more);
    FoldConcat(bs, emitted, body);
    FoldConcat(bs, past, more);
  }

  /** Passing on a whole cycle and the incrementals after it puts the output in step again. */
  lemma {:induction false} CaughtUp(history: seq<Update>, emitted: seq<Update>, s: nat, more: seq<Update>)
    requires Stream(EmptyBooks(), history) && s <= |history|
    ensures Fold(EmptyBooks(), emitted + Payload(CycleOf(history, s)) + more) == Fold(EmptyBooks(), history[..s] + more)
  {
    CycleFolds(history, s, Fold(EmptyBooks(), emitted));
    hide CycleOf, Payload, Stream, Fold;
    FoldResumes(EmptyBooks(), emitted, Payload(CycleOf(history, s)), history[..s], more);
  }

  // ----- one delivery keeps the invariant -----

  /** What is known of the snapshot queue once the newest message has joined it. */
  ghost predicate Joined(q: Queued, src: Origins) {
    && q != map[]
    && (0 in q ==> 0 in src && forall k :: k in src ==> src[0] <= src[k])
    && (Complete(q) ==> Spans(q, src))
  }

  function Origin(q: Queued, src: Origins, s: nat, k: nat): Origins {
    (if k in q then map[] else src)[k := s]
  }

  function Joining(q: Queued, k: nat, u: Update): Queued {
    (if k in q then map[] else q)[k := u]
  }

  lemma JoinTraced(history: seq<Update>, q: Queued, src: Origins, last: nat, s: nat, k: nat)
    requires Traced(history, q, src, last) && last <= s <= |history| && k < |CycleOf(history, s)|
    ensures Traced(history, Joining(q, k, CycleOf(history, s)[k]), Origin(q, src, s, k), s)
  {
    hide CycleOf;
    assert forall j :: j in q ==> FromCycle(history, q, src, last, j);
  }

  lemma JoinOrder(q: Queued, src: Origins, last: nat, s: nat, k: nat, u: Update)
    requires src.Keys == q.Keys && (forall j :: j in src ==> src[j] <= last) && Waiting(q, src) && last <= s
    requires u.kind == SNAPSHOT_START <==> k == 0
    ensures Joined(Joining(q, k, u), Origin(q, src, s, k))
  {
  }

  /** A snapshot message joins the queue, or starts it over. */
  lemma {:induction false} SnapshotJoins(history: seq<Update>, q: Queued, src: Origins, last: nat, s: nat, k: nat)
    requires Stream(EmptyBooks(), history) && Traced(history, q, src, last) && Waiting(q, src)
    requires last <= s <= |history| && k < |CycleOf(history, s)|
    ensures var q' := Joining(q, k, CycleOf(history, s)[k]);
            Traced(history, q', Origin(q, src, s, k), s) && Joined(q', Origin(q, src, s, k))
  {
    JoinTraced(history, q, src, last, s, k);
    EndsOf(history, s, k);
    hide CycleOf, Stream, Waiting, Joining, Origin, Joined;
    forall j | j in src
      ensures src[j] <= last
    {
      assert FromCycle(history, q, src, last, j);
    }
    hide Traced;
    JoinOrder(q, src, last, s, k, CycleOf(history, s)[k]);
  }

  lemma {:induction false} InTraced(history: seq<Update>, q: Queued, src: Origins, last: nat, k: nat)
    requires Stream(EmptyBooks(), history) && Traced(history, q, src, last) && k in q
    ensures q[k].kind == SNAPSHOT_START <==> k == 0
  {
    assert FromCycle(history, q, src, last, k);
    EndsOf(history, src[k], k);
  }

  /** A complete, untorn snapshot and the incrementals after it bring the output in step. */
  lemma {:induction false} SyncCatchesUp(history: seq<Update>, c: Consumer, src: Origins, last: nat)
    requires Stream(EmptyBooks(), history) && IncsOk(history, c.incs)
    requires Traced(history, c.snaps, src, last) && Complete(c.snaps) && !Torn(c.snaps) && Spans(c.snaps, src)
    ensures var first := FirstAfter(c.snaps); var next := Reach(c.incs, first);
            InStep(history, Consumer(next, false, map[], map[],
                c.emitted + Payload(Messages(c.snaps)) + Payload(Slice(c.incs, first, next))))
  {
    hide Stream, Fold, CycleOf, Payload, Slice, Traced, IncsOk, Torn, Messages;
    var first := FirstAfter(c.snaps);
    var next, s := Reach(c.incs, first), src[|c.snaps| - 1];
    WholeCycle(history, c.snaps, src, last);
    QueuedHistory(history, c.incs, first, next);
    CaughtUp(history, c.emitted, s, Payload(Slice(c.incs, first, next)));
  }

  lemma CheckKeeps(history: seq<Update>, c: Consumer, src: Origins, last: nat) returns (src': Origins)
    requires Stream(EmptyBooks(), history) && c.inRecovery && IncsOk(history, c.incs)
    requires Traced(history, c.snaps, src, last) && !Torn(c.snaps)
    requires c.snaps == map[] || Joined(c.snaps, src)
    ensures Inv(history, CheckSync(c), src', last) && (src' == map[] || src' == src)
  {
    hide Stream, FromCycle, InStep, IncsOk, Complete, Gapless;
    src' := map[];
    if c.snaps != map[] {
      var low := Lowest(c.snaps.Keys);
      InTraced(history, c.snaps, src, last, low);
      if c.snaps[low].kind == SNAPSHOT_START && Gapless(c.snaps) {
        if Complete(c.snaps) {
          SyncCatchesUp(history, c, src, last);
          NoIncs(history);
        } else {
          src' := src;
        }
      }
    }
  }

  lemma NoIncs(history: seq<Update>)
    ensures IncsOk(history, map[])
  {
  }

  lemma IncQueued(history: seq<Update>, q: Queued, n: nat)
    requires IncsOk(history, q) && 0 < n <= |history|
    ensures IncsOk(history, q[n := history[n - 1]])
  {
  }

  lemma WaitingJoined(q: Queued, src: Origins)
    requires Waiting(q, src)
    ensures q == map[] || Joined(q, src)
  {
  }

  lemma {:induction false} InOrder(history: seq<Update>, c: Consumer)
    requires InStep(history, c) && c.nextExp <= |history|
    ensures InStep(history, c.(nextExp := c.nextExp + 1, emitted := c.emitted + [history[c.nextExp - 1]]))
  {
    hide Fold;
    var last := [history[c.nextExp - 1]];
    FoldConcat(EmptyBooks(), c.emitted, last);
    FoldConcat(EmptyBooks(), history[..c.nextExp - 1], last);
    assert history[..c.nextExp] == history[..c.nextExp - 1] + last;
  }

  lemma NothingTraced(history: seq<Update>, last: nat)
    ensures Traced(history, map[], map[], last) && Waiting(map[], map[]) && IncsOk(history, map[])
  {
  }

  lemma SameKeys(history: seq<Update>, q: Queued, src: Origins, last: nat)
    requires Traced(history, q, src, last)
    ensures src.Keys == q.Keys
  {
  }

  lemma TracedLater(history: seq<Update>, q: Queued, src: Origins, last: nat, later: nat)
    requires Traced(history, q, src, last) && last <= later
    ensures Traced(history, q, src, later)
  {
  }

  /** The origins queued after a delivery: those from before it, or those of the delivered message. */
  ghost predicate Descends(src: Origins, src': Origins, d: Delivery) {
    forall k :: k in src' ==>
      || (d.Snap? && src'[k] == d.cycle)
      || (k in src && src'[k] == src[k] && (d.Snap? ==> d.seqNum !in src))
  }

  /** Every delivery, however the network has lost, repeated or reordered the others, keeps the invariant. */
  lemma StepKeeps(history: seq<Update>, c: Consumer, src: Origins, last: nat, d: Delivery) returns (src': Origins)
    requires Stream(EmptyBooks(), history) && Inv(history, c, src, last)
    requires Sent(history, d) && (d.Snap? ==> last <= d.cycle) && Untorn(c, d.Snap?, FrameOf(history, d))
    ensures Inv(history, Step(c, d.Snap?, FrameOf(history, d)), src', LastOf(last, d))
    ensures Descends(src, src', d)
  {
    hide Stream, CycleOf, InStep, Waiting, Traced, IncsOk, Torn, CheckSync, Joined, FollowsIn, Fold;
    var f := FrameOf(history, d);
    NothingTraced(history, last);
    SameKeys(history, c.snaps, src, last);
    if Queues(c, f) {
      var base := if c.inRecovery then c else StartRecovery(c);
      var src0: Origins := if c.inRecovery then src else map[];
      var p := Pending(c, d.Snap?, f);
      match d {
        case Inc(n) =>
          IncQueued(history, base.incs, n);
          WaitingJoined(base.snaps, src0);
          src' := CheckKeeps(history, p, src0, last);
        case Snap(s, k) =>
          SnapshotJoins(history, base.snaps, src0, last, s, k);
          src' := CheckKeeps(history, p, Origin(base.snaps, src0, s, k), s);
      }
    } else if d.Inc? {
      InOrder(history, c);
      src' := src;
    } else {
      TracedLater(history, c.snaps, src, last, d.cycle);
      src' := src;
    }
  }

  // ----- whole runs -----

  /** One read of a socket. */
  datatype Read = Read(isSnapshot: bool, ds: seq<Delivery>)

  ghost predicate OneCycle(src: Origins, last: nat) {
    forall k :: k in src ==> src[k] == last
  }

  /** The snapshot messages queued when a frame arrives. */
  function Held(c: Consumer): Queued {
    if c.inRecovery then c.snaps else map[]
  }

  /**
   * What is asked of snapshot deliveries: cycles arrive in order, and a message of a new cycle finds messages of an
   * older one queued only if it is the new cycle's START. Any of them may be lost or repeated.
   */
  ghost predicate Fits(c: Consumer, last: nat, d: Delivery) {
    d.Snap? ==> d.cycle == last || (last < d.cycle && (d.seqNum == 0 || Held(c) == map[]))
  }

  ghost predicate Orderly(history: seq<Update>, c: Consumer, last: nat, isSnapshot: bool, ds: seq<Delivery>)
    decreases |ds|
  {
    ds != [] ==>
      && Sent(history, ds[0]) && ds[0].Snap? == isSnapshot && Fits(c, last, ds[0])
      && Orderly(history, Step(c, isSnapshot, FrameOf(history, ds[0])), LastOf(last, ds[0]), isSnapshot, ds[1..])
  }

  ghost function Frames(history: seq<Update>, ds: seq<Delivery>): seq<Frame>
    requires forall i :: 0 <= i < |ds| ==> Sent(history, ds[i])
  {
    seq(|ds|, i requires 0 <= i < |ds| => FrameOf(history, ds[i]))
  }

  ghost function LastAfter(last: nat, ds: seq<Delivery>): nat
    decreases |ds|
  {
    if ds == [] then last else LastAfter(LastOf(last, ds[0]), ds[1..])
  }

  /** Every read is orderly; a read that is dropped whole may hold anything that was sent. */
  ghost predicate OrderlyRun(history: seq<Update>, c: Consumer, last: nat, rs: seq<Read>)
    decreases |rs|
  {
    rs != [] ==>
      var r := rs[0];
      && (forall i :: 0 <= i < |r.ds| ==> Sent(history, r.ds[i]))
      && if r.isSnapshot && !c.inRecovery then OrderlyRun(history, c, last, rs[1..])
         else
           && Orderly(history, c, last, r.isSnapshot, r.ds)
           && OrderlyRun(history, StepAll(c, r.isSnapshot, Frames(history, r.ds)), LastAfter(last, r.ds), rs[1..])
  }

  ghost function Run(history: seq<Update>, c: Consumer, rs: seq<Read>): Consumer
    requires forall i, j :: 0 <= i < |rs| && 0 <= j < |rs[i].ds| ==> Sent(history, rs[i].ds[j])
    decreases |rs|
  {
    if rs == [] then c
    else
      assert forall j :: 0 <= j < |rs[0].ds| ==> Sent(history, rs[0].ds[j]);
      Run(history, Receive(c, rs[0].isSnapshot, Frames(history, rs[0].ds)), rs[1..])
  }

  // ----- runs in cycle order -----

  /** Snapshot messages may be mixed at will as long as cycles arrive in order and no torn snapshot is completed. */
  ghost predicate UntornRead(history: seq<Update>, c: Consumer, last: nat, isSnapshot: bool, ds: seq<Delivery>)
    decreases |ds|
  {
    ds != [] ==>
      && Sent(history, ds[0]) && ds[0].Snap? == isSnapshot && (isSnapshot ==> last <= ds[0].cycle)
      && Untorn(c, isSnapshot, FrameOf(history, ds[0]))
      && UntornRead(history, Step(c, isSnapshot, FrameOf(history, ds[0])), LastOf(last, ds[0]), isSnapshot, ds[1..])
  }

  ghost predicate UntornRun(history: seq<Update>, c: Consumer, last: nat, rs: seq<Read>)
    decreases |rs|
  {
    rs != [] ==>
      var r := rs[0];
      && (forall i :: 0 <= i < |r.ds| ==> Sent(history, r.ds[i]))
      && if r.isSnapshot && !c.inRecovery then UntornRun(history, c, last, rs[1..])
         else
           && UntornRead(history, c, last, r.isSnapshot, r.ds)
           && UntornRun(history, StepAll(c, r.isSnapshot, Frames(history, r.ds)), LastAfter(last, r.ds), rs[1..])
  }

  lemma {:induction false} ReadUntornKeeps(
    history: seq<Update>, c: Consumer, src: Origins, last: nat, isSnapshot: bool, ds: seq<Delivery>)
    returns (src': Origins)
    requires Stream(EmptyBooks(), history) && Inv(history, c, src, last)
    requires UntornRead(history, c, last, isSnapshot, ds) && forall i :: 0 <= i < |ds| ==> Sent(history, ds[i])
    ensures Inv(history, StepAll(c, isSnapshot, Frames(history, ds)), src', LastAfter(last, ds))
    decreases |ds|
  {
    hide Inv, Stream, Step, FrameOf, Sent, Untorn;
    src' := src;
    if ds != [] {
      var d := ds[0];
      var src1 := StepKeeps(history, c, src, last, d);
      src' := ReadUntornKeeps(history, Step(c, isSnapshot, FrameOf(history, d)), src1, LastOf(last, d), isSnapshot,
          ds[1..]);
      assert Frames(history, ds)[1..] == Frames(history, ds[1..]);
    }
  }

  lemma {:induction false} RunUntornKeeps(history: seq<Update>, c: Consumer, src: Origins, last: nat, rs: seq<Read>)
    returns (src': Origins, last': nat)
    requires Stream(EmptyBooks(), history) && Inv(history, c, src, last) && UntornRun(history, c, last, rs)
    requires forall i, j :: 0 <= i < |rs| && 0 <= j < |rs[i].ds| ==> Sent(history, rs[i].ds[j])
    ensures Inv(history, Run(history, c, rs), src', last')
    decreases |rs|
  {
    hide Stream, Inv, UntornRead, Frames, Sent, StepAll;
    src', last' := src, last;
    if rs != [] {
      var r := rs[0];
      if r.isSnapshot && !c.inRecovery {
        src', last' := RunUntornKeeps(history, c, src, last, rs[1..]);
      } else {
        var src1 := ReadUntornKeeps(history, c, src, last, r.isSnapshot, r.ds);
        src', last' :=
          RunUntornKeeps(history, StepAll(c, r.isSnapshot, Frames(history, r.ds)), src1, LastAfter(last, r.ds),
              rs[1..]);
      }
    }
  }

  /**
   * However incrementals are lost, repeated or reordered, and whichever snapshot messages are lost, repeated or mixed
   * with those of later cycles, as long as no torn snapshot is completed: a consumer that is not recovering has
   * emitted updates that fold to the books the exchange had after the incrementals it counts as received.
   */
  lemma {:induction false} RecoveryUntorn(history: seq<Update>, rs: seq<Read>)
    requires Stream(EmptyBooks(), history) && UntornRun(history, NEW_CONSUMER, 0, rs)
    requires forall i, j :: 0 <= i < |rs| && 0 <= j < |rs[i].ds| ==> Sent(history, rs[i].ds[j])
    ensures var c := Run(history, NEW_CONSUMER, rs); !c.inRecovery ==> InStep(history, c)
  {
    NothingTraced(history, 0);
    var src, last := RunUntornKeeps(history, NEW_CONSUMER, map[], 0, rs);
  }

  // ----- runs that cannot tear a snapshot -----

  /** A message that fits completes no torn snapshot. */
  lemma {:induction false} FitsUntorn(history: seq<Update>, c: Consumer, src: Origins, last: nat, d: Delivery)
    requires Stream(EmptyBooks(), history) && Inv(history, c, src, last) && OneCycle(src, last)
    requires Sent(history, d) && Fits(c, last, d)
    ensures Untorn(c, d.Snap?, FrameOf(history, d))
  {
    hide Stream, CycleOf, InStep, IncsOk, Complete, Gapless, Fold, Torn, FromCycle, IsBound;
    var f := FrameOf(history, d);
    if Queues(c, f) {
      var src0: Origins := if c.inRecovery then src else map[];
      NothingTraced(history, last);
      match d {
        case Inc(n) =>
          WaitingUntorn(Held(c), src0);
        case Snap(s, k) =>
          SnapshotJoins(history, Held(c), src0, last, s, k);
          OneCycleUntorn(history, Joining(Held(c), k, f.update), Origin(Held(c), src0, s, k), s);
      }
    }
  }

  lemma WaitingUntorn(q: Queued, src: Origins)
    requires Waiting(q, src)
    ensures !Torn(q)
  {
  }

  /** Messages of a single cycle never make a torn snapshot. */
  lemma {:induction false} OneCycleUntorn(history: seq<Update>, q: Queued, src: Origins, s: nat)
    requires Stream(EmptyBooks(), history) && Traced(history, q, src, s) && forall k :: k in src ==> src[k] == s
    ensures !Torn(q)
  {
    hide Stream, CycleOf;
    if Torn(q) {
      var n := |q| - 1;
      assert FromCycle(history, q, src, s, 0) && FromCycle(history, q, src, s, n);
      EndsOf(history, s, 0);
      EndsOf(history, s, n);
    }
  }

  lemma {:induction false} ReadKeeps(
    history: seq<Update>, c: Consumer, src: Origins, last: nat, isSnapshot: bool, ds: seq<Delivery>)
    returns (src': Origins)
    requires Stream(EmptyBooks(), history) && Inv(history, c, src, last) && OneCycle(src, last)
    requires Orderly(history, c, last, isSnapshot, ds) && forall i :: 0 <= i < |ds| ==> Sent(history, ds[i])
    ensures var c' := StepAll(c, isSnapshot, Frames(history, ds));
            Inv(history, c', src', LastAfter(last, ds)) && OneCycle(src', LastAfter(last, ds))
    ensures UntornRead(history, c, last, isSnapshot, ds)
    decreases |ds|
  {
    hide Inv, Stream, Step, OneCycle, FrameOf, Sent, Untorn, Descends;
    src' := src;
    if ds != [] {
      var d := ds[0];
      FitsUntorn(history, c, src, last, d);
      InCycleOrder(c, last, d);
      var src1 := StepKeeps(history, c, src, last, d);
      StaysOne(history, c, src, src1, last, d);
      hide Fits;
      src' := ReadKeeps(history, Step(c, isSnapshot, FrameOf(history, d)), src1, LastOf(last, d), isSnapshot, ds[1..]);
      assert Frames(history, ds)[1..] == Frames(history, ds[1..]);
    }
  }

  lemma InCycleOrder(c: Consumer, last: nat, d: Delivery)
    requires Fits(c, last, d)
    ensures d.Snap? ==> last <= d.cycle
  {
  }

  lemma StaysOne(history: seq<Update>, c: Consumer, src: Origins, src': Origins, last: nat, d: Delivery)
    requires Inv(history, c, src, last) && OneCycle(src, last) && Fits(c, last, d) && Descends(src, src', d)
    ensures OneCycle(src', LastOf(last, d))
  {
  }

  /** An orderly run completes no torn snapshot. */
  lemma {:induction false} OrderlyUntorn(history: seq<Update>, c: Consumer, src: Origins, last: nat, rs: seq<Read>)
    requires Stream(EmptyBooks(), history) && Inv(history, c, src, last) && OneCycle(src, last)
    requires OrderlyRun(history, c, last, rs)
    ensures UntornRun(history, c, last, rs)
    decreases |rs|
  {
    hide Stream, Inv, OneCycle, Orderly, UntornRead, Frames, Sent, StepAll;
    if rs != [] {
      var r := rs[0];
      if r.isSnapshot && !c.inRecovery {
        OrderlyUntorn(history, c, src, last, rs[1..]);
      } else {
        var src' := ReadKeeps(history, c, src, last, r.isSnapshot, r.ds);
        OrderlyUntorn(history, StepAll(c, r.isSnapshot, Frames(history, r.ds)), src', LastAfter(last, r.ds), rs[1..]);
      }
    }
  }

  /**
   * However incrementals are lost, repeated or reordered, and whichever snapshot messages are lost or repeated: a
   * consumer that is not recovering has emitted updates that fold to the books the exchange had after the
   * incrementals it counts as received.
   */
  lemma {:induction false} RecoveryCorrect(history: seq<Update>, rs: seq<Read>)
    requires Stream(EmptyBooks(), history) && OrderlyRun(history, NEW_CONSUMER, 0, rs)
    requires forall i, j :: 0 <= i < |rs| && 0 <= j < |rs[i].ds| ==> Sent(history, rs[i].ds[j])
    ensures var c := Run(history, NEW_CONSUMER, rs);
            !c.inRecovery ==>
              && 0 < c.nextExp <= |history| + 1
              && Fold(EmptyBooks(), c.emitted) == Fold(EmptyBooks(), history[..c.nextExp - 1])
  {
    NothingTraced(history, 0);
    OrderlyUntorn(history, NEW_CONSUMER, map[], 0, rs);
    RecoveryUntorn(history, rs);
  }

  /** End to end: a consumer that has caught up shows the exchange's own books. */
  lemma {:induction false} ReplicaEndToEnd(xs: seq<Incoming>, rs: seq<Read>)
    requires forall i :: 0 <= i < |xs| ==> xs[i].tickerId < ME_MAX_TICKERS
    requires Servable(OpeningMarket(), xs)
    requires var history := UpdatesOf(OpeningMarket(), xs);
             && (forall i, j :: 0 <= i < |rs| && 0 <= j < |rs[i].ds| ==> Sent(history, rs[i].ds[j]))
             && OrderlyRun(history, NEW_CONSUMER, 0, rs)
    ensures var history := UpdatesOf(OpeningMarket(), xs);
            var c := Run(history, NEW_CONSUMER, rs);
            !c.inRecovery && c.nextExp == |history| + 1 ==>
              Fold(EmptyBooks(), c.emitted) == PublicAll(MarketAfter(OpeningMarket(), xs))
  {
    hide Servable, UpdatesOf, OrderlyRun, Sent, MarketOk, MarketAfter, PublicAll, Fold, Run, Stream;
    var history := UpdatesOf(OpeningMarket(), xs);
    NewMarket();
    ExchangeStream(OpeningMarket(), xs);
    RecoveryCorrect(history, rs);
    assert history[..|history|] == history;
  }
}
