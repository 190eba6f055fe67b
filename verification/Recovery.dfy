/**
 * Gap detection and recovery at the receiving end of the market data stream, as a step function over received frames.
 */
module Recovery {
  import opened Types

  type Queued = map<nat, Update>

  datatype Consumer = Consumer(nextExp: nat, inRecovery: bool, snaps: Queued, incs: Queued, emitted: seq<Update>)

  const NEW_CONSUMER := Consumer(1, false, map[], map[], [])

  // ----- one check for a completed recovery -----

  predicate IsBound(u: Update) {
    u.kind == SNAPSHOT_START || u.kind == SNAPSHOT_END
  }

  /** The updates that are passed on. */
  function Payload(us: seq<Update>): seq<Update> {
    if us == [] then [] else (if IsBound(us[0]) then [] else [us[0]]) + Payload(us[1..])
  }

  predicate IsLowest(s: set<nat>, x: nat) {
    x in s && forall y :: y in s ==> x <= y
  }

  lemma LowestExists(s: set<nat>, bound: nat)
    requires bound in s
    ensures exists x :: IsLowest(s, x)
    decreases bound
  {
    if y :| y in s && y < bound {
      LowestExists(s, y);
    } else {
      assert IsLowest(s, bound);
    }
  }

  lemma HasLowest(s: set<nat>)
    requires s != {}
    ensures exists x :: IsLowest(s, x)
  {
    var b :| b in s;
    LowestExists(s, b);
  }

  function Lowest(s: set<nat>): (x: nat)
    requires s != {}
    ensures IsLowest(s, x)
  {
    HasLowest(s);
    var x :| IsLowest(s, x);
    x
  }

  /** The keys are 0, 1, 2, ... without a hole. */
  predicate Gapless(q: Queued) {
    forall k :: k in q ==> k < |q|
  }

  predicate Has(q: Queued, n: nat, m: nat) {
    forall k :: n <= k < m ==> k in q
  }

  /** The queue's messages at n, n+1, ... below m. */
  function Slice(q: Queued, n: nat, m: nat): seq<Update>
    requires Has(q, n, m)
    decreases m - n
  {
    if n >= m then [] else [q[n]] + Slice(q, n + 1, m)
  }

  function From(q: Queued, n: nat): (s: set<nat>)
    ensures forall k :: k in s <==> k in q && n <= k
  {
    set k | k in q.Keys && n <= k
  }

  /** The first number from n on that is not queued. */
  function Reach(q: Queued, n: nat): (m: nat)
    ensures n <= m && m !in q && Has(q, n, m)
    decreases From(q, n)
  {
    if n in q then
      assert n in From(q, n) && n !in From(q, n + 1) && From(q, n + 1) <= From(q, n);
      Reach(q, n + 1)
    else n
  }

  /** A queued snapshot from its START to its END. */
  predicate Complete(q: Queued) {
    q != map[] && Gapless(q) && |q| - 1 in q && q[|q| - 1].kind == SNAPSHOT_END
  }

  /** The first incremental number the snapshot does not cover. */
  function FirstAfter(q: Queued): nat
    requires Complete(q)
  {
    q[|q| - 1].orderId + 1
  }

  function Messages(q: Queued): seq<Update>
    requires Gapless(q)
  {
    KeysBelow(q);
    Slice(q, 0, |q|)
  }

  lemma KeysBelow(q: Queued)
    requires Gapless(q)
    ensures forall k: nat :: k < |q| ==> k in q
  {
    Filled(q.Keys, |q|);
  }

  /** n numbers below n are all of them. */
  lemma {:induction false} Filled(s: set<nat>, n: nat)
    requires |s| == n && forall k :: k in s ==> k < n
    ensures forall k: nat :: k < n ==> k in s
  {
    if n > 0 {
      if n - 1 in s {
        Filled(s - {n - 1}, n - 1);
      } else {
        TooMany(s, n - 1);
      }
    }
  }

  lemma {:induction false} TooMany(s: set<nat>, n: nat)
    requires forall k :: k in s ==> k < n
    ensures |s| <= n
  {
    if n > 0 {
      TooMany(s - {n - 1}, n - 1);
    } else {
      assert forall k :: k in s ==> false;
      assert s == {};
    }
  }

  lemma {:induction false} SliceIs(q: Queued, n: nat, m: nat)
    requires Has(q, n, m) && n <= m
    ensures |Slice(q, n, m)| == m - n && forall i :: 0 <= i < m - n ==> Slice(q, n, m)[i] == q[n + i]
    decreases m - n
  {
    if n < m {
      SliceIs(q, n + 1, m);
      forall i | 0 <= i < m - n
        ensures Slice(q, n, m)[i] == q[n + i]
      {
        if i > 0 {
          assert Slice(q, n, m)[i] == Slice(q, n + 1, m)[i - 1] == q[n + 1 + (i - 1)];
        }
      }
    }
  }

  lemma {:induction false} PayloadConcat(us: seq<Update>, vs: seq<Update>)
    ensures Payload(us + vs) == Payload(us) + Payload(vs)
  {
    if us == [] {
      assert us + vs == vs;
    } else {
      assert (us + vs)[1..] == us[1..] + vs;
      PayloadConcat(us[1..], vs);
    }
  }

  predicate QueuedBeyond(q: Queued, n: nat) {
    exists k :: k in q && n < k
  }

  /** What a check of the two queues does. */
  function CheckSync(c: Consumer): Consumer {
    if c.snaps == map[] then c
    else if c.snaps[Lowest(c.snaps.Keys)].kind != SNAPSHOT_START || !Gapless(c.snaps) then c.(snaps := map[])
    else if !Complete(c.snaps) then c
    else
      var first := FirstAfter(c.snaps);
      var next := Reach(c.incs, first);
      if QueuedBeyond(c.incs, next) then c.(nextExp := next, snaps := map[])
      else
        Consumer(next, false, map[], map[],
                 c.emitted + Payload(Messages(c.snaps)) + Payload(Slice(c.incs, first, next)))
  }

  /** Queue one message; a snapshot message seen twice starts the snapshot queue over. */
  function Enqueue(c: Consumer, isSnapshot: bool, f: Frame): Consumer {
    if isSnapshot then
      var kept := if f.seqNum in c.snaps then map[] else c.snaps;
      c.(snaps := kept[f.seqNum := f.update])
    else c.(incs := c.incs[f.seqNum := f.update])
  }

  /** Both queues start empty when recovery begins. */
  function StartRecovery(c: Consumer): Consumer {
    Consumer(c.nextExp, true, map[], map[], c.emitted)
  }

  /** One received frame. */
  function Step(c: Consumer, isSnapshot: bool, f: Frame): Consumer {
    if c.inRecovery then CheckSync(Enqueue(c, isSnapshot, f))
    else if f.seqNum != c.nextExp then CheckSync(Enqueue(StartRecovery(c), isSnapshot, f))
    else if isSnapshot then c
    else c.(nextExp := c.nextExp + 1, emitted := c.emitted + [f.update])
  }

  function StepAll(c: Consumer, isSnapshot: bool, fs: seq<Frame>): Consumer
    decreases |fs|
  {
    if fs == [] then c else StepAll(Step(c, isSnapshot, fs[0]), isSnapshot, fs[1..])
  }

  /** One read of a socket: snapshot data that was not asked for is dropped whole. */
  function Receive(c: Consumer, isSnapshot: bool, fs: seq<Frame>): Consumer {
    if isSnapshot && !c.inRecovery then c else StepAll(c, isSnapshot, fs)
  }

  // ----- what a read comes to -----

  /** The updates that frames carry. */
  function Carried(fs: seq<Frame>): (us: seq<Update>)
    ensures |us| == |fs| && forall i :: 0 <= i < |fs| ==> us[i] == fs[i].update
  {
    seq(|fs|, i requires 0 <= i < |fs| => fs[i].update)
  }

  /** Frames numbered n, n+1, ... */
  predicate Consecutive(fs: seq<Frame>, n: nat) {
    forall i :: 0 <= i < |fs| ==> fs[i].seqNum == n + i
  }

  /** A queue with frames added by their numbers; of two with one number the later one stays. */
  function Filed(q: Queued, fs: seq<Frame>): Queued
    decreases |fs|
  {
    if fs == [] then q else Filed(q[fs[0].seqNum := fs[0].update], fs[1..])
  }

  /** No snapshot message is queued, or a START and what follows it without a hole, still without an END. */
  predicate Idle(q: Queued) {
    q != map[] ==> 0 in q && q[0].kind == SNAPSHOT_START && Gapless(q) && !Complete(q)
  }

  lemma {:induction false} InOrderSteps(c: Consumer, fs: seq<Frame>)
    requires !c.inRecovery && Consecutive(fs, c.nextExp)
    ensures StepAll(c, false, fs) == c.(nextExp := c.nextExp + |fs|, emitted := c.emitted + Carried(fs))
    decreases |fs|
  {
    if fs == [] {
      assert Carried(fs) == [];
    } else {
      var c' := Step(c, false, fs[0]);
      InOrderSteps(c', fs[1..]);
      assert Carried(fs) == [fs[0].update] + Carried(fs[1..]);
      ConcatOne(c.emitted, fs[0].update, Carried(fs[1..]));
    }
  }

  lemma ConcatOne(us: seq<Update>, u: Update, vs: seq<Update>)
    ensures us + [u] + vs == us + ([u] + vs)
  {
  }

  /** While recovering, without an END in sight, incrementals are only queued. */
  lemma {:induction false} FiledSteps(c: Consumer, fs: seq<Frame>)
    requires c.inRecovery && Idle(c.snaps)
    ensures StepAll(c, false, fs) == c.(incs := Filed(c.incs, fs))
    decreases |fs|
  {
    if fs != [] {
      IdleCheck(Enqueue(c, false, fs[0]));
      FiledSteps(Step(c, false, fs[0]), fs[1..]);
    }
  }

  lemma IdleCheck(c: Consumer)
    requires Idle(c.snaps)
    ensures CheckSync(c) == c
  {
    if c.snaps != map[] {
      assert IsLowest(c.snaps.Keys, 0) && IsLowest(c.snaps.Keys, Lowest(c.snaps.Keys));
    }
  }

  /** The first frame out of order starts a recovery, with it and all later ones queued. */
  lemma {:induction false} BrokenSteps(c: Consumer, fs: seq<Frame>, j: nat)
    requires !c.inRecovery && j < |fs| && Consecutive(fs[..j], c.nextExp) && fs[j].seqNum != c.nextExp + j
    ensures StepAll(c, false, fs) ==
            Consumer(c.nextExp + j, true, map[], Filed(map[], fs[j..]), c.emitted + Carried(fs[..j]))
  {
    StepsConcat(c, fs[..j], fs[j..]);
    assert fs == fs[..j] + fs[j..];
    InOrderSteps(c, fs[..j]);
    var d := StepAll(c, false, fs[..j]);
    var e := Enqueue(StartRecovery(d), false, fs[j]);
    IdleCheck(e);
    assert fs[j..][0] == fs[j];
    FiledSteps(e, fs[j..][1..]);
  }

  lemma {:induction false} StepsConcat(c: Consumer, fs: seq<Frame>, gs: seq<Frame>)
    ensures StepAll(c, false, fs + gs) == StepAll(StepAll(c, false, fs), false, gs)
    decreases |fs|
  {
    if fs == [] {
      assert fs + gs == gs;
    } else {
      assert (fs + gs)[1..] == fs[1..] + gs;
      StepsConcat(Step(c, false, fs[0]), fs[1..], gs);
    }
  }
}
