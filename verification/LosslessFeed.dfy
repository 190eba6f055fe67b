/** The ordinary case: nothing is lost, and the consumer passes on exactly what the exchange published. */
module LosslessFeed {
  import opened Types
  import opened Sequences
  import opened MarketStream
  import opened Recovery
  import opened RecoveryTheorem
  import opened MarketDataConsumer

  // ----- the consumer itself -----

  function Joined<T>(cuts: seq<seq<T>>): seq<T> {
    if cuts == [] then [] else cuts[0] + Joined(cuts[1..])
  }

  /** However the numbered updates are cut into reads, each is passed on once, in order, and no recovery starts. */
  method Follow(consumer: MarketDataConsumer, cuts: seq<seq<Frame>>, ghost us: seq<Update>)
    requires !consumer.isInRecovery && Joined(cuts) == Numbered(consumer.nextExpIncSeqNum, us)
    modifies consumer
    ensures !consumer.isInRecovery
    ensures consumer.nextExpIncSeqNum == old(consumer.nextExpIncSeqNum) + |us|
    ensures consumer.incomingMdUpdates == old(consumer.incomingMdUpdates) + us
  {
    hide Receive, Consecutive, Carried, Numbered, Joined, Filed, Idle;
    ghost var n: nat := 0;
    assert cuts[0..] == cuts && us[0..] == us;
    for i := 0 to |cuts|
      invariant !consumer.isInRecovery && n <= |us|
      invariant Joined(cuts[i..]) == Numbered(consumer.nextExpIncSeqNum, us[n..])
      invariant consumer.nextExpIncSeqNum == old(consumer.nextExpIncSeqNum) + n
      invariant consumer.incomingMdUpdates == old(consumer.incomingMdUpdates) + us[..n]
    {
      CutNext(consumer.nextExpIncSeqNum, us, n, cuts, i);
      ConcatAssoc(old(consumer.incomingMdUpdates), us[..n], Carried(cuts[i]));
      consumer.RecvCallback(false, cuts[i]);
      n := n + |cuts[i]|;
    }
    CutsEnd(consumer.nextExpIncSeqNum, us, n, cuts);
  }

  /** The next read carries the next updates. */
  lemma CutNext(m: nat, us: seq<Update>, n: nat, cuts: seq<seq<Frame>>, i: nat)
    requires n <= |us| && i < |cuts| && Joined(cuts[i..]) == Numbered(m, us[n..])
    ensures n + |cuts[i]| <= |us| && Consecutive(cuts[i], m)
    ensures us[..n + |cuts[i]|] == us[..n] + Carried(cuts[i])
    ensures Joined(cuts[i + 1..]) == Numbered(m + |cuts[i]|, us[n + |cuts[i]|..])
  {
    hide Consecutive, Carried, Numbered;
    var rest := Joined(cuts[i + 1..]);
    assert cuts[i..][0] == cuts[i] && cuts[i..][1..] == cuts[i + 1..];
    CutNumbered(m, us[n..], cuts[i], rest);
    assert us[n..][|cuts[i]|..] == us[n + |cuts[i]|..];
  }

  lemma CutsEnd(m: nat, us: seq<Update>, n: nat, cuts: seq<seq<Frame>>)
    requires n <= |us| && Joined(cuts[|cuts|..]) == Numbered(m, us[n..])
    ensures n == |us| && us[..n] == us
  {
  }

  /** A numbered sequence of updates, cut in two. */
  lemma CutNumbered(n: nat, us: seq<Update>, fs: seq<Frame>, gs: seq<Frame>)
    requires fs + gs == Numbered(n, us)
    ensures |fs| <= |us| && Consecutive(fs, n) && Carried(fs) == us[..|fs|] && gs == Numbered(n + |fs|, us[|fs|..])
  {
    var all := fs + gs;
    assert forall i :: 0 <= i < |fs| ==> fs[i] == all[i];
    assert forall i :: 0 <= i < |gs| ==> gs[i] == all[|fs| + i];
  }

  // ----- the run, end to end -----

  function Deliveries(rs: seq<Read>): seq<Delivery> {
    if rs == [] then [] else rs[0].ds + Deliveries(rs[1..])
  }

  /** Reads of the incremental socket that deliver the updates after the first k, all of them once and in order. */
  ghost predicate Lossless(history: seq<Update>, rs: seq<Read>, k: nat) {
    && (forall i :: 0 <= i < |rs| ==> !rs[i].isSnapshot)
    && k + |Deliveries(rs)| == |history|
    && forall i :: 0 <= i < |Deliveries(rs)| ==> Deliveries(rs)[i] == Inc(k + 1 + i)
  }

  ghost predicate Incs(history: seq<Update>, ds: seq<Delivery>, k: nat) {
    k + |ds| <= |history| && forall i :: 0 <= i < |ds| ==> ds[i] == Inc(k + 1 + i)
  }

  lemma {:induction false} IncsOrderly(history: seq<Update>, c: Consumer, last: nat, ds: seq<Delivery>, k: nat)
    requires Incs(history, ds, k)
    ensures forall i :: 0 <= i < |ds| ==> Sent(history, ds[i])
    ensures Orderly(history, c, last, false, ds) && LastAfter(last, ds) == last
    decreases |ds|
  {
    if ds != [] {
      assert ds[0] == Inc(k + 1);
      IncsOrderly(history, Step(c, false, FrameOf(history, ds[0])), last, ds[1..], k + 1);
      forall i | 0 <= i < |ds|
        ensures Sent(history, ds[i])
      {
        assert ds[i] == Inc(k + 1 + i);
      }
    }
  }

  lemma {:induction false} IncsRead(history: seq<Update>, c: Consumer, ds: seq<Delivery>, k: nat)
    requires Incs(history, ds, k) && !c.inRecovery && c.nextExp == k + 1
    requires forall i :: 0 <= i < |ds| ==> Sent(history, ds[i])
    ensures StepAll(c, false, Frames(history, ds)) ==
            c.(nextExp := k + 1 + |ds|, emitted := c.emitted + history[k..k + |ds|])
  {
    var fs := Frames(history, ds);
    assert forall i :: 0 <= i < |ds| ==> fs[i] == Frame(k + 1 + i, history[k + i]);
    assert Carried(fs) == history[k..k + |ds|];
    InOrderSteps(c, fs);
  }

  lemma {:induction false} LosslessCut(history: seq<Update>, rs: seq<Read>, k: nat)
    requires Lossless(history, rs, k) && rs != []
    ensures k + |rs[0].ds| <= |history| && Incs(history, rs[0].ds, k) && Lossless(history, rs[1..], k + |rs[0].ds|)
  {
    var all, ds, rest := Deliveries(rs), rs[0].ds, Deliveries(rs[1..]);
    assert all == ds + rest;
    assert forall i :: 0 <= i < |ds| ==> ds[i] == all[i];
    assert forall i :: 0 <= i < |rest| ==> rest[i] == all[|ds| + i];
  }

  lemma {:induction false} LosslessFrom(history: seq<Update>, c: Consumer, last: nat, rs: seq<Read>, k: nat)
    requires Lossless(history, rs, k) && !c.inRecovery && c.nextExp == k + 1
    ensures forall i, j :: 0 <= i < |rs| && 0 <= j < |rs[i].ds| ==> Sent(history, rs[i].ds[j])
    ensures OrderlyRun(history, c, last, rs)
    ensures Run(history, c, rs) == c.(nextExp := |history| + 1, emitted := c.emitted + history[k..])
    decreases |rs|
  {
    hide Orderly, Sent, Frames, LastAfter, Incs, StepAll;
    if rs == [] {
      assert history[k..] == [];
      assert c.emitted + [] == c.emitted;
    } else {
      var ds, m := rs[0].ds, k + |rs[0].ds|;
      LosslessCut(history, rs, k);
      hide Lossless;
      IncsOrderly(history, c, last, ds, k);
      IncsRead(history, c, ds, k);
      var d := c.(nextExp := m + 1, emitted := c.emitted + history[k..m]);
      LosslessFrom(history, d, last, rs[1..], m);
      assert history[k..] == history[k..m] + history[m..];
      assert c.emitted + history[k..m] + history[m..] == c.emitted + history[k..];
    }
  }

  /** A new consumer that is delivered everything passes everything on, counts it, and never recovers. */
  lemma {:induction false} LosslessRun(history: seq<Update>, rs: seq<Read>)
    requires Lossless(history, rs, 0)
    ensures forall i, j :: 0 <= i < |rs| && 0 <= j < |rs[i].ds| ==> Sent(history, rs[i].ds[j])
    ensures OrderlyRun(history, NEW_CONSUMER, 0, rs)
    ensures Run(history, NEW_CONSUMER, rs) == Consumer(|history| + 1, false, map[], map[], history)
  {
    LosslessFrom(history, NEW_CONSUMER, 0, rs, 0);
    assert [] + history[0..] == history;
  }

  /** Hence it shows the exchange's own books. */
  lemma {:induction false} LosslessReplica(xs: seq<Incoming>, rs: seq<Read>)
    requires forall i :: 0 <= i < |xs| ==> xs[i].tickerId < ME_MAX_TICKERS
    requires Servable(OpeningMarket(), xs) && Lossless(UpdatesOf(OpeningMarket(), xs), rs, 0)
    ensures var history := UpdatesOf(OpeningMarket(), xs);
            && (forall i, j :: 0 <= i < |rs| && 0 <= j < |rs[i].ds| ==> Sent(history, rs[i].ds[j]))
            && var c := Run(history, NEW_CONSUMER, rs);
            && !c.inRecovery && c.emitted == history
            && Fold(EmptyBooks(), c.emitted) == PublicAll(MarketAfter(OpeningMarket(), xs))
  {
    hide Servable, UpdatesOf, Lossless, OrderlyRun, Run, Fold, PublicAll, MarketAfter, Sent;
    LosslessRun(UpdatesOf(OpeningMarket(), xs), rs);
    ReplicaEndToEnd(xs, rs);
  }
}
