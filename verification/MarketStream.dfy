/** All instruments together: one update stream, numbered without gaps, and the replicas it rebuilds. */
module MarketStream {
  import opened Types
  import opened Matching
  import opened Guarantees
  import opened Replication

  type Books = seq<Book>

  function EmptyBooks(): (bs: Books)
    ensures |bs| == ME_MAX_TICKERS && forall i :: 0 <= i < |bs| ==> bs[i] == EMPTY_BOOK
  {
    seq(ME_MAX_TICKERS, _ => EMPTY_BOOK)
  }

  function ApplyTo(bs: Books, u: Update): (r: Books)
    ensures |r| == |bs|
  {
    if u.tickerId < |bs| then bs[u.tickerId := Apply(bs[u.tickerId], u)] else bs
  }

  function Fold(bs: Books, us: seq<Update>): (r: Books)
    ensures |r| == |bs|
    decreases |us|
  {
    if us == [] then bs else Fold(ApplyTo(bs, us[0]), us[1..])
  }

  ghost predicate FollowsIn(bs: Books, u: Update) {
    u.tickerId < |bs| && Follows(bs[u.tickerId], u)
  }

  /** A stream an exchange can send from these books on. */
  ghost predicate Stream(bs: Books, us: seq<Update>)
    decreases |us|
  {
    us != [] ==> FollowsIn(bs, us[0]) && Stream(ApplyTo(bs, us[0]), us[1..])
  }

  lemma {:induction false} FoldConcat(bs: Books, us: seq<Update>, vs: seq<Update>)
    ensures Fold(bs, us + vs) == Fold(Fold(bs, us), vs)
    ensures Stream(bs, us + vs) <==> Stream(bs, us) && Stream(Fold(bs, us), vs)
    decreases |us|
  {
    if us == [] {
      assert us + vs == vs;
    } else {
      assert (us + vs)[1..] == us[1..] + vs;
      FoldConcat(ApplyTo(bs, us[0]), us[1..], vs);
    }
  }

  lemma {:induction false} FoldLast(bs: Books, us: seq<Update>, n: nat)
    requires n < |us|
    ensures Fold(bs, us[..n + 1]) == ApplyTo(Fold(bs, us[..n]), us[n])
    ensures Stream(bs, us) ==> Stream(bs, us[..n]) && FollowsIn(Fold(bs, us[..n]), us[n])
  {
    assert us[..n + 1] == us[..n] + [us[n]];
    FoldConcat(bs, us[..n], [us[n]]);
    assert [us[n]][1..] == [];
    assert us == us[..n] + us[n..];
    FoldConcat(bs, us[..n], us[n..]);
  }

  /** Updates of one instrument leave the other replicas alone. */
  lemma {:induction false} FoldOne(bs: Books, t: nat, us: seq<Update>)
    requires t < |bs| && forall i :: 0 <= i < |us| ==> us[i].tickerId == t
    ensures Fold(bs, us) == bs[t := ApplyAll(bs[t], us)]
    ensures FollowsAll(bs[t], us) ==> Stream(bs, us)
    decreases |us|
  {
    if us != [] {
      var bs' := ApplyTo(bs, us[0]);
      FoldOne(bs', t, us[1..]);
      assert bs'[t := ApplyAll(bs'[t], us[1..])] == bs[t := ApplyAll(bs'[t], us[1..])];
    } else {
      assert bs[t := bs[t]] == bs;
    }
  }

  // ----- the exchange's own stream -----

  datatype Incoming = Incoming(tickerId: nat, request: Request)

  type Market = seq<Exchange>

  function OpeningMarket(): (ms: Market)
    ensures |ms| == ME_MAX_TICKERS && forall i :: 0 <= i < |ms| ==> ms[i] == NEW_EXCHANGE
  {
    seq(ME_MAX_TICKERS, _ => NEW_EXCHANGE)
  }

  function PublicAll(ms: Market): (bs: Books)
    ensures |bs| == |ms| && forall i :: 0 <= i < |ms| ==> bs[i] == Public(ms[i].book)
  {
    seq(|ms|, i requires 0 <= i < |ms| => Public(ms[i].book))
  }

  function Serve(ms: Market, x: Incoming): Result
    requires x.tickerId < |ms|
  {
    Process(ms[x.tickerId], x.tickerId, x.request)
  }

  /** The market after serving all requests, and every update sent on the way. */
  function MarketAfter(ms: Market, xs: seq<Incoming>): (r: Market)
    requires forall i :: 0 <= i < |xs| ==> xs[i].tickerId < |ms|
    ensures |r| == |ms|
    decreases |xs|
  {
    if xs == [] then ms else MarketAfter(ms[xs[0].tickerId := Serve(ms, xs[0]).next], xs[1..])
  }

  function UpdatesOf(ms: Market, xs: seq<Incoming>): seq<Update>
    requires forall i :: 0 <= i < |xs| ==> xs[i].tickerId < |ms|
    decreases |xs|
  {
    if xs == [] then []
    else Serve(ms, xs[0]).updates + UpdatesOf(ms[xs[0].tickerId := Serve(ms, xs[0]).next], xs[1..])
  }

  ghost predicate Servable(ms: Market, xs: seq<Incoming>)
    decreases |xs|
  {
    xs != [] ==>
      && xs[0].tickerId < |ms|
      && Admitted(ms[xs[0].tickerId], xs[0].tickerId, xs[0].request)
      && Numberable(ms[xs[0].tickerId], xs[0].request)
      && Servable(ms[xs[0].tickerId := Serve(ms, xs[0]).next], xs[1..])
  }

  ghost predicate MarketOk(ms: Market) {
    forall i :: 0 <= i < |ms| ==> ExchangeOk(ms[i])
  }

  ghost predicate OfTicker(us: seq<Update>, t: nat) {
    forall i :: 0 <= i < |us| ==> us[i].tickerId == t
  }

  lemma {:induction false} MatchTicker(t: nat, a: Aggressor, q: seq<Order>, leaves: nat)
    ensures OfTicker(MatchQueue(t, a, q, leaves).updates, t)
  {
    if leaves > 0 && q != [] && Marketable(a.side, a.price, q[0].price) {
      var fill := Min(leaves, q[0].qty);
      assert OfTicker(Reports(t, a, q[0], fill), t);
      if q[0].qty == fill {
        MatchTicker(t, a, q[1..], leaves - fill);
      }
    }
  }

  lemma ProcessTicker(m: Exchange, t: nat, r: Request)
    ensures OfTicker(Process(m, t, r).updates, t)
  {
    if r.New? {
      MatchTicker(t, IncomingOf(m, r.clientId, r.orderId, r.side, r.price), m.book.Queue(Opposite(r.side)), r.qty);
      assert OfTicker(MatchNew(m, t, r.clientId, r.orderId, r.side, r.price, r.qty).updates, t);
      hide MatchNew;
    }
  }

  lemma ServeReplica(ms: Market, x: Incoming)
    requires MarketOk(ms) && x.tickerId < |ms|
    requires Admitted(ms[x.tickerId], x.tickerId, x.request) && Numberable(ms[x.tickerId], x.request)
    ensures var s := Serve(ms, x);
            && Fold(PublicAll(ms), s.updates) == PublicAll(ms[x.tickerId := s.next])
            && Stream(PublicAll(ms), s.updates)
            && MarketOk(ms[x.tickerId := s.next])
  {
    var t, m := x.tickerId, ms[x.tickerId];
    ProcessReplica(m, t, x.request);
    ProcessTicker(m, t, x.request);
    ProcessKeeps(m, t, x.request);
    hide Process, Public, ExchangeOk;
    FoldOne(PublicAll(ms), t, Serve(ms, x).updates);
  }

  /**
   * For any interleaving of instruments and requests, the updates sent form a well-formed stream, and folding them
   * gives the exchange's books: the same orders in the same places with the same quantities and priorities.
   */
  lemma {:induction false} ExchangeStream(ms: Market, xs: seq<Incoming>)
    requires MarketOk(ms) && forall i :: 0 <= i < |xs| ==> xs[i].tickerId < |ms|
    requires Servable(ms, xs)
    ensures Fold(PublicAll(ms), UpdatesOf(ms, xs)) == PublicAll(MarketAfter(ms, xs))
    ensures Stream(PublicAll(ms), UpdatesOf(ms, xs))
    decreases |xs|
  {
    if xs != [] {
      var s := Serve(ms, xs[0]);
      var ms' := ms[xs[0].tickerId := s.next];
      ServeReplica(ms, xs[0]);
      ExchangeStream(ms', xs[1..]);
      FoldConcat(PublicAll(ms), s.updates, UpdatesOf(ms', xs[1..]));
    }
  }

  lemma NewMarket()
    ensures MarketOk(OpeningMarket()) && PublicAll(OpeningMarket()) == EmptyBooks()
  {
  }

  // ----- numbering -----

  /** Updates numbered consecutively from n. */
  function Numbered(n: nat, us: seq<Update>): (fs: seq<Frame>)
    ensures |fs| == |us| && forall i :: 0 <= i < |us| ==> fs[i] == Frame(n + i, us[i])
  {
    seq(|us|, i requires 0 <= i < |us| => Frame(n + i, us[i]))
  }

  lemma NumberedConcat(n: nat, us: seq<Update>, vs: seq<Update>)
    ensures Numbered(n, us + vs) == Numbered(n, us) + Numbered(n + |us|, vs)
  {
  }

  class MarketDataPublisher {
    /** Updates from the matching engine not yet published. */
    var outgoing: seq<Update>

    /** What went to the incremental multicast stream and what was handed to the snapshot synthesizer. */
    var incremental: seq<Frame>
    var snapshotUpdates: seq<Frame>
    var nextIncSeqNum: nat

    /** The stream so far is numbered 1, 2, 3, ... and the synthesizer was given all of it. */
    ghost predicate Valid()
      reads this
    {
      && nextIncSeqNum == |incremental| + 1
      && snapshotUpdates == incremental
      && (forall i :: 0 <= i < |incremental| ==> incremental[i].seqNum == i + 1)
    }

    constructor ()
      ensures Valid() && outgoing == [] && incremental == []
    {
      outgoing, incremental, snapshotUpdates := [], [], [];
      nextIncSeqNum := 1;
    }

    /** Publish and forward everything the matching engine has queued. */
    method Drain()
      requires Valid()
      modifies this
      ensures Valid()
      ensures outgoing == []
      ensures incremental == old(incremental) + Numbered(old(nextIncSeqNum), old(outgoing))
    {
      ghost var n := 0;
      while outgoing != []
        invariant Valid() && n <= |old(outgoing)|
        invariant outgoing == old(outgoing)[n..] && nextIncSeqNum == old(nextIncSeqNum) + n
        invariant incremental == old(incremental) + Numbered(old(nextIncSeqNum), old(outgoing)[..n])
        decreases |outgoing|
      {
        assert old(outgoing)[..n + 1] == old(outgoing)[..n] + [outgoing[0]];
        NumberedConcat(old(nextIncSeqNum), old(outgoing)[..n], [outgoing[0]]);
        var frame := Frame(nextIncSeqNum, outgoing[0]);
        incremental := incremental + [frame];
        outgoing := outgoing[1..];
        snapshotUpdates := snapshotUpdates + [frame];
        nextIncSeqNum := nextIncSeqNum + 1;
        n := n + 1;
      }
      assert old(outgoing)[..n] == old(outgoing);
    }
  }
}
