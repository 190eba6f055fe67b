/** The order server's receiving side: one socket per client, consecutive numbers, and what reaches the sequencer. */
module OrderServer {
  import opened Types
  import opened Sequences
  import opened Pools
  import opened Wire

  /** A decoded request and the socket it came from. */
  datatype Event = Event(fd: nat, frame: OMRequest)

  /** Per client: the socket it is bound to, if any, and the next number expected of it. */
  datatype Server = Server(sockets: seq<Ptr>, nextExp: seq<nat>)

  predicate Shaped(s: Server) {
    |s.sockets| == ME_MAX_NUM_CLIENTS && |s.nextExp| == ME_MAX_NUM_CLIENTS
  }

  predicate Known(e: Event) {
    e.frame.request.clientId < ME_MAX_NUM_CLIENTS
  }

  /** The first message of a client binds it to the socket it came from. */
  function Bind(s: Server, e: Event): Server
    requires Shaped(s) && Known(e)
  {
    var c := e.frame.request.clientId;
    if s.sockets[c] == NULL then s.(sockets := s.sockets[c := e.fd]) else s
  }

  predicate Takes(s: Server, e: Event)
    requires Shaped(s) && Known(e)
  {
    var c := e.frame.request.clientId;
    Bind(s, e).sockets[c] == e.fd && e.frame.seqNum == s.nextExp[c]
  }

  function Serve(s: Server, e: Event): (t: Server)
    requires Shaped(s) && Known(e)
    ensures Shaped(t)
  {
    var c := e.frame.request.clientId;
    if Takes(s, e) then Bind(s, e).(nextExp := s.nextExp[c := s.nextExp[c] + 1]) else Bind(s, e)
  }

  predicate AllKnown(es: seq<Event>) {
    forall i :: 0 <= i < |es| ==> Known(es[i])
  }

  function ServeAll(s: Server, es: seq<Event>): (t: Server)
    requires Shaped(s) && AllKnown(es)
    ensures Shaped(t)
    decreases |es|
  {
    if es == [] then s else ServeAll(Serve(s, es[0]), es[1..])
  }

  /** The events whose requests are forwarded. */
  function Log(s: Server, es: seq<Event>): seq<Event>
    requires Shaped(s) && AllKnown(es)
    decreases |es|
  {
    if es == [] then [] else (if Takes(s, es[0]) then [es[0]] else []) + Log(Serve(s, es[0]), es[1..])
  }

  /** The events that bear a client's id. */
  function Of(es: seq<Event>, c: nat): seq<Event> {
    if es == [] then [] else (if es[0].frame.request.clientId == c then [es[0]] else []) + Of(es[1..], c)
  }

  /** Those of them that came from one socket. */
  function From(es: seq<Event>, c: nat, fd: nat): seq<Event> {
    if es == [] then []
    else (if es[0].frame.request.clientId == c && es[0].fd == fd then [es[0]] else []) + From(es[1..], c, fd)
  }

  lemma {:induction false} OfConcat(p: seq<Event>, q: seq<Event>, c: nat)
    ensures Of(p + q, c) == Of(p, c) + Of(q, c)
  {
    if p == [] {
      assert p + q == q;
    } else {
      assert (p + q)[1..] == p[1..] + q;
      OfConcat(p[1..], q, c);
      ConcatAssoc(if p[0].frame.request.clientId == c then [p[0]] else [], Of(p[1..], c), Of(q, c));
    }
  }

  lemma {:induction false} OfOne(e: Event, c: nat)
    ensures Of([e], c) == if e.frame.request.clientId == c then [e] else []
  {
  }

  /** What is forwarded for a client comes from one socket and carries consecutive numbers, whatever arrives. */
  ghost predicate InOrder(es: seq<Event>, n: nat) {
    forall i :: 0 <= i < |es| ==> es[i].frame.seqNum == n + i && es[i].fd == es[0].fd
  }

  lemma {:induction false} ForwardedInOrder(s: Server, es: seq<Event>, c: nat)
    requires Shaped(s) && AllKnown(es) && c < ME_MAX_NUM_CLIENTS
    ensures InOrder(Of(Log(s, es), c), s.nextExp[c])
    ensures s.sockets[c] != NULL && Of(Log(s, es), c) != [] ==> Of(Log(s, es), c)[0].fd == s.sockets[c]
    decreases |es|
  {
    if es != [] {
      var e, t := es[0], Serve(s, es[0]);
      ForwardedInOrder(t, es[1..], c);
      var first := if Takes(s, e) then [e] else [];
      OfConcat(first, Log(t, es[1..]), c);
      OfOne(e, c);
    }
  }

  /** The gateway of a client numbers its requests consecutively. */
  ghost predicate NumberedFrom(es: seq<Event>, n: nat) {
    forall i :: 0 <= i < |es| ==> es[i].frame.seqNum == n + i
  }

  lemma {:induction false} FromTail(es: seq<Event>, c: nat, fd: nat, n: nat)
    requires es != [] && NumberedFrom(From(es, c, fd), n)
    ensures if es[0].frame.request.clientId == c && es[0].fd == fd
            then es[0].frame.seqNum == n && From(es, c, fd) == [es[0]] + From(es[1..], c, fd)
                && NumberedFrom(From(es[1..], c, fd), n + 1)
            else From(es, c, fd) == From(es[1..], c, fd)
  {
    var all, rest := From(es, c, fd), From(es[1..], c, fd);
    if es[0].frame.request.clientId == c && es[0].fd == fd {
      assert all == [es[0]] + rest && all[0] == es[0];
      forall i | 0 <= i < |rest|
        ensures rest[i].frame.seqNum == n + 1 + i
      {
        assert all[i + 1] == rest[i];
      }
    }
  }

  /**
   * Whatever the other sockets send, and even if they use this client's id, every request the client's own gateway
   * numbered is forwarded exactly once and in order, provided the client's id is first heard on its own socket.
   */
  lemma {:induction false} ExactlyOnce(s: Server, es: seq<Event>, c: nat, fd: nat)
    requires Shaped(s) && AllKnown(es) && c < ME_MAX_NUM_CLIENTS
    requires s.sockets[c] == fd || (s.sockets[c] == NULL && (Of(es, c) != [] ==> Of(es, c)[0].fd == fd))
    requires NumberedFrom(From(es, c, fd), s.nextExp[c])
    ensures Of(Log(s, es), c) == From(es, c, fd)
    decreases |es|
  {
    if es != [] {
      var e, t := es[0], Serve(s, es[0]);
      var first := if Takes(s, e) then [e] else [];
      OfConcat(first, Log(t, es[1..]), c);
      OfOne(e, c);
      FromTail(es, c, fd, s.nextExp[c]);
      hide Log, From, NumberedFrom;
      ExactlyOnce(t, es[1..], c, fd);
    }
  }

  // ----- the server -----

  function Decoded(fd: nat, fs: seq<seq<Byte>>): (es: seq<Event>)
    requires forall i :: 0 <= i < |fs| ==> |fs[i]| == REQUEST_SIZE
    ensures |es| == |fs| && forall i :: 0 <= i < |fs| ==> es[i] == Event(fd, Decode(fs[i]))
  {
    seq(|fs|, i requires 0 <= i < |fs| => Event(fd, Decode(fs[i])))
  }

  function RequestsOf(es: seq<Event>): (rs: seq<WireRequest>)
    ensures |rs| == |es| && forall i :: 0 <= i < |es| ==> rs[i] == es[i].frame.request
  {
    seq(|es|, i requires 0 <= i < |es| => es[i].frame.request)
  }

  lemma {:induction false} ServeConcat(s: Server, p: seq<Event>, q: seq<Event>)
    requires Shaped(s) && AllKnown(p) && AllKnown(q)
    ensures AllKnown(p + q)
    ensures ServeAll(s, p + q) == ServeAll(ServeAll(s, p), q)
    ensures Log(s, p + q) == Log(s, p) + Log(ServeAll(s, p), q)
    decreases |p|
  {
    if p == [] {
      assert p + q == q;
    } else {
      assert (p + q)[1..] == p[1..] + q;
      ServeConcat(Serve(s, p[0]), p[1..], q);
    }
  }

  // ----- responses -----

  /** A response as sent: the socket, the number and the response. */
  datatype Outgoing = Outgoing(fd: Ptr, frame: OMResponse)

  /** The responses for one client. */
  function OwnResponses(rs: seq<WireResponse>, c: nat): seq<WireResponse> {
    if rs == [] then []
    else OwnResponses(rs[..|rs| - 1], c) + if rs[|rs| - 1].clientId == c then [rs[|rs| - 1]] else []
  }

  /** How many of the responses are for one client. */
  function CountFor(rs: seq<WireResponse>, c: nat): nat {
    if rs == [] then 0 else CountFor(rs[..|rs| - 1], c) + if rs[|rs| - 1].clientId == c then 1 else 0
  }

  lemma {:induction false} OwnCount(rs: seq<WireResponse>, c: nat)
    ensures |OwnResponses(rs, c)| == CountFor(rs, c)
  {
    if rs != [] {
      OwnCount(rs[..|rs| - 1], c);
    }
  }

  predicate Addressed(s: Server, rs: seq<WireResponse>)
    requires Shaped(s)
  {
    forall i :: 0 <= i < |rs| ==> rs[i].clientId < ME_MAX_NUM_CLIENTS && s.sockets[rs[i].clientId] != NULL
  }

  /** Every response goes out on its client's socket, numbered after those for the same client before it. */
  ghost predicate Routed(s: Server, next: seq<nat>, rs: seq<WireResponse>, out: seq<Outgoing>)
    requires Shaped(s)
  {
    && |next| == ME_MAX_NUM_CLIENTS && Addressed(s, rs) && |out| == |rs|
    && forall i :: 0 <= i < |rs| ==>
         var c := rs[i].clientId;
         out[i] == Outgoing(s.sockets[c], OMResponse(next[c] + CountFor(rs[..i], c), rs[i]))
  }

  lemma RoutedBefore(s: Server, next: seq<nat>, rs: seq<WireResponse>, out: seq<Outgoing>)
    requires Shaped(s) && Routed(s, next, rs, out) && rs != []
    ensures Routed(s, next, rs[..|rs| - 1], out[..|rs| - 1])
  {
    var n := |rs| - 1;
    assert forall i :: 0 <= i < n ==> rs[..n][..i] == rs[..i];
  }

  lemma RoutedLast(s: Server, next: seq<nat>, rs: seq<WireResponse>, out: seq<Outgoing>)
    requires Shaped(s) && Routed(s, next, rs, out) && rs != []
    ensures var n, c := |rs| - 1, rs[|rs| - 1].clientId;
            c < ME_MAX_NUM_CLIENTS && |next| == ME_MAX_NUM_CLIENTS && |out| == |rs|
            && out[n] == Outgoing(s.sockets[c], OMResponse(next[c] + CountFor(rs[..n], c), rs[n]))
  {
  }

  lemma {:induction false} RoutedNext(s: Server, next: seq<nat>, rs: seq<WireResponse>, out: seq<Outgoing>,
      r: WireResponse)
    requires Shaped(s) && Routed(s, next, rs, out) && r.clientId < ME_MAX_NUM_CLIENTS && s.sockets[r.clientId] != NULL
    ensures var n := next[r.clientId] + CountFor(rs, r.clientId);
            Routed(s, next, rs + [r], out + [Outgoing(s.sockets[r.clientId], OMResponse(n, r))])
    ensures forall c :: CountFor(rs + [r], c) == CountFor(rs, c) + if c == r.clientId then 1 else 0
  {
    var rs' := rs + [r];
    assert rs'[..|rs|] == rs;
    assert forall i :: 0 <= i < |rs| ==> rs'[..i] == rs[..i];
  }

  class OrderServer {
    const cidTcpSocket: array<Ptr>
    const cidNextExpSeqNum: array<nat>
    const cidNextOutgoingSeqNum: array<nat>

    /** The requests handed to the FIFO sequencer. */
    var pending: seq<WireRequest>

    /** Responses from the matching engine not yet sent, and those sent. */
    var outgoingResponses: seq<WireResponse>
    var sent: seq<Outgoing>

    ghost predicate Valid()
      reads this
    {
      && cidTcpSocket.Length == ME_MAX_NUM_CLIENTS && cidNextExpSeqNum.Length == ME_MAX_NUM_CLIENTS
      && cidNextOutgoingSeqNum.Length == ME_MAX_NUM_CLIENTS
      && cidTcpSocket as object != cidNextExpSeqNum && cidTcpSocket as object != cidNextOutgoingSeqNum
      && cidNextExpSeqNum != cidNextOutgoingSeqNum
    }

    ghost function View(): (s: Server)
      requires Valid()
      reads this, cidTcpSocket, cidNextExpSeqNum
      ensures Shaped(s)
    {
      Server(cidTcpSocket[..], cidNextExpSeqNum[..])
    }

    constructor ()
      ensures Valid() && View() == NewServer() && pending == [] && outgoingResponses == [] && sent == []
      ensures forall c :: 0 <= c < ME_MAX_NUM_CLIENTS ==> cidNextOutgoingSeqNum[c] == 1
      ensures fresh(cidTcpSocket) && fresh(cidNextExpSeqNum) && fresh(cidNextOutgoingSeqNum)
    {
      cidTcpSocket := new Ptr[ME_MAX_NUM_CLIENTS](_ => NULL);
      cidNextExpSeqNum := new nat[ME_MAX_NUM_CLIENTS](_ => 1);
      cidNextOutgoingSeqNum := new nat[ME_MAX_NUM_CLIENTS](_ => 1);
      pending, outgoingResponses, sent := [], [], [];
    }

    /** Send every queued response, numbered for its client, on the client's socket. */
    method Run()
      requires Valid() && Addressed(View(), outgoingResponses)
      modifies this`outgoingResponses, this`sent, cidNextOutgoingSeqNum
      ensures View() == old(View()) && outgoingResponses == [] && |sent| >= |old(sent)|
      ensures sent[..|old(sent)|] == old(sent)
      ensures Routed(View(), old(cidNextOutgoingSeqNum[..]), old(outgoingResponses), sent[|old(sent)|..])
      ensures forall c :: 0 <= c < ME_MAX_NUM_CLIENTS ==>
                cidNextOutgoingSeqNum[c] == old(cidNextOutgoingSeqNum[c]) + CountFor(old(outgoingResponses), c)
    {
      hide CountFor, Routed;
      ghost var all, next, out, k := outgoingResponses, cidNextOutgoingSeqNum[..], [], 0;
      RoutedNone(View(), next);
      while outgoingResponses != []
        invariant k <= |all| && outgoingResponses == all[k..] && sent == old(sent) + out
        invariant Routed(View(), next, all[..k], out)
        invariant forall c :: 0 <= c < ME_MAX_NUM_CLIENTS ==>
                    cidNextOutgoingSeqNum[c] == next[c] + CountFor(all[..k], c)
        decreases |outgoingResponses|
      {
        var clientResponse := outgoingResponses[0];
        var c := clientResponse.clientId;
        assert clientResponse == all[k];
        RoutedNext(View(), next, all[..k], out, clientResponse);
        assert all[..k + 1] == all[..k] + [clientResponse];
        var outgoing := Outgoing(cidTcpSocket[c], OMResponse(cidNextOutgoingSeqNum[c], clientResponse));
        ConcatAssoc(old(sent), out, [outgoing]);
        sent := sent + [outgoing];
        out := out + [outgoing];
        outgoingResponses := outgoingResponses[1..];
        cidNextOutgoingSeqNum[c] := cidNextOutgoingSeqNum[c] + 1;
        k := k + 1;
      }
      assert all[..k] == all && sent[|old(sent)|..] == out;
    }

    /** One decoded request: bind the client, check socket and number, forward. */
    method Process(fd: nat, frame: OMRequest)
      requires Valid() && Known(Event(fd, frame))
      modifies this`pending, cidTcpSocket, cidNextExpSeqNum
      ensures var c := frame.request.clientId;
              var socket := if old(cidTcpSocket[c]) == NULL then fd else old(cidTcpSocket[c]);
              var taken := socket == fd && frame.seqNum == old(cidNextExpSeqNum[c]);
              && cidTcpSocket[..] == old(cidTcpSocket[..])[c := socket]
              && cidNextExpSeqNum[..] ==
                   old(cidNextExpSeqNum[..])[c := old(cidNextExpSeqNum[c]) + if taken then 1 else 0]
              && pending == old(pending) + if taken then [frame.request] else []
      ensures View() == Serve(old(View()), Event(fd, frame))
      ensures pending == old(pending) + if Takes(old(View()), Event(fd, frame)) then [frame.request] else []
    {
      var c := frame.request.clientId;
      if cidTcpSocket[c] == NULL {
        cidTcpSocket[c] := fd;
      }
      if cidTcpSocket[c] == fd && frame.seqNum == cidNextExpSeqNum[c] {
        cidNextExpSeqNum[c] := cidNextExpSeqNum[c] + 1;
        pending := pending + [frame.request];
      }
    }

    /** Process every complete frame a socket holds and keep the remainder. */
    method RecvCallback(socket: TcpSocket)
      requires Valid() && socket.Valid()
      requires socket.recvBuffer as object != cidTcpSocket && socket.recvBuffer as object != cidNextExpSeqNum
      requires AllKnown(Decoded(socket.fd, Frames(socket.Contents(), REQUEST_SIZE)))
      modifies this`pending, cidTcpSocket, cidNextExpSeqNum, socket`nextRecvValidIndex, socket.recvBuffer
      ensures socket.Valid() && socket.Contents() == Rest(old(socket.Contents()), REQUEST_SIZE)
      ensures var es := Decoded(socket.fd, Frames(old(socket.Contents()), REQUEST_SIZE));
              && View() == ServeAll(old(View()), es)
              && pending == old(pending) + RequestsOf(Log(old(View()), es))
    {
      hide Decode, Serve, Takes, ServeAll, Log, Frames, Rest;
      ghost var bytes := socket.Contents();
      FramesShort(bytes);
      ServeNothing(View());
      if socket.nextRecvValidIndex >= REQUEST_SIZE {
        var i := ProcessFrames(socket);
        socket.Consume(i);
      }
    }

    /** Process the complete frames; what remains is shorter than what was processed. */
    method ProcessFrames(socket: TcpSocket) returns (i: nat)
      requires Valid() && socket.Valid() && socket.nextRecvValidIndex >= REQUEST_SIZE
      requires socket.recvBuffer as object != cidTcpSocket && socket.recvBuffer as object != cidNextExpSeqNum
      requires AllKnown(Decoded(socket.fd, Frames(socket.Contents(), REQUEST_SIZE)))
      modifies this`pending, cidTcpSocket, cidNextExpSeqNum
      ensures i <= |socket.Contents()| < i + REQUEST_SIZE <= i + i
      ensures socket.Contents()[i..] == Rest(socket.Contents(), REQUEST_SIZE)
      ensures var es := Decoded(socket.fd, Frames(socket.Contents(), REQUEST_SIZE));
              && View() == ServeAll(old(View()), es)
              && pending == old(pending) + RequestsOf(Log(old(View()), es))
    {
      hide Progress, Decode, Serve, Takes, ServeAll, Log, Frames, Rest;
      ghost var bytes, s0, done: seq<Event> := socket.Contents(), View(), [];
      ProgressStart(socket.fd, bytes, s0);
      i := 0;
      while i + REQUEST_SIZE <= socket.nextRecvValidIndex
        invariant 0 <= i <= |bytes| && (i > 0 ==> i >= REQUEST_SIZE)
        invariant AllKnown(done) && Progress(socket.fd, bytes, i, done)
        invariant View() == ServeAll(s0, done) && pending == old(pending) + RequestsOf(Log(s0, done))
      {
        ProgressStep(socket.fd, bytes, i, done);
        var frame := Decode(socket.recvBuffer[i..i + REQUEST_SIZE]);
        assert socket.recvBuffer[i..i + REQUEST_SIZE] == bytes[i..i + REQUEST_SIZE];
        ServeMore(s0, done, Event(socket.fd, frame));
        Process(socket.fd, frame);
        done := done + [Event(socket.fd, frame)];
        i := i + REQUEST_SIZE;
      }
      ProgressEnd(socket.fd, bytes, i, done);
    }
  }

  lemma RoutedNone(s: Server, next: seq<nat>)
    requires Shaped(s) && |next| == ME_MAX_NUM_CLIENTS
    ensures Routed(s, next, [], []) && forall c :: CountFor([], c) == 0
  {
  }

  lemma {:induction false} ServeNothing(s: Server)
    requires Shaped(s)
    ensures ServeAll(s, []) == s && Log(s, []) == []
  {
  }

  /** So much of the bytes has been decoded. */
  ghost predicate Progress(fd: nat, bytes: seq<Byte>, i: nat, done: seq<Event>) {
    && i <= |bytes|
    && done + Decoded(fd, Frames(bytes[i..], REQUEST_SIZE)) == Decoded(fd, Frames(bytes, REQUEST_SIZE))
    && Rest(bytes[i..], REQUEST_SIZE) == Rest(bytes, REQUEST_SIZE)
  }

  lemma {:induction false} ProgressStart(fd: nat, bytes: seq<Byte>, s: Server)
    requires Shaped(s)
    ensures Progress(fd, bytes, 0, []) && ServeAll(s, []) == s && Log(s, []) == []
  {
  }

  lemma {:induction false} ProgressStep(fd: nat, bytes: seq<Byte>, i: nat, done: seq<Event>)
    requires Progress(fd, bytes, i, done) && i + REQUEST_SIZE <= |bytes|
    requires AllKnown(Decoded(fd, Frames(bytes, REQUEST_SIZE)))
    ensures var e := Event(fd, Decode(bytes[i..i + REQUEST_SIZE]));
            Known(e) && Progress(fd, bytes, i + REQUEST_SIZE, done + [e])
  {
    hide Decode, Frames, Rest;
    var e := Event(fd, Decode(bytes[i..i + REQUEST_SIZE]));
    FramesFirst(fd, bytes[i..]);
    assert bytes[i..][..REQUEST_SIZE] == bytes[i..i + REQUEST_SIZE];
    assert bytes[i..][REQUEST_SIZE..] == bytes[i + REQUEST_SIZE..];
    assert Decoded(fd, Frames(bytes, REQUEST_SIZE))[|done|] == e;
  }

  lemma {:induction false} ProgressEnd(fd: nat, bytes: seq<Byte>, i: nat, done: seq<Event>)
    requires Progress(fd, bytes, i, done) && i <= |bytes| < i + REQUEST_SIZE
    ensures done == Decoded(fd, Frames(bytes, REQUEST_SIZE)) && bytes[i..] == Rest(bytes, REQUEST_SIZE)
  {
  }

  lemma {:induction false} ServeMore(s: Server, done: seq<Event>, e: Event)
    requires Shaped(s) && AllKnown(done) && Known(e)
    ensures AllKnown(done + [e]) && ServeAll(s, done + [e]) == Serve(ServeAll(s, done), e)
    ensures RequestsOf(Log(s, done + [e])) ==
            RequestsOf(Log(s, done)) + if Takes(ServeAll(s, done), e) then [e.frame.request] else []
  {
    ServeOne(ServeAll(s, done), e);
    ServeConcat(s, done, [e]);
    RequestsConcat(Log(s, done), Log(ServeAll(s, done), [e]));
  }

  lemma {:induction false} FramesShort(b: seq<Byte>)
    ensures |b| < REQUEST_SIZE ==> Frames(b, REQUEST_SIZE) == [] && Rest(b, REQUEST_SIZE) == b
  {
  }

  lemma {:induction false} FramesFirst(fd: nat, b: seq<Byte>)
    requires |b| >= REQUEST_SIZE
    ensures Decoded(fd, Frames(b, REQUEST_SIZE)) ==
            [Event(fd, Decode(b[..REQUEST_SIZE]))] + Decoded(fd, Frames(b[REQUEST_SIZE..], REQUEST_SIZE))
    ensures Rest(b, REQUEST_SIZE) == Rest(b[REQUEST_SIZE..], REQUEST_SIZE)
  {
  }

  lemma {:induction false} ServeOne(s: Server, e: Event)
    requires Shaped(s) && Known(e)
    ensures AllKnown([e]) && ServeAll(s, [e]) == Serve(s, e)
    ensures Log(s, [e]) == if Takes(s, e) then [e] else []
  {
  }

  lemma RequestsConcat(p: seq<Event>, q: seq<Event>)
    ensures RequestsOf(p + q) == RequestsOf(p) + RequestsOf(q)
  {
  }

  function NewServer(): (s: Server)
    ensures Shaped(s)
    ensures forall c :: 0 <= c < ME_MAX_NUM_CLIENTS ==> s.sockets[c] == NULL && s.nextExp[c] == 1
  {
    Server(seq(ME_MAX_NUM_CLIENTS, _ => NULL), seq(ME_MAX_NUM_CLIENTS, _ => 1))
  }
}
