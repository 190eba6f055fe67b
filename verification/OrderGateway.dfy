/** The client's order gateway: numbering and sending requests, filtering responses, and the way to the order server. */
module OrderGateway {
  import opened Types
  import opened Sequences
  import opened Pools
  import opened Wire
  import opened OrderServer

  /** Requests numbered consecutively from n, as bytes. */
  function Stream(n: nat, rs: seq<WireRequest>): seq<Byte>
    decreases |rs|
  {
    if rs == [] then [] else Encode(OMRequest(n, rs[0])) + Stream(n + 1, rs[1..])
  }

  lemma {:induction false} StreamLast(n: nat, rs: seq<WireRequest>, r: WireRequest)
    ensures Stream(n, rs + [r]) == Stream(n, rs) + Encode(OMRequest(n + |rs|, r))
    decreases |rs|
  {
    hide Encode;
    if rs == [] {
      assert rs + [r] == [r] && [r][1..] == [];
    } else {
      assert (rs + [r])[1..] == rs[1..] + [r];
      StreamLast(n + 1, rs[1..], r);
    }
  }

  lemma {:induction false} NothingSent(n: nat)
    ensures Stream(n, []) == []
  {
  }

  // ----- responses -----

  /** The responses that pass the gateway's checks: its own client's, in number order. */
  function Passed(c: nat, n: nat, fs: seq<OMResponse>): seq<WireResponse>
    decreases |fs|
  {
    if fs == [] then []
    else if fs[0].response.clientId == c && fs[0].seqNum == n then [fs[0].response] + Passed(c, n + 1, fs[1..])
    else Passed(c, n, fs[1..])
  }

  lemma {:induction false} PassedLast(c: nat, n: nat, fs: seq<OMResponse>, f: OMResponse)
    ensures Passed(c, n, fs + [f]) ==
            Passed(c, n, fs) + if f.response.clientId == c && f.seqNum == n + |Passed(c, n, fs)| then [f.response]
                else []
    decreases |fs|
  {
    if fs == [] {
      assert fs + [f] == [f] && [f][1..] == [];
    } else {
      assert (fs + [f])[1..] == fs[1..] + [f];
      if fs[0].response.clientId == c && fs[0].seqNum == n {
        PassedLast(c, n + 1, fs[1..], f);
      } else {
        PassedLast(c, n, fs[1..], f);
      }
    }
  }

  /**
   * The responses at these places are forwarded: each bears the client's id and the next number expected, and none that
   * does is passed over.
   */
  ghost predicate Picked(c: nat, n: nat, fs: seq<OMResponse>, at: seq<nat>) {
    && (forall i :: 0 <= i < |at| ==>
          at[i] < |fs| && fs[at[i]].response.clientId == c && fs[at[i]].seqNum == n + i)
    && (forall i, j :: 0 <= i < j < |at| ==> at[i] < at[j])
    && (forall i, k :: 0 <= k < |fs| && Between(at, i, k) ==> Skipped(c, n, fs[k], i))
  }

  /** k comes after i of the places and before the others. */
  predicate Between(at: seq<nat>, i: int, k: int) {
    0 <= i <= |at| && (i > 0 ==> at[i - 1] < k) && (i < |at| ==> k < at[i])
  }

  predicate Skipped(c: nat, n: nat, f: OMResponse, i: int) {
    f.response.clientId != c || f.seqNum != n + i
  }

  lemma PickedMore(c: nat, n: nat, fs: seq<OMResponse>, f: OMResponse, at: seq<nat>)
    requires Picked(c, n, fs, at) && f.response.clientId == c && f.seqNum == n + |at|
    ensures Picked(c, n, fs + [f], at + [|fs|])
  {
    var gs, all := fs + [f], at + [|fs|];
    forall i, k | 0 <= k < |gs| && Between(all, i, k)
      ensures Skipped(c, n, gs[k], i)
    {
      assert gs[k] == fs[k] && Between(at, i, k);
    }
  }

  lemma PickedSame(c: nat, n: nat, fs: seq<OMResponse>, f: OMResponse, at: seq<nat>)
    requires Picked(c, n, fs, at) && Skipped(c, n, f, |at|)
    ensures Picked(c, n, fs + [f], at)
  {
    var gs := fs + [f];
    forall i, k | 0 <= k < |gs| && Between(at, i, k)
      ensures Skipped(c, n, gs[k], i)
    {
      assert k < |fs| ==> gs[k] == fs[k];
    }
  }

  /** What passes the gateway's checks, and nothing else does. */
  lemma {:induction false} PassedAt(c: nat, n: nat, fs: seq<OMResponse>) returns (at: seq<nat>)
    ensures Picked(c, n, fs, at)
    ensures |Passed(c, n, fs)| == |at|
    ensures forall i :: 0 <= i < |at| ==> Passed(c, n, fs)[i] == fs[at[i]].response
    decreases |fs|
  {
    if fs == [] {
      at := [];
    } else {
      hide Picked, Passed;
      var f, rest := fs[|fs| - 1], fs[..|fs| - 1];
      at := PassedAt(c, n, rest);
      PassedLast(c, n, rest, f);
      assert fs == rest + [f];
      assert forall k :: 0 <= k < |rest| ==> fs[k] == rest[k];
      if f.response.clientId == c && f.seqNum == n + |at| {
        PickedMore(c, n, rest, f, at);
        at := at + [|rest|];
      } else {
        PickedSame(c, n, rest, f, at);
      }
    }
  }

  /** What the order server numbers for this client passes whole. */
  lemma {:induction false} NumberedPass(c: nat, n: nat, fs: seq<OMResponse>)
    requires forall i :: 0 <= i < |fs| ==> fs[i].response.clientId == c && fs[i].seqNum == n + i
    ensures |Passed(c, n, fs)| == |fs| && forall i :: 0 <= i < |fs| ==> Passed(c, n, fs)[i] == fs[i].response
    decreases |fs|
  {
    if fs != [] {
      NumberedPass(c, n + 1, fs[1..]);
    }
  }

  class OrderGateway {
    const clientId: nat

    /** Requests from the trade engine not yet sent, and the bytes handed to the connection. */
    var outgoingRequests: seq<WireRequest>
    var sent: seq<Byte>
    var nextOutgoingSeqNum: nat

    /** Responses forwarded to the trade engine. */
    var incomingResponses: seq<WireResponse>
    var nextExpSeqNum: nat

    constructor (clientId: nat)
      ensures this.clientId == clientId && outgoingRequests == [] && sent == [] && incomingResponses == []
      ensures nextOutgoingSeqNum == 1 && nextExpSeqNum == 1
    {
      this.clientId := clientId;
      outgoingRequests, sent, incomingResponses := [], [], [];
      nextOutgoingSeqNum, nextExpSeqNum := 1, 1;
    }

    method Send(b: seq<Byte>)
      modifies this`sent
      ensures sent == old(sent) + b
    {
      sent := sent + b;
    }

    /** Send everything the trade engine has queued. */
    method Run()
      modifies this`outgoingRequests, this`sent, this`nextOutgoingSeqNum
      ensures outgoingRequests == [] && nextOutgoingSeqNum == old(nextOutgoingSeqNum) + |old(outgoingRequests)|
      ensures sent == old(sent) + Stream(old(nextOutgoingSeqNum), old(outgoingRequests))
    {
      hide Stream, ToBytes, EncodeBody;
      ghost var all, k := outgoingRequests, 0;
      NothingSent(nextOutgoingSeqNum);
      while outgoingRequests != []
        invariant k <= |all| && outgoingRequests == all[k..] && nextOutgoingSeqNum == old(nextOutgoingSeqNum) + k
        invariant sent == old(sent) + Stream(old(nextOutgoingSeqNum), all[..k])
        decreases |outgoingRequests|
      {
        var clientRequest := outgoingRequests[0];
        StreamLast(old(nextOutgoingSeqNum), all[..k], clientRequest);
        assert all[..k + 1] == all[..k] + [clientRequest];
        Send(ToBytes(nextOutgoingSeqNum, 8));
        Send(EncodeBody(clientRequest));
        ConcatAssoc(old(sent) + Stream(old(nextOutgoingSeqNum), all[..k]), ToBytes(nextOutgoingSeqNum, 8),
            EncodeBody(clientRequest));
        ConcatAssoc(old(sent), Stream(old(nextOutgoingSeqNum), all[..k]),
            Encode(OMRequest(nextOutgoingSeqNum, clientRequest)));
        outgoingRequests := outgoingRequests[1..];
        nextOutgoingSeqNum := nextOutgoingSeqNum + 1;
        k := k + 1;
      }
      assert all[..k] == all;
    }

    /** Forward the responses that are this client's and in order. */
    method RecvCallback(responses: seq<OMResponse>)
      modifies this`incomingResponses, this`nextExpSeqNum
      ensures var passed := Passed(clientId, old(nextExpSeqNum), responses);
              incomingResponses == old(incomingResponses) + passed && nextExpSeqNum == old(nextExpSeqNum) + |passed|
    {
      ghost var n := nextExpSeqNum;
      for i := 0 to |responses|
        invariant incomingResponses == old(incomingResponses) + Passed(clientId, n, responses[..i])
        invariant nextExpSeqNum == n + |Passed(clientId, n, responses[..i])|
      {
        var f := responses[i];
        PassedLast(clientId, n, responses[..i], f);
        assert responses[..i + 1] == responses[..i] + [f];
        if f.response.clientId == clientId && f.seqNum == nextExpSeqNum {
          nextExpSeqNum := nextExpSeqNum + 1;
          incomingResponses := incomingResponses + [f.response];
        }
      }
      assert responses[..|responses|] == responses;
    }
  }

  // ----- from the gateway to the sequencer -----

  lemma {:induction false} StreamFrames(n: nat, rs: seq<WireRequest>)
    ensures |Frames(Stream(n, rs), REQUEST_SIZE)| == |rs| && Rest(Stream(n, rs), REQUEST_SIZE) == []
    ensures forall i :: 0 <= i < |rs| ==> Frames(Stream(n, rs), REQUEST_SIZE)[i] == Encode(OMRequest(n + i, rs[i]))
    decreases |rs|
  {
    hide Encode;
    if rs != [] {
      var b := Stream(n, rs);
      StreamFrames(n + 1, rs[1..]);
      assert b[..REQUEST_SIZE] == Encode(OMRequest(n, rs[0])) && b[REQUEST_SIZE..] == Stream(n + 1, rs[1..]);
      forall i | 0 < i < |rs|
        ensures Frames(b, REQUEST_SIZE)[i] == Encode(OMRequest(n + i, rs[i]))
      {
        assert Frames(b, REQUEST_SIZE)[i] == Frames(b[REQUEST_SIZE..], REQUEST_SIZE)[i - 1];
        assert rs[1..][i - 1] == rs[i];
      }
    }
  }

  ghost predicate Sendable(c: nat, n: nat, rs: seq<WireRequest>) {
    forall i :: 0 <= i < |rs| ==> Fits(OMRequest(n + i, rs[i])) && rs[i].clientId == c
  }

  lemma {:induction false} NumberedServed(s: Server, es: seq<Event>, c: nat, fd: nat)
    requires Shaped(s) && c < ME_MAX_NUM_CLIENTS && (s.sockets[c] == NULL || s.sockets[c] == fd)
    requires forall i :: 0 <= i < |es| ==>
               es[i].fd == fd && es[i].frame.request.clientId == c && es[i].frame.seqNum == s.nextExp[c] + i
    ensures AllKnown(es) && Log(s, es) == es
    decreases |es|
  {
    if es != [] {
      assert Takes(s, es[0]);
      NumberedServed(Serve(s, es[0]), es[1..], c, fd);
      assert es == [es[0]] + es[1..];
    }
  }

  /**
   * Whatever pieces the connection delivers a client's numbered requests in, the server forwards exactly those
   * requests, in order, and keeps nothing back.
   */
  lemma {:induction false} GatewayToServer(s: Server, c: nat, fd: nat, rs: seq<WireRequest>, chunks: seq<seq<Byte>>)
    requires Shaped(s) && c < ME_MAX_NUM_CLIENTS && (s.sockets[c] == NULL || s.sockets[c] == fd)
    requires Sendable(c, s.nextExp[c], rs) && Concat(chunks) == Stream(s.nextExp[c], rs)
    ensures var fed := Feed([], chunks, REQUEST_SIZE);
            && fed.rest == [] && (forall i :: 0 <= i < |fed.frames| ==> |fed.frames[i]| == REQUEST_SIZE)
            && AllKnown(Decoded(fd, fed.frames)) && RequestsOf(Log(s, Decoded(fd, fed.frames))) == rs
  {
    hide Encode, Decode, Frames, Rest, Stream, Feed, Serve, Takes;
    var n, fed := s.nextExp[c], Feed([], chunks, REQUEST_SIZE);
    ChunkIndependent([], chunks, REQUEST_SIZE);
    assert [] + Concat(chunks) == Stream(n, rs);
    StreamFrames(n, rs);
    var es := Decoded(fd, fed.frames);
    forall i | 0 <= i < |rs|
      ensures es[i] == Event(fd, OMRequest(n + i, rs[i]))
    {
      RequestRoundTrip(OMRequest(n + i, rs[i]));
    }
    NumberedServed(s, es, c, fd);
  }

  // ----- from the server back to the gateways -----

  /** What goes out on one socket, in order. */
  function On(out: seq<Outgoing>, fd: Ptr): seq<OMResponse> {
    if out == [] then []
    else On(out[..|out| - 1], fd) + if out[|out| - 1].fd == fd then [out[|out| - 1].frame] else []
  }

  /**
   * Whatever responses the matching engine queues for whichever clients, each client's gateway forwards exactly those
   * that are its own, in order, even from a socket it shares with others.
   */
  lemma {:induction false} ServerToGateway(s: Server, next: seq<nat>, rs: seq<WireResponse>, out: seq<Outgoing>, c: nat)
    requires Shaped(s) && c < ME_MAX_NUM_CLIENTS
    requires |next| == ME_MAX_NUM_CLIENTS && |out| == |rs| && Routed(s, next, rs, out)
    ensures Passed(c, next[c], On(out, s.sockets[c])) == OwnResponses(rs, c)
    decreases |rs|
  {
    hide Passed, Routed, CountFor;
    if rs != [] {
      var n := |rs| - 1;
      RoutedBefore(s, next, rs, out);
      ServerToGateway(s, next, rs[..n], out[..n], c);
      OwnCount(rs[..n], c);
      RoutedLast(s, next, rs, out);
      var before, f := On(out[..n], s.sockets[c]), out[n].frame;
      PassedLast(c, next[c], before, f);
      if rs[n].clientId == c {
        assert On(out, s.sockets[c]) == before + [f];
      } else {
        assert OwnResponses(rs, c) == OwnResponses(rs[..n], c);
        assert before + [] == before;
        assert On(out, s.sockets[c]) == before || On(out, s.sockets[c]) == before + [f];
        assert f.response.clientId != c;
      }
    } else {
      NonePassed(c, next[c]);
    }
  }

  lemma {:induction false} NonePassed(c: nat, n: nat)
    ensures Passed(c, n, []) == []
  {
  }
}
