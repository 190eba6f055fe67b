/** The order connection as bytes: packed little-endian messages, and splitting a stream into frames. */
module Wire {
  import opened Types

  type Byte = x: int | 0 <= x < 256

  // ----- integers -----

  /** One more than the largest integer of n bytes. */
  function Span(n: nat): (s: nat)
    ensures s > 0
  {
    if n == 0 then 1 else 256 * Span(n - 1)
  }

  function ToBytes(v: nat, n: nat): (b: seq<Byte>)
    ensures |b| == n
  {
    if n == 0 then [] else [v % 256] + ToBytes(v / 256, n - 1)
  }

  function FromBytes(b: seq<Byte>): nat {
    if b == [] then 0 else b[0] + 256 * FromBytes(b[1..])
  }

  lemma {:induction false} BytesRoundTrip(v: nat, n: nat)
    requires v < Span(n)
    ensures FromBytes(ToBytes(v, n)) == v
  {
    if n > 0 {
      BytesRoundTrip(v / 256, n - 1);
      assert ToBytes(v, n)[1..] == ToBytes(v / 256, n - 1);
    }
  }

  /** The i-th byte has the weight 256 to the power i. */
  lemma {:induction false} ByteAt(v: nat, n: nat, i: nat)
    requires i < n
    ensures ToBytes(v, n)[i] == v / Span(i) % 256
  {
    if i > 0 {
      ByteAt(v / 256, n - 1, i - 1);
      DivideTwice(v, Span(i - 1));
    }
  }

  lemma DivideTwice(v: nat, s: nat)
    requires s > 0
    ensures v / 256 / s == v / (256 * s)
  {
    var w := v / 256;
    var q, d := w / s, 256 * s;
    assert w == s * q + w % s;
    assert d * q == 256 * (s * q);
    assert 0 <= v - d * q < d;
    Quotient(v, d, q);
  }

  lemma Quotient(v: nat, d: nat, q: nat)
    requires 0 <= v - d * q < d
    ensures v / d == q
  {
    var m := v / d - q;
    assert d * m == v - d * q - v % d;
    NoMultiple(d, m);
  }

  lemma NoMultiple(d: int, m: int)
    requires 0 - d < d * m < d
    ensures m == 0
  {
    if m > 0 {
      NotNegative(d, m - 1);
    } else if m < 0 {
      NotNegative(d, -1 - m);
    }
  }

  lemma NotNegative(d: int, k: int)
    requires d > 0 && k >= 0
    ensures d * k >= 0
  {
  }

  /** Two's complement in 64 bits. */
  function Unsigned(p: int): nat {
    p % 0x1_0000_0000_0000_0000
  }

  function Signed(u: nat): int {
    if u < 0x8000_0000_0000_0000 then u else u - 0x1_0000_0000_0000_0000
  }

  lemma SignRoundTrip(p: int)
    requires -0x8000_0000_0000_0000 <= p < 0x8000_0000_0000_0000
    ensures Unsigned(p) < 0x1_0000_0000_0000_0000 && Signed(Unsigned(p)) == p
  {
  }

  // ----- a request on the wire -----

  /** The kind and the side travel as raw bytes. */
  datatype WireRequest = WireRequest(
    kind: Byte, clientId: nat, tickerId: nat, orderId: nat, side: Byte, price: int, qty: nat)

  datatype OMRequest = OMRequest(seqNum: nat, request: WireRequest)

  datatype WireResponse = WireResponse(
    kind: Byte, clientId: nat, tickerId: nat, clientOrderId: nat, marketOrderId: nat, side: Byte, price: int,
    execQty: nat, leavesQty: nat)

  datatype OMResponse = OMResponse(seqNum: nat, response: WireResponse)

  const REQUEST_SIZE: nat := 38

  predicate Fits(f: OMRequest) {
    var r := f.request;
    && f.seqNum < 0x1_0000_0000_0000_0000 && r.orderId < 0x1_0000_0000_0000_0000
    && r.clientId < QTY_RANGE && r.tickerId < QTY_RANGE && r.qty < QTY_RANGE
    && -0x8000_0000_0000_0000 <= r.price < 0x8000_0000_0000_0000
  }

  /** The number is sent first, the request after it; on the connection the two are one run of bytes. */
  function EncodeBody(r: WireRequest): (b: seq<Byte>)
    ensures |b| == REQUEST_SIZE - 8
  {
    [r.kind] + ToBytes(r.clientId, 4) + ToBytes(r.tickerId, 4) + ToBytes(r.orderId, 8)
    + [r.side] + ToBytes(Unsigned(r.price), 8) + ToBytes(r.qty, 4)
  }

  function Encode(f: OMRequest): (b: seq<Byte>)
    ensures |b| == REQUEST_SIZE
  {
    ToBytes(f.seqNum, 8) + EncodeBody(f.request)
  }

  function Decode(b: seq<Byte>): OMRequest
    requires |b| == REQUEST_SIZE
  {
    OMRequest(FromBytes(b[..8]),
              WireRequest(b[8], FromBytes(b[9..13]), FromBytes(b[13..17]), FromBytes(b[17..25]),
                          b[25], Signed(FromBytes(b[26..34])), FromBytes(b[34..])))
  }

  lemma Spans()
    ensures Span(4) == QTY_RANGE && Span(8) == 0x1_0000_0000_0000_0000
  {
  }

  lemma RequestRoundTrip(f: OMRequest)
    requires Fits(f)
    ensures Decode(Encode(f)) == f
  {
    var b, r := Encode(f), f.request;
    Spans();
    hide Span, ToBytes, FromBytes, Unsigned, Signed;
    SignRoundTrip(r.price);
    BytesRoundTrip(f.seqNum, 8);
    BytesRoundTrip(r.clientId, 4);
    BytesRoundTrip(r.tickerId, 4);
    BytesRoundTrip(r.orderId, 8);
    BytesRoundTrip(Unsigned(r.price), 8);
    BytesRoundTrip(r.qty, 4);
    assert b[..8] == ToBytes(f.seqNum, 8);
    assert b[9..13] == ToBytes(r.clientId, 4);
    assert b[13..17] == ToBytes(r.tickerId, 4);
    assert b[17..25] == ToBytes(r.orderId, 8);
    assert b[26..34] == ToBytes(Unsigned(r.price), 8);
    assert b[34..] == ToBytes(r.qty, 4);
  }

  /** An n-byte little-endian field of a message. */
  ghost predicate Field(b: seq<Byte>, offset: nat, n: nat, v: nat)
    requires offset + n <= |b|
  {
    forall i :: 0 <= i < n ==> b[offset + i] == v / Span(i) % 256
  }

  lemma {:induction false} FieldIs(b: seq<Byte>, offset: nat, n: nat, v: nat)
    requires offset + n <= |b| && b[offset..offset + n] == ToBytes(v, n)
    ensures Field(b, offset, n, v)
  {
    forall i | 0 <= i < n
      ensures b[offset + i] == v / Span(i) % 256
    {
      assert b[offset + i] == b[offset..offset + n][i];
      ByteAt(v, n, i);
    }
  }

  /** Every field of a request lies where a structure without padding puts it, the number in front. */
  lemma RequestLayout(f: OMRequest)
    ensures var b, r := Encode(f), f.request;
            && |b| == 38 && b[8] == r.kind && b[25] == r.side
            && Field(b, 0, 8, f.seqNum) && Field(b, 9, 4, r.clientId) && Field(b, 13, 4, r.tickerId)
            && Field(b, 17, 8, r.orderId) && Field(b, 26, 8, r.price % 0x1_0000_0000_0000_0000)
            && Field(b, 34, 4, r.qty)
  {
    hide ToBytes, Field;
    var b, r := Encode(f), f.request;
    FieldIs(b, 0, 8, f.seqNum);
    FieldIs(b, 9, 4, r.clientId);
    FieldIs(b, 13, 4, r.tickerId);
    FieldIs(b, 17, 8, r.orderId);
    FieldIs(b, 26, 8, Unsigned(r.price));
    FieldIs(b, 34, 4, r.qty);
  }

  // ----- framing -----

  /** The complete frames of a run of bytes. */
  function Frames(b: seq<Byte>, size: nat): (fs: seq<seq<Byte>>)
    requires size > 0
    ensures forall i :: 0 <= i < |fs| ==> |fs[i]| == size
  {
    if |b| < size then [] else [b[..size]] + Frames(b[size..], size)
  }

  /** The bytes after the last complete frame. */
  function Rest(b: seq<Byte>, size: nat): (r: seq<Byte>)
    requires size > 0
    ensures |r| < size && |r| <= |b|
  {
    if |b| < size then b else Rest(b[size..], size)
  }

  lemma {:induction false} SplitConcat(a: seq<Byte>, b: seq<Byte>, size: nat)
    requires size > 0
    ensures Frames(a + b, size) == Frames(a, size) + Frames(Rest(a, size) + b, size)
    ensures Rest(a + b, size) == Rest(Rest(a, size) + b, size)
    decreases |a|
  {
    if |a| >= size {
      assert (a + b)[..size] == a[..size] && (a + b)[size..] == a[size..] + b;
      SplitConcat(a[size..], b, size);
    }
  }

  function Concat(chunks: seq<seq<Byte>>): seq<Byte> {
    if chunks == [] then [] else chunks[0] + Concat(chunks[1..])
  }

  datatype Fed = Fed(frames: seq<seq<Byte>>, rest: seq<Byte>)

  /** What is decoded, and what is kept back, when the bytes come in these pieces. */
  function Feed(kept: seq<Byte>, chunks: seq<seq<Byte>>, size: nat): Fed
    requires size > 0
    decreases |chunks|
  {
    if chunks == [] then Fed([], kept)
    else
      var b := kept + chunks[0];
      var later := Feed(Rest(b, size), chunks[1..], size);
      Fed(Frames(b, size) + later.frames, later.rest)
  }

  /** However the stream is cut into pieces, the frames are those of the whole and less than one frame is kept back. */
  lemma {:induction false} ChunkIndependent(kept: seq<Byte>, chunks: seq<seq<Byte>>, size: nat)
    requires |kept| < size
    ensures Feed(kept, chunks, size) == Fed(Frames(kept + Concat(chunks), size), Rest(kept + Concat(chunks), size))
    ensures |Feed(kept, chunks, size).rest| < size
    decreases |chunks|
  {
    if chunks == [] {
      assert kept + Concat(chunks) == kept;
    } else {
      var b := kept + chunks[0];
      ChunkIndependent(Rest(b, size), chunks[1..], size);
      assert kept + Concat(chunks) == b + Concat(chunks[1..]);
      SplitConcat(b, Concat(chunks[1..]), size);
    }
  }

  // ----- the receiving end of a connection -----

  class TcpSocket {
    const fd: nat
    const recvBuffer: array<Byte>
    var nextRecvValidIndex: nat

    ghost predicate Valid()
      reads this
    {
      nextRecvValidIndex <= recvBuffer.Length
    }

    /** The bytes received and not yet consumed. */
    ghost function Contents(): seq<Byte>
      requires Valid()
      reads this, recvBuffer
    {
      recvBuffer[..nextRecvValidIndex]
    }

    constructor (fd: nat, size: nat)
      ensures Valid() && Contents() == [] && this.fd == fd && recvBuffer.Length == size && fresh(recvBuffer)
    {
      this.fd := fd;
      recvBuffer := new Byte[size](_ => 0);
      nextRecvValidIndex := 0;
    }

    /** A read from the network puts bytes behind those already held. */
    method Append(chunk: seq<Byte>)
      requires Valid() && nextRecvValidIndex + |chunk| <= recvBuffer.Length
      modifies this`nextRecvValidIndex, recvBuffer
      ensures Valid() && Contents() == old(Contents()) + chunk
    {
      ghost var before := Contents();
      for k := 0 to |chunk|
        modifies recvBuffer
        invariant recvBuffer[..nextRecvValidIndex + k] == before + chunk[..k]
      {
        recvBuffer[nextRecvValidIndex + k] := chunk[k];
        assert chunk[..k + 1] == chunk[..k] + [chunk[k]];
      }
      assert chunk[..|chunk|] == chunk;
      nextRecvValidIndex := nextRecvValidIndex + |chunk|;
    }

    /** Move the remainder to the front. The copy is one that forbids its two ranges to overlap. */
    method Consume(n: nat)
      requires Valid() && n <= nextRecvValidIndex && nextRecvValidIndex - n <= n
      modifies this`nextRecvValidIndex, recvBuffer
      ensures Valid() && Contents() == old(Contents())[n..]
    {
      ghost var before := Contents();
      var rest := nextRecvValidIndex - n;
      for k := 0 to rest
        modifies recvBuffer
        invariant recvBuffer[..k] == before[n..n + k]
        invariant recvBuffer[n..nextRecvValidIndex] == before[n..]
      {
        assert recvBuffer[n + k] == recvBuffer[n..nextRecvValidIndex][k] == before[n + k];
        recvBuffer[k] := recvBuffer[n + k];
      }
      nextRecvValidIndex := rest;
    }
  }
}
