/** Requests on the wire, as clients write them and as the server cuts them out of the stream again. */
module Framing {
  import opened Bytes
  import opened Headers

  /** What the two forms of `send` put on the wire: a header, the parameters behind it in the caller's
      message object, and the attached buffer (empty for the first form). */
  datatype Request = Request(header: Entry, parameters: seq<byte>, buffer: seq<byte>)

  /** The header says how many parameters there are and the whole fits in memory. */
  ghost predicate InMemory(q: Request) {
    |q.parameters| == q.header.parametersSize && HEADER_SIZE + |q.parameters| + |q.buffer| < WORD_LIMIT
  }

  /** The duty `send` leaves to its caller. */
  ghost predicate Framed(q: Request) {
    InMemory(q) && q.header.invocationSize == |q.buffer|
  }

  function Image(q: Request): (s: seq<byte>)
    ensures |s| == HEADER_SIZE + |q.parameters| + |q.buffer|
  {
    EncodeEntry(q.header) + q.parameters + q.buffer
  }

  /** The size of the message that starts a stream, by its header alone. */
  function MessageSize(stream: seq<byte>): (n: nat)
    requires |stream| >= HEADER_SIZE
    ensures n >= HEADER_SIZE
  {
    var h := DecodeEntry(stream);
    HEADER_SIZE + h.parametersSize + h.invocationSize
  }

  ghost predicate WholeMessage(stream: seq<byte>) {
    |stream| >= HEADER_SIZE && MessageSize(stream) <= |stream| && MessageSize(stream) < WORD_LIMIT
  }

  lemma DecodePrefix(stream: seq<byte>, tail: seq<byte>)
    requires |stream| >= HEADER_SIZE
    ensures DecodeEntry(stream + tail) == DecodeEntry(stream)
  {
    forall i | 0 <= i < 4 ensures WordAt(stream + tail, i) == WordAt(stream, i) {
      assert (stream + tail)[4 * i..4 * i + 4] == stream[4 * i..4 * i + 4];
    }
  }

  function FirstMessage(stream: seq<byte>): (message: seq<byte>)
    requires WholeMessage(stream)
    ensures |message| == MessageSize(stream) && message + stream[|message|..] == stream
    ensures DecodeEntry(message) == DecodeEntry(stream)
  {
    var n := MessageSize(stream);
    assert stream[..n] + stream[n..] == stream;
    DecodePrefix(stream[..n], stream[n..]);
    stream[..n]
  }

  /** The server cuts a request exactly at its end if and only if its sender declared the size of the
      attached buffer; `send` itself never does. */
  lemma CutIffFramed(q: Request, tail: seq<byte>)
    requires InMemory(q)
    ensures DecodeEntry(Image(q) + tail) == q.header
    ensures MessageSize(Image(q) + tail) == |Image(q)| <==> Framed(q)
  {
    DecodeEncodeEntry(q.header, q.parameters + q.buffer + tail);
    assert Image(q) + tail == EncodeEntry(q.header) + (q.parameters + q.buffer + tail);
  }

  /** The first message of a stream does not depend on what arrives behind it. */
  lemma LaterBytes(stream: seq<byte>, more: seq<byte>)
    requires WholeMessage(stream)
    ensures WholeMessage(stream + more) && FirstMessage(stream + more) == FirstMessage(stream)
    ensures (stream + more)[MessageSize(stream)..] == stream[MessageSize(stream)..] + more
  {
    DecodePrefix(stream, more);
  }

  /** A stream that carries on with a framed request, as far as it has arrived: its size is known with the
      header, and either the whole request is there or only a part of it. */
  lemma FrontOfStream(q: Request, later: seq<byte>, arrived: seq<byte>)
    requires Framed(q) && arrived <= Image(q) + later && |arrived| >= HEADER_SIZE
    ensures DecodeEntry(arrived) == q.header && MessageSize(arrived) == |Image(q)|
    ensures |arrived| >= |Image(q)| ==>
              WholeMessage(arrived) && FirstMessage(arrived) == Image(q) && arrived[|Image(q)|..] <= later
    ensures |arrived| < |Image(q)| ==> arrived < Image(q)
  {
    var rest := (Image(q) + later)[|arrived|..];
    assert Image(q) + later == arrived + rest;
    DecodePrefix(arrived, rest);
    CutIffFramed(q, later);
    if |arrived| >= |Image(q)| {
      LaterBytes(arrived, rest);
    }
  }

  function Images(qs: seq<Request>): (s: seq<seq<byte>>)
    ensures |s| == |qs| && forall i :: 0 <= i < |qs| ==> s[i] == Image(qs[i])
  {
    if qs == [] then [] else [Image(qs[0])] + Images(qs[1..])
  }

  /** Everything a client writes, one request after the other. */
  function Stream(qs: seq<Request>): seq<byte> {
    if qs == [] then [] else Image(qs[0]) + Stream(qs[1..])
  }

  lemma {:induction false} StreamAppend(qs: seq<Request>, q: Request)
    ensures Stream(qs + [q]) == Stream(qs) + Image(q)
  {
    var longer := qs + [q];
    if qs == [] {
      assert longer[1..] == [];
    } else {
      StreamAppend(qs[1..], q);
      assert longer[0] == qs[0] && longer[1..] == qs[1..] + [q];
      assert Image(qs[0]) + (Stream(qs[1..]) + Image(q)) == (Image(qs[0]) + Stream(qs[1..])) + Image(q);
    }
  }

  /** The messages a server makes of the bytes that have arrived so far. */
  ghost function Cuts(stream: seq<byte>): seq<seq<byte>> {
    if !WholeMessage(stream) then []
    else [FirstMessage(stream)] + Cuts(stream[MessageSize(stream)..])
  }

  lemma PartialIsNoMessage(q: Request, n: nat)
    requires Framed(q) && n < |Image(q)|
    ensures !WholeMessage(Image(q)[..n])
  {
    if n >= HEADER_SIZE {
      DecodePrefix(Image(q)[..n], Image(q)[n..]);
      assert Image(q)[..n] + Image(q)[n..] == Image(q) == Image(q) + [];
      CutIffFramed(q, []);
    }
  }

  /** A framed request at the front of a stream comes out whole and leaves what follows it. */
  lemma FirstCut(q: Request, later: seq<byte>)
    requires Framed(q)
    ensures WholeMessage(Image(q) + later) && FirstMessage(Image(q) + later) == Image(q)
    ensures (Image(q) + later)[|Image(q)|..] == later
    ensures Cuts(Image(q) + later) == [Image(q)] + Cuts(later)
  {
    CutIffFramed(q, later);
  }

  /** End to end over one stream: at whatever byte the arrivals stand, the messages cut so far are a
      prefix, in order and byte for byte, of the requests sent; once all has arrived, they are all. */
  lemma {:induction false} CutsArePrefix(qs: seq<Request>, n: nat)
    requires forall i :: 0 <= i < |qs| ==> Framed(qs[i])
    requires n <= |Stream(qs)|
    ensures Cuts(Stream(qs)[..n]) <= Images(qs)
    ensures n == |Stream(qs)| ==> Cuts(Stream(qs)[..n]) == Images(qs)
  {
    if qs != [] {
      var m, rest := Image(qs[0]), Stream(qs[1..]);
      var arrived := (m + rest)[..n];
      if n < |m| {
        PartialIsNoMessage(qs[0], n);
        assert arrived == m[..n] && Cuts(arrived) == [];
      } else {
        var later := rest[..n - |m|];
        assert arrived == m + later;
        FirstCut(qs[0], later);
        CutsArePrefix(qs[1..], |later|);
        assert [m] + Cuts(later) <= [m] + Images(qs[1..]);
      }
    }
  }

  /** Without the declared size the server takes the buffer for the next request's header. */
  lemma UnframedIsMiscut(q: Request, tail: seq<byte>)
    requires InMemory(q) && q.header.invocationSize == 0 && q.buffer != []
    ensures Cuts(Image(q) + tail) != [] && Cuts(Image(q) + tail)[0] == EncodeEntry(q.header) + q.parameters
  {
    CutIffFramed(q, tail);
    assert (Image(q) + tail)[..HEADER_SIZE + |q.parameters|] == EncodeEntry(q.header) + q.parameters;
  }
}
