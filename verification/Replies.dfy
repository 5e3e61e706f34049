/** Replies: how `Local_Binding::respond` frames them and what `Access_Point::receive` makes of them. */
module Replies {
  import opened Bytes
  import opened Headers
  import opened Transfer
  import opened SinglyLinkedList

  /** The largest transfer a `ssize_t` can report. */
  const SSIZE_MAX: nat := 0x7FFF_FFFF

  /** A reply object after `set_response_size` and `set_invocation_size`. */
  ghost function Sized(data: seq<byte>, buffer: nat): (r: seq<byte>)
    requires HEADER_SIZE <= |data| < WORD_LIMIT && buffer < WORD_LIMIT
    ensures |r| == |data|
  {
    data[..4] + EncodeWord(|data|) + EncodeWord(buffer) + data[12..]
  }

  lemma SizedHeader(data: seq<byte>, buffer: nat, tail: seq<byte>)
    requires HEADER_SIZE <= |data| < WORD_LIMIT && buffer < WORD_LIMIT
    ensures DecodeExit(Sized(data, buffer) + tail).responseSize == |data|
    ensures DecodeExit(Sized(data, buffer) + tail).invocationSize == buffer
    ensures DecodeExit(Sized(data, buffer) + tail).responseCode == DecodeExit(data).responseCode
  {
    var s := Sized(data, buffer) + tail;
    assert s[4..8] == EncodeWord(|data|) && s[8..12] == EncodeWord(buffer) && s[12..16] == data[12..16];
    DecodeEncodeWord(|data|);
    DecodeEncodeWord(buffer);
  }

  datatype Status = Answered | Unanswered | AssertFailed

  /** Both forms of `respond`; the first one has an empty buffer. The binding stops being busy exactly
      when the whole reply has been written. */
  method Respond(k: Kernel, b: BindingPoint, data: array<byte>, buffer: seq<byte>) returns (status: Status)
    requires HEADER_SIZE <= data.Length <= SSIZE_MAX && |buffer| <= SSIZE_MAX
    requires b.clientSocket in k.written
    modifies k`written, k`script, k`errno, b, data
    ensures data[..] == Sized(old(data[..]), |buffer|)
    ensures k.written.Keys == old(k.written).Keys
    ensures status == Answered <==>
              k.written == old(k.written)[b.clientSocket := old(k.written)[b.clientSocket] + data[..] + buffer]
    ensures k.written[b.clientSocket] <= old(k.written)[b.clientSocket] + data[..] + buffer
    ensures status == Unanswered <==> k.written[b.clientSocket] < old(k.written)[b.clientSocket] + data[..]
    ensures status == AssertFailed <==>
              old(k.written)[b.clientSocket] + data[..] <= k.written[b.clientSocket] <
              old(k.written)[b.clientSocket] + data[..] + buffer
    ensures status != Answered ==> exists i :: 0 <= i < |old(k.script)| && old(k.script)[i] in {Failed, Move(0)}
    ensures b.stillBusy == (old(b.stillBusy) && status != Answered)
  {
    ghost var before := k.written[b.clientSocket];
    Memcpy(data, 4, EncodeWord(data.Length));
    Memcpy(data, 8, EncodeWord(|buffer|));
    assert data[..] == Sized(old(data[..]), |buffer|);
    var r;
    ghost var moved, used;
    r, moved, used := Writen(k, b.clientSocket, data[..]);
    if r <= 0 {
      assert data[..][..moved] < data[..];
      return Unanswered;
    }
    assert data[..][..moved] == data[..];
    assert before + data[..] + [] == before + data[..];
    if |buffer| > 0 {
      r, moved, used := Writen(k, b.clientSocket, buffer);
      if r <= 0 {
        assert buffer[..moved] < buffer;
        assert before + data[..] + buffer[..moved] < before + data[..] + buffer;
        return AssertFailed;
      }
      assert buffer[..moved] == buffer;
    }
    b.stillBusy := false;
    status := Answered;
  }

  datatype Receipt = Receipt(outcome: ReceiveOutcome, body: seq<byte>, extra: seq<byte>, rest: seq<byte>)

  /** `NoPeer` is the exception NotFound; `Aborted` is a failed assertion. */
  datatype ReceiveOutcome = Ok | NoPeer | SizeFault(size: nat) | Aborted

  /** What `receive` makes of the bytes in front of it when it is given the object `reply` to fill; the second
      form also takes the attached data, up to `cap` bytes of it. Only an empty stream counts as the end:
      what a stream cut short does not supply of the reply stays as the caller left it. */
  function Receives(stream: seq<byte>, reply: seq<byte>, cap: nat, withBuffer: bool): (r: Receipt)
    requires |reply| >= HEADER_SIZE
    ensures |r.body| == |reply| && |r.extra| <= cap
  {
    if stream == [] then Receipt(NoPeer, reply, [], [])
    else
      var n := Min(|reply|, |stream|);
      var body, rest := stream[..n] + reply[n..], stream[n..];
      var h := DecodeExit(body);
      var wanted := if withBuffer then h.invocationSize else 0;
      if wanted > cap then Receipt(SizeFault(wanted), body, [], rest)
      else
        var m := Min(wanted, |rest|);
        if m < wanted then Receipt(Aborted, body, rest[..m], rest[m..])
        else Receipt(if |reply| == h.responseSize then Ok else SizeFault(|reply|), body, rest[..m], rest[m..])
  }

  /** The outcome told by the bytes alone: those there were to read, and those of the caller's object, before
      and after. `NoPeer` is for an empty stream only, and leaves the object as it was. The object otherwise
      begins with what there was to read of the reply; the sizes that decide are the ones it then holds. */
  ghost predicate OutcomeFits(stream: seq<byte>, reply: seq<byte>, cap: nat, withBuffer: bool, body: seq<byte>,
                              outcome: ReceiveOutcome)
    requires |reply| >= HEADER_SIZE
  {
    var n := Min(|reply|, |stream|);
    body == stream[..n] + reply[n..] &&
    var h := DecodeExit(body);
    && (outcome == NoPeer <==> stream == [])
    && (outcome == Aborted <==> stream != [] && withBuffer && |stream| - n < h.invocationSize <= cap)
    && (outcome == Ok <==> stream != [] && |reply| == h.responseSize && (withBuffer ==> h.invocationSize <= Min(cap, |stream| - n)))
    && (outcome.SizeFault? ==> outcome.size == if withBuffer && h.invocationSize > cap then h.invocationSize else |reply|)
  }

  /** How much attached data is taken, by the bytes alone. */
  ghost predicate TakesFit(stream: seq<byte>, reply: seq<byte>, cap: nat, withBuffer: bool, extra: seq<byte>, rest: seq<byte>)
    requires |reply| >= HEADER_SIZE
  {
    var n := Min(|reply|, |stream|);
    var h := DecodeExit(stream[..n] + reply[n..]);
    && stream == stream[..n] + extra + rest
    && |extra| == if stream == [] || !withBuffer || h.invocationSize > cap then 0 else Min(h.invocationSize, |stream| - n)
  }

  lemma ReceiveOutcomes(stream: seq<byte>, reply: seq<byte>, cap: nat, withBuffer: bool)
    requires |reply| >= HEADER_SIZE
    ensures var r := Receives(stream, reply, cap, withBuffer);
            && OutcomeFits(stream, reply, cap, withBuffer, r.body, r.outcome)
            && TakesFit(stream, reply, cap, withBuffer, r.extra, r.rest)
  {
    var n := Min(|reply|, |stream|);
    if stream == [] {
      assert stream[..n] + reply[n..] == reply;
    } else {
      var h := DecodeExit(stream[..n] + reply[n..]);
      ReceiveTakes(stream, reply, cap, withBuffer, h);
      var wanted := if withBuffer then h.invocationSize else 0;
      Cut3(stream, n, if wanted > cap then 0 else Min(wanted, |stream| - n));
    }
  }

  lemma ReceiveTakes(stream: seq<byte>, reply: seq<byte>, cap: nat, withBuffer: bool, h: Exit)
    requires |reply| >= HEADER_SIZE && stream != []
    requires h == DecodeExit(stream[..Min(|reply|, |stream|)] + reply[Min(|reply|, |stream|)..])
    ensures var r := Receives(stream, reply, cap, withBuffer);
            var n := Min(|reply|, |stream|);
            var wanted := if withBuffer then h.invocationSize else 0;
            var m := if wanted > cap then 0 else Min(wanted, |stream| - n);
            && r.body == stream[..n] + reply[n..] && r.extra == stream[n..][..m] && r.rest == stream[n..][m..]
            && r.outcome == if wanted > cap then SizeFault(wanted)
                            else if m < wanted then Aborted
                            else if |reply| == h.responseSize then Ok else SizeFault(|reply|)
  {
  }

  lemma Cut3<T>(s: seq<T>, n: nat, m: nat)
    requires n <= |s| && m <= |s| - n
    ensures s == s[..n] + s[n..][..m] + s[n..][m..]
  {
  }

  /** A reply on the wire. */
  ghost function ReplyImage(data: seq<byte>, buffer: seq<byte>): (s: seq<byte>)
    requires HEADER_SIZE <= |data| < WORD_LIMIT && |buffer| < WORD_LIMIT
    ensures |s| == |data| + |buffer|
  {
    Sized(data, |buffer|) + buffer
  }

  /** The sizes in a reply are known as soon as its header has arrived. */
  lemma ReceivesHeader(data: seq<byte>, buffer: seq<byte>, later: seq<byte>, stream: seq<byte>, reply: seq<byte>)
    requires HEADER_SIZE <= |data| < WORD_LIMIT && |buffer| < WORD_LIMIT && |reply| >= HEADER_SIZE
    requires |stream| >= HEADER_SIZE && stream <= ReplyImage(data, buffer) + later
    ensures var n := Min(|reply|, |stream|);
            var h := DecodeExit(stream[..n] + reply[n..]);
            h.responseSize == |data| && h.invocationSize == |buffer|
  {
    var whole := ReplyImage(data, buffer) + later;
    var n := Min(|reply|, |stream|);
    var body := stream[..n] + reply[n..];
    SizedHeader(data, |buffer|, buffer + later);
    assert whole == Sized(data, |buffer|) + (buffer + later);
    forall i | 0 <= i < 4 ensures WordAt(body, i) == WordAt(whole, i) {
      assert body[4 * i..4 * i + 4] == whole[4 * i..4 * i + 4];
    }
  }

  /** Round trip: a reply is read back exactly, and nothing of it stays in the stream, if and only if the
      receiver expects its size and has room for the attached data. */
  lemma ReceiveRoundTripIff(data: seq<byte>, buffer: seq<byte>, tail: seq<byte>, reply: seq<byte>, cap: nat)
    requires HEADER_SIZE <= |data| < WORD_LIMIT && |buffer| < WORD_LIMIT && |reply| >= HEADER_SIZE
    ensures var r := Receives(ReplyImage(data, buffer) + tail, reply, cap, true);
            && (r.outcome == Ok <==> |reply| == |data| && |buffer| <= cap)
            && (r.outcome == Ok ==> r.body == Sized(data, |buffer|) && r.extra == buffer && r.rest == tail)
  {
    var stream := ReplyImage(data, buffer) + tail;
    ReceivesHeader(data, buffer, tail, stream, reply);
    if |reply| == |data| {
      assert stream[..|data|] + reply[|data|..] == Sized(data, |buffer|) && stream[|data|..] == buffer + tail;
      assert (buffer + tail)[..|buffer|] == buffer && (buffer + tail)[|buffer|..] == tail;
    }
  }

  /** The first form of `receive` leaves attached data in the stream for the next one to find. */
  lemma ReceiveWithoutBufferIff(data: seq<byte>, buffer: seq<byte>, tail: seq<byte>, reply: seq<byte>)
    requires HEADER_SIZE <= |data| < WORD_LIMIT && |buffer| < WORD_LIMIT && |reply| >= HEADER_SIZE
    ensures var r := Receives(ReplyImage(data, buffer) + tail, reply, 0, false);
            && (r.outcome == Ok <==> |reply| == |data|)
            && (r.outcome == Ok ==> r.body == Sized(data, |buffer|) && r.extra == [] && r.rest == buffer + tail)
  {
    var stream := ReplyImage(data, buffer) + tail;
    ReceivesHeader(data, buffer, tail, stream, reply);
    if |reply| == |data| {
      assert stream[..|data|] + reply[|data|..] == Sized(data, |buffer|) && stream[|data|..] == buffer + tail;
      assert (buffer + tail)[..0] == [] && (buffer + tail)[0..] == buffer + tail;
    }
  }

  /** A reply that the end of the stream cuts off behind its header is taken for a complete one exactly if it
      has the expected size and no data attached to it is asked for; the part that is missing is then what
      the caller's object held before. */
  lemma TruncatedReplyIff(data: seq<byte>, buffer: seq<byte>, k: nat, reply: seq<byte>, cap: nat, withBuffer: bool)
    requires HEADER_SIZE <= |data| < WORD_LIMIT && |buffer| < WORD_LIMIT && |reply| >= HEADER_SIZE
    requires HEADER_SIZE <= k < |data| + |buffer|
    ensures var r := Receives(ReplyImage(data, buffer)[..k], reply, cap, withBuffer);
            && (r.outcome == Ok <==> |reply| == |data| && (withBuffer ==> buffer == []))
            && (r.outcome == Ok ==>
                  r.body == Sized(data, |buffer|)[..Min(k, |data|)] + reply[Min(k, |data|)..] && r.extra == [])
  {
    var stream := ReplyImage(data, buffer)[..k];
    assert stream <= ReplyImage(data, buffer) + [];
    ReceivesHeader(data, buffer, [], stream, reply);
    if |reply| == |data| {
      assert stream[..Min(k, |data|)] == Sized(data, |buffer|)[..Min(k, |data|)];
    }
  }

  /** A `receive` that does not expect more than has come leaves nothing of the reply for the next one to
      stumble over if and only if it expects the right size and takes the attached data, if there is any. */
  lemma ReceiveLeavesNothingIff(data: seq<byte>, buffer: seq<byte>, tail: seq<byte>, reply: seq<byte>, cap: nat,
                                withBuffer: bool)
    requires HEADER_SIZE <= |data| < WORD_LIMIT && |buffer| < WORD_LIMIT && HEADER_SIZE <= |reply| <= |data|
    ensures Receives(ReplyImage(data, buffer) + tail, reply, cap, withBuffer).rest == tail <==>
            |reply| == |data| && (buffer == [] || (withBuffer && |buffer| <= cap))
  {
    var stream := ReplyImage(data, buffer) + tail;
    ReceivesHeader(data, buffer, tail, stream, reply);
    var left := stream[|data| + |buffer|..];
    assert left == tail;
    if |reply| == |data| {
      assert stream[|data|..] == buffer + tail;
      assert (buffer + tail)[|buffer|..] == tail;
    }
  }
}
