// Machine words, message headers and the images they have on the wire.

module Options {
  datatype Option<+T> = None | Some(value: T)
}

/** Bytes, 32-bit words and their little-endian images. */
module Bytes {
  type byte = b: int | 0 <= b < 256

  const WORD_LIMIT: nat := 0x1_0000_0000

  /** `size_t`, `unsigned` and the image of `long` on the 32-bit machines the sources were written for. */
  type word = w: int | 0 <= w < WORD_LIMIT

  /** Unsigned arithmetic keeps the low 32 bits of its mathematical result. */
  function Wrap(n: int): word {
    n % WORD_LIMIT
  }

  function ToBytes(v: nat, k: nat): (s: seq<byte>)
    ensures |s| == k
  {
    if k == 0 then [] else [v % 256] + ToBytes(v / 256, k - 1)
  }

  function FromBytes(s: seq<byte>): nat {
    if s == [] then 0 else s[0] + 256 * FromBytes(s[1..])
  }

  function Pow256(k: nat): nat {
    if k == 0 then 1 else 256 * Pow256(k - 1)
  }

  lemma {:induction false} FromToBytes(v: nat, k: nat)
    requires v < Pow256(k)
    ensures FromBytes(ToBytes(v, k)) == v
  {
    if k > 0 {
      FromToBytes(v / 256, k - 1);
      assert ToBytes(v, k)[1..] == ToBytes(v / 256, k - 1);
    }
  }

  lemma {:induction false} ToFromBytes(s: seq<byte>)
    ensures FromBytes(s) < Pow256(|s|)
    ensures ToBytes(FromBytes(s), |s|) == s
  {
    if s != [] {
      ToFromBytes(s[1..]);
      assert FromBytes(s) / 256 == FromBytes(s[1..]) && FromBytes(s) % 256 == s[0];
    }
  }

  lemma Pow256Word()
    ensures Pow256(4) == WORD_LIMIT
  {
    assert Pow256(4) == 256 * Pow256(3) == 65536 * Pow256(2);
  }

  function EncodeWord(w: word): (s: seq<byte>)
    ensures |s| == 4
  {
    ToBytes(w, 4)
  }

  function DecodeWord(s: seq<byte>): word
    requires |s| == 4
  {
    ToFromBytes(s);
    Pow256Word();
    FromBytes(s)
  }

  lemma DecodeEncodeWord(w: word)
    ensures DecodeWord(EncodeWord(w)) == w
  {
    Pow256Word();
    FromToBytes(w, 4);
  }
}

/** The headers of requests and replies (`Msg_Entry_Header` and `Msg_Exit_Header`). */
module Headers {
  import opened Bytes

  const DEMSERV_ADD: word := 0
  const DEMSERV_SEND: word := 1
  const DEMSERV_SHUTDOWN: word := 2
  const DEMSERV_INVALID: word := 3

  const DEMRESP_REGISTRATION_OK: word := 0
  const DEMRESP_SERVICE_NOT_FOUND: word := 2
  const DEMRESP_INVALID: word := 5

  /** Size in bytes of both kinds of header: four words. */
  const HEADER_SIZE: nat := 16

  datatype Entry = Entry(systemCode: word, clientCode: word, parametersSize: word, invocationSize: word)

  datatype Exit = Exit(systemCode: word, responseSize: word, invocationSize: word, responseCode: word)

  function FourWords(a: word, b: word, c: word, d: word): (s: seq<byte>)
    ensures |s| == HEADER_SIZE
  {
    EncodeWord(a) + EncodeWord(b) + EncodeWord(c) + EncodeWord(d)
  }

  function WordAt(s: seq<byte>, i: nat): word
    requires i < 4 && |s| >= HEADER_SIZE
  {
    DecodeWord(s[4 * i..4 * i + 4])
  }

  function EncodeEntry(h: Entry): (s: seq<byte>)
    ensures |s| == HEADER_SIZE
  {
    FourWords(h.systemCode, h.clientCode, h.parametersSize, h.invocationSize)
  }

  function DecodeEntry(s: seq<byte>): Entry
    requires |s| >= HEADER_SIZE
  {
    Entry(WordAt(s, 0), WordAt(s, 1), WordAt(s, 2), WordAt(s, 3))
  }

  function EncodeExit(h: Exit): (s: seq<byte>)
    ensures |s| == HEADER_SIZE
  {
    FourWords(h.systemCode, h.responseSize, h.invocationSize, h.responseCode)
  }

  function DecodeExit(s: seq<byte>): Exit
    requires |s| >= HEADER_SIZE
  {
    Exit(WordAt(s, 0), WordAt(s, 1), WordAt(s, 2), WordAt(s, 3))
  }

  lemma FourWordsAt(a: word, b: word, c: word, d: word, tail: seq<byte>)
    ensures var s := FourWords(a, b, c, d) + tail;
            WordAt(s, 0) == a && WordAt(s, 1) == b && WordAt(s, 2) == c && WordAt(s, 3) == d
  {
    var s := FourWords(a, b, c, d) + tail;
    assert s[0..4] == EncodeWord(a) && s[4..8] == EncodeWord(b);
    assert s[8..12] == EncodeWord(c) && s[12..16] == EncodeWord(d);
    DecodeEncodeWord(a);
    DecodeEncodeWord(b);
    DecodeEncodeWord(c);
    DecodeEncodeWord(d);
  }

  /** A header is read back from the front of whatever stream it was written to. */
  lemma DecodeEncodeEntry(h: Entry, tail: seq<byte>)
    ensures DecodeEntry(EncodeEntry(h) + tail) == h
  {
    FourWordsAt(h.systemCode, h.clientCode, h.parametersSize, h.invocationSize, tail);
  }

  lemma DecodeEncodeExit(h: Exit, tail: seq<byte>)
    ensures DecodeExit(EncodeExit(h) + tail) == h
  {
    FourWordsAt(h.systemCode, h.responseSize, h.invocationSize, h.responseCode, tail);
  }

  /** The protected constructor of `Msg_Entry_Header`: the size subtraction is done on `size_t`. */
  function SendHeader(clientCode: word, messageSize: word): Entry {
    Entry(DEMSERV_SEND, clientCode, Wrap(messageSize - HEADER_SIZE), 0)
  }

  /** Its `ASSERT(parameters_size >= 0)` is on an unsigned value and never fires: the header covers the
      message it was built for exactly when the caller passed at least the size of a header, and the
      default argument 0 declares almost four gigabytes of parameters. */
  lemma SendHeaderCoversMessage(clientCode: word, messageSize: word)
    ensures SendHeader(clientCode, messageSize).parametersSize + HEADER_SIZE == messageSize <==>
            messageSize >= HEADER_SIZE
    ensures SendHeader(clientCode, 0).parametersSize == WORD_LIMIT - HEADER_SIZE
  {
  }
}
