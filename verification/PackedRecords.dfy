/** Messages of `remote_message_header.H` that pack records into the raw bytes behind the object. */
module PackedRecords {
  import opened Bytes
  import opened Headers
  import opened Transfer

  const PING_N_OBJECTS_REQUEST: word := 9
  const PING_REPLY_FOR_N_OBJECTS: word := 10

  /** `sizeof(*this)` of both messages: the header and two counters. */
  const OBJECT_SIZE: nat := HEADER_SIZE + 8

  /** `sizeof(Invocation_Reply_Type)`. */
  const REPLY_TYPE_SIZE: nat := 4

  // ----- Stride arithmetic

  lemma SlotsApart(i: nat, j: nat, stride: nat)
    requires i < j
    ensures i * stride + stride <= j * stride
  {
    assert j * stride == i * stride + (j - i) * stride;
    assert (j - i) * stride >= stride by {
      LeqTimes(1, j - i, stride);
    }
  }

  lemma SlotsDisjoint(i: nat, j: nat, stride: nat)
    ensures i * stride >= 0 && j * stride >= 0
    ensures i == j || i * stride + stride <= j * stride || j * stride + stride <= i * stride
  {
    LeqTimes(0, i, stride);
    LeqTimes(0, j, stride);
    if i < j {
      SlotsApart(i, j, stride);
    } else if j < i {
      SlotsApart(j, i, stride);
    }
  }

  lemma LeqTimes(a: nat, b: nat, c: nat)
    requires a <= b
    ensures a * c <= b * c
  {
  }

  /** The `len` bytes at offset `off` of slot `i`. */
  ghost function Field(memory: seq<byte>, stride: nat, off: nat, len: nat, i: nat): seq<byte>
    requires off + len <= stride && i * stride + stride <= |memory|
  {
    Stretch(memory, i * stride + off, len)
  }

  ghost function Stretch(memory: seq<byte>, at: nat, len: nat): seq<byte>
    requires at + len <= |memory|
  {
    memory[at..at + len]
  }

  lemma SpliceReads(memory: seq<byte>, at: nat, data: seq<byte>)
    requires at + |data| <= |memory|
    ensures Stretch(Splice(memory, at, data), at, |data|) == data
  {
  }

  lemma SpliceSpares(memory: seq<byte>, at: nat, data: seq<byte>, from: nat, len: nat)
    requires at + |data| <= |memory| && from + len <= |memory|
    requires from + len <= at || at + |data| <= from
    ensures Stretch(Splice(memory, at, data), from, len) == Stretch(memory, from, len)
  {
    var after := Splice(memory, at, data);
    assert forall k :: from <= k < from + len ==> after[k] == memory[k];
  }

  /** Writing one field of slot `i` changes no field of another slot, and no other field of this slot. */
  lemma FieldSpared(memory: seq<byte>, stride: nat, off: nat, data: seq<byte>, i: nat, off': nat, len': nat, j: nat)
    requires off + |data| <= stride && i * stride + stride <= |memory|
    requires off' + len' <= stride && j * stride + stride <= |memory|
    requires i != j || off' + len' <= off || off + |data| <= off'
    ensures Field(Splice(memory, i * stride + off, data), stride, off', len', j) == Field(memory, stride, off', len', j)
  {
    SlotsDisjoint(i, j, stride);
    var a, b := i * stride, j * stride;
    StretchSpared(memory, stride, a, off, data, b, off', len');
  }

  lemma StretchSpared(memory: seq<byte>, stride: nat, a: nat, off: nat, data: seq<byte>, b: nat, off': nat, len': nat)
    requires off + |data| <= stride && a + stride <= |memory|
    requires off' + len' <= stride && b + stride <= |memory|
    requires a + stride <= b || b + stride <= a || (a == b && (off' + len' <= off || off + |data| <= off'))
    ensures Stretch(Splice(memory, a + off, data), b + off', len') == Stretch(memory, b + off', len')
  {
    SpliceSpares(memory, a + off, data, b + off', len');
  }

  // ----- Sizes, in the unsigned arithmetic of the constructors

  function RequestHeader(n: word, locatorSize: word): Entry {
    SendHeader(PING_N_OBJECTS_REQUEST, Wrap(OBJECT_SIZE + Wrap(n * locatorSize)))
  }

  function ReplyHeader(): Entry {
    SendHeader(PING_REPLY_FOR_N_OBJECTS, OBJECT_SIZE)
  }

  lemma WrapAdds(a: int, b: int)
    ensures Wrap(a + Wrap(b)) == Wrap(a + b)
  {
    assert Wrap(b) == b - WORD_LIMIT * (b / WORD_LIMIT);
    WrapShift(a + b, b / WORD_LIMIT);
  }

  lemma WrapShift(a: int, k: int)
    ensures Wrap(a - WORD_LIMIT * k) == Wrap(a)
  {
    var q := a / WORD_LIMIT;
    assert a - WORD_LIMIT * k == WORD_LIMIT * (q - k) + a % WORD_LIMIT;
    assert (WORD_LIMIT * (q - k) + a % WORD_LIMIT) % WORD_LIMIT == a % WORD_LIMIT;
  }

  /** What is sent of a request covers all its locator slots exactly if the size of object and slots,
      less the header, fits in a word. */
  lemma RequestCoversSlotsIff(n: word, locatorSize: word)
    ensures HEADER_SIZE + RequestHeader(n, locatorSize).parametersSize >= OBJECT_SIZE + n * locatorSize <==>
            OBJECT_SIZE - HEADER_SIZE + n * locatorSize < WORD_LIMIT
  {
    var size := n * locatorSize;
    LeqTimes(0, n, locatorSize);
    DeclaredSize(size);
    CoversIff(OBJECT_SIZE - HEADER_SIZE + size);
  }

  lemma DeclaredSize(size: int)
    ensures Wrap(Wrap(OBJECT_SIZE + Wrap(size)) - HEADER_SIZE) == Wrap(OBJECT_SIZE - HEADER_SIZE + size)
  {
    WrapAdds(OBJECT_SIZE, size);
    var header: int := HEADER_SIZE;
    WrapAdds(-header, OBJECT_SIZE + size);
  }

  lemma CoversIff(total: nat)
    ensures Wrap(total) >= total <==> total < WORD_LIMIT
  {
  }

  /** What is sent of a reply by its header covers its record slots only when it has none: their size is
      not part of the declared parameters. */
  lemma ReplyCoversSlotsIff(n: word, locatorSize: word)
    ensures HEADER_SIZE + ReplyHeader().parametersSize >= OBJECT_SIZE + n * (locatorSize + REPLY_TYPE_SIZE) <==> n == 0
  {
    if n > 0 {
      LeqTimes(1, n, locatorSize + REPLY_TYPE_SIZE);
    }
  }

  // ----- The messages

  class PingNObjectsRequest {
    const locatorSize: nat
    const numberOfObjects: nat
    var actualNumberOfObj: nat
    /** The memory behind the object, which its creator allocated. */
    const memory: array<byte>
    ghost var records: seq<seq<byte>>

    ghost predicate Valid()
      reads this, memory
    {
      && actualNumberOfObj == |records| <= numberOfObjects
      && numberOfObjects * locatorSize <= memory.Length
      && forall i :: 0 <= i < |records| ==> Stored(i)
    }

    ghost predicate Stored(i: nat)
      requires i < |records|
      reads this, memory
    {
      |records[i]| == locatorSize && i * locatorSize + locatorSize <= memory.Length &&
      Field(memory[..], locatorSize, 0, locatorSize, i) == records[i]
    }

    constructor (n: nat, locatorSize: nat, memory: array<byte>)
      requires n * locatorSize <= memory.Length
      ensures Valid() && records == [] && numberOfObjects == n
      ensures this.locatorSize == locatorSize && this.memory == memory
    {
      this.locatorSize, numberOfObjects, actualNumberOfObj, this.memory := locatorSize, n, 0, memory;
      records := [];
    }

    /** The next slot takes the locator; one too many fails an assertion. */
    method AddLocator(locator: seq<byte>) returns (ok: bool)
      requires Valid() && |locator| == locatorSize
      modifies this, memory
      ensures Valid() && ok == (old(actualNumberOfObj) < numberOfObjects)
      ensures records == if ok then old(records) + [locator] else old(records)
      ensures memory[numberOfObjects * locatorSize..] == old(memory[numberOfObjects * locatorSize..])
    {
      if actualNumberOfObj >= numberOfObjects {
        return false;
      }
      var k := actualNumberOfObj;
      ghost var before := memory[..];
      SlotsApart(k, numberOfObjects, locatorSize);
      Memcpy(memory, k * locatorSize, locator);
      actualNumberOfObj := k + 1;
      records := records + [locator];
      SpliceReads(before, k * locatorSize, locator);
      forall i | 0 <= i < |records| ensures Stored(i) {
        if i < k {
          assert old(Stored(i));
          FieldSpared(before, locatorSize, 0, locator, k, 0, locatorSize, i);
        }
      }
      ok := true;
    }

    method ResetLocatorsCounter()
      requires Valid()
      modifies this
      ensures Valid() && records == []
    {
      actualNumberOfObj, records := 0, [];
    }

    /** `operator[]` checks the position against the declared count; below the actual one it finds what
        was added there. */
    method At(position: nat) returns (ok: bool, locator: seq<byte>)
      requires Valid()
      ensures ok == (position < numberOfObjects)
      ensures position < |records| ==> ok && locator == records[position]
      ensures ok ==> position * locatorSize + locatorSize <= memory.Length &&
                     locator == Field(memory[..], locatorSize, 0, locatorSize, position)
    {
      if position >= numberOfObjects {
        return false, [];
      }
      SlotsApart(position, numberOfObjects, locatorSize);
      assert position < |records| ==> Stored(position);
      return true, memory[position * locatorSize..position * locatorSize + locatorSize];
    }
  }

  datatype Record = Record(locator: seq<byte>, replyType: word)

  class PingReplyForNObjects {
    const locatorSize: nat
    const numberOfResponses: nat
    var actualNumberOfResponse: nat
    const memory: array<byte>
    ghost var records: seq<Record>

    ghost function Stride(): nat {
      locatorSize + REPLY_TYPE_SIZE
    }

    ghost predicate Valid()
      reads this, memory
    {
      && actualNumberOfResponse == |records| <= numberOfResponses
      && numberOfResponses * Stride() <= memory.Length
      && forall i :: 0 <= i < |records| ==> Stored(i)
    }

    ghost predicate Stored(i: nat)
      requires i < |records|
      reads this, memory
    {
      && |records[i].locator| == locatorSize && i * Stride() + Stride() <= memory.Length
      && Field(memory[..], Stride(), 0, locatorSize, i) == records[i].locator
      && Field(memory[..], Stride(), locatorSize, REPLY_TYPE_SIZE, i) == EncodeWord(records[i].replyType)
    }

    constructor (n: nat, locatorSize: nat, memory: array<byte>)
      requires n * (locatorSize + REPLY_TYPE_SIZE) <= memory.Length
      ensures Valid() && records == [] && numberOfResponses == n
      ensures this.locatorSize == locatorSize && this.memory == memory
    {
      this.locatorSize, numberOfResponses, actualNumberOfResponse, this.memory := locatorSize, n, 0, memory;
      records := [];
    }

    /** The next slot takes the locator and, behind it, the reply type. */
    method AddResponse(locator: seq<byte>, replyType: word) returns (ok: bool)
      requires Valid() && |locator| == locatorSize
      modifies this, memory
      ensures Valid() && ok == (old(actualNumberOfResponse) < numberOfResponses)
      ensures records == if ok then old(records) + [Record(locator, replyType)] else old(records)
      ensures memory[numberOfResponses * Stride()..] == old(memory[numberOfResponses * Stride()..])
    {
      if actualNumberOfResponse >= numberOfResponses {
        return false;
      }
      var k := actualNumberOfResponse;
      SlotsApart(k, numberOfResponses, Stride());
      ghost var before := memory[..];
      Memcpy(memory, k * (locatorSize + REPLY_TYPE_SIZE), locator);
      ghost var middle := memory[..];
      Memcpy(memory, k * (locatorSize + REPLY_TYPE_SIZE) + locatorSize, EncodeWord(replyType));
      actualNumberOfResponse := k + 1;
      records := records + [Record(locator, replyType)];
      forall i | 0 <= i < |records| ensures Stored(i) {
        if i < k {
          assert old(Stored(i));
        }
        RecordWritten(before, k, locator, replyType, i);
      }
      ok := true;
    }

    /** What the two copies into slot `k` do to slot `i`. */
    lemma RecordWritten(before: seq<byte>, k: nat, locator: seq<byte>, replyType: word, i: nat)
      requires |locator| == locatorSize && k * Stride() + Stride() <= |before| && i * Stride() + Stride() <= |before|
      ensures var middle := Splice(before, k * Stride(), locator);
              var after := Splice(middle, k * Stride() + locatorSize, EncodeWord(replyType));
              && Field(after, Stride(), 0, locatorSize, i) ==
                 (if i == k then locator else Field(before, Stride(), 0, locatorSize, i))
              && Field(after, Stride(), locatorSize, REPLY_TYPE_SIZE, i) ==
                 (if i == k then EncodeWord(replyType) else Field(before, Stride(), locatorSize, REPLY_TYPE_SIZE, i))
    {
      var image := EncodeWord(replyType);
      var middle := Splice(before, k * Stride(), locator);
      SpliceReads(before, k * Stride(), locator);
      SpliceReads(middle, k * Stride() + locatorSize, image);
      FieldSpared(middle, Stride(), locatorSize, image, k, 0, locatorSize, i);
      if i != k {
        FieldSpared(before, Stride(), 0, locator, k, 0, locatorSize, i);
        FieldSpared(before, Stride(), 0, locator, k, locatorSize, REPLY_TYPE_SIZE, i);
        FieldSpared(middle, Stride(), locatorSize, image, k, locatorSize, REPLY_TYPE_SIZE, i);
      }
    }

    /** `get_locator` and `get_reply_type` at one position. */
    method At(position: nat) returns (ok: bool, locator: seq<byte>, replyType: word)
      requires Valid()
      ensures ok == (position < numberOfResponses)
      ensures position < |records| ==> ok && Record(locator, replyType) == records[position]
      ensures ok ==> position * Stride() + Stride() <= memory.Length &&
                     locator == Field(memory[..], Stride(), 0, locatorSize, position) &&
                     replyType == DecodeWord(Field(memory[..], Stride(), locatorSize, REPLY_TYPE_SIZE, position))
    {
      if position >= numberOfResponses {
        return false, [], 0;
      }
      var at := position * (locatorSize + REPLY_TYPE_SIZE);
      SlotsApart(position, numberOfResponses, Stride());
      if position < actualNumberOfResponse {
        assert Stored(position);
        DecodeEncodeWord(records[position].replyType);
      }
      return true, memory[at..at + locatorSize], DecodeWord(memory[locatorSize + at..locatorSize + at + REPLY_TYPE_SIZE]);
    }
  }
}
