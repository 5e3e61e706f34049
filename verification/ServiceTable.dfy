/** The table of services of a reception point, as a value. */
module ServiceTable {
  import opened Options
  import opened Bytes
  import opened Headers

  /** A C string: the bytes before the terminating zero. */
  type Name = seq<byte>

  /** `table` (whose length is `number_of_services`) and `registered_services`. */
  datatype Table = Table(slots: seq<Option<Name>>, registered: nat)

  datatype Op = Add(code: nat, name: Name) | Delete(code: nat)

  datatype Outcome = Success | Duplicated | NotFound | Halted

  function Empty(n: nat): Table {
    Table(seq(n, _ => None), 0)
  }

  /** `add_service` and `delete_service`; a failed assertion halts, the other outcomes leave the table. */
  function Apply(t: Table, op: Op): (Table, Outcome)
    requires op.code < |t.slots|
  {
    match op
    case Add(c, name) =>
      if t.slots[c].Some? then (t, Duplicated)
      else if t.registered >= |t.slots| then (t, Halted)
      else (Table(t.slots[c := Some(name)], t.registered + 1), Success)
    case Delete(c) =>
      if t.slots[c].None? then (t, NotFound)
      else (t.(slots := t.slots[c := None]), Success)
  }

  ghost predicate InRange(ops: seq<Op>, n: nat) {
    forall op <- ops :: op.code < n
  }

  function Run(t: Table, ops: seq<Op>): (r: Table)
    requires InRange(ops, |t.slots|)
    ensures |r.slots| == |t.slots|
    decreases |ops|
  {
    if ops == [] then t
    else if Apply(t, ops[0]).1 == Halted then t
    else Run(Apply(t, ops[0]).0, ops[1..])
  }

  /** The deletions of a run that found something to delete. */
  function Deletions(t: Table, ops: seq<Op>): nat
    requires InRange(ops, |t.slots|)
    decreases |ops|
  {
    if ops == [] || Apply(t, ops[0]).1 == Halted then 0
    else (if ops[0].Delete? && Apply(t, ops[0]).1 == Success then 1 else 0) + Deletions(Apply(t, ops[0]).0, ops[1..])
  }

  function Filled(slots: seq<Option<Name>>): (n: nat)
    ensures n <= |slots|
  {
    if slots == [] then 0 else (if slots[0].Some? then 1 else 0) + Filled(slots[1..])
  }

  lemma {:induction false} FilledUpdate(slots: seq<Option<Name>>, c: nat, v: Option<Name>)
    requires c < |slots|
    ensures Filled(slots[c := v]) + (if slots[c].Some? then 1 else 0) == Filled(slots) + (if v.Some? then 1 else 0)
  {
    if c == 0 {
      assert slots[c := v][1..] == slots[1..];
    } else {
      FilledUpdate(slots[1..], c - 1, v);
      assert slots[c := v][1..] == slots[1..][c - 1 := v];
    }
  }

  lemma {:induction false} AllFilledIff(slots: seq<Option<Name>>)
    ensures Filled(slots) == |slots| <==> forall c :: 0 <= c < |slots| ==> slots[c].Some?
  {
    if slots != [] {
      AllFilledIff(slots[1..]);
      assert slots == [slots[0]] + slots[1..];
    }
  }

  lemma {:induction false} FilledEmpty(n: nat)
    ensures Filled(Empty(n).slots) == 0
  {
    if n > 0 {
      FilledEmpty(n - 1);
      assert Empty(n).slots[1..] == Empty(n - 1).slots;
    }
  }

  /** Over any run, the counter has counted the filled slots and the deletions that succeeded. */
  lemma {:induction false} CounterCounts(t: Table, ops: seq<Op>)
    requires InRange(ops, |t.slots|)
    ensures Run(t, ops).registered - Filled(Run(t, ops).slots) ==
            t.registered - Filled(t.slots) + Deletions(t, ops)
    decreases |ops|
  {
    if ops != [] && Apply(t, ops[0]).1 != Halted {
      var op := ops[0];
      CounterCounts(Apply(t, op).0, ops[1..]);
      if Apply(t, op).1 == Success {
        FilledUpdate(t.slots, op.code, if op.Add? then Some(op.name) else None);
      }
    }
  }

  /** The dispatcher's check `registered_services == number_of_services` guarantees a service for every
      code exactly if nothing was ever deleted. */
  lemma CheckMeansFullIff(n: nat, ops: seq<Op>)
    requires InRange(ops, n)
    requires Run(Empty(n), ops).registered == n
    ensures (forall c :: 0 <= c < n ==> Run(Empty(n), ops).slots[c].Some?) <==> Deletions(Empty(n), ops) == 0
  {
    CounterCounts(Empty(n), ops);
    FilledEmpty(n);
    AllFilledIff(Run(Empty(n), ops).slots);
  }

  /** A deleted service can be replaced exactly while fewer additions than slots have been made: a full
      table that loses a service halts the server on the attempt to put another in its place. */
  lemma ReplaceIff(n: nat, ops: seq<Op>, code: nat, name: Name)
    requires InRange(ops, n) && code < n && Run(Empty(n), ops).slots[code].None?
    ensures Apply(Run(Empty(n), ops), Add(code, name)).1 == Success <==>
            Filled(Run(Empty(n), ops).slots) + Deletions(Empty(n), ops) < n
  {
    CounterCounts(Empty(n), ops);
    FilledEmpty(n);
  }

  lemma ReplacingInAFullTableHalts(a: Name, b: Name)
    ensures var ops := [Add(0, a), Delete(0)];
            InRange(ops, 1) && Apply(Run(Empty(1), ops), Add(0, b)).1 == Halted
  {
    var t0 := Empty(1);
    var t1 := Apply(t0, Add(0, a)).0;
    var t2 := Apply(t1, Delete(0)).0;
    assert Run(t2, []) == t2;
    assert Run(t1, [Delete(0)]) == t2;
    assert [Add(0, a), Delete(0)][1..] == [Delete(0)];
  }

  /** What the dispatcher makes of a message. */
  datatype Verdict = Registered | Invoked(service: Name) | ShutDown | Ignored | Error

  /** Only messages that ask for a service are looked up; the table is not bounds checked. */
  predicate Addressed(t: Table, message: seq<byte>) {
    |message| >= HEADER_SIZE &&
    var h := DecodeEntry(message);
    h.systemCode in {DEMSERV_ADD, DEMSERV_SEND} ==> h.clientCode < |t.slots|
  }

  function CString(s: seq<byte>): Name {
    if s == [] || s[0] == 0 then [] else [s[0]] + CString(s[1..])
  }

  /** The answer to a registration request is an error, which halts the server, unless the service is in
      the table under the same name. */
  function Judge(t: Table, message: seq<byte>): Verdict
    requires Addressed(t, message)
  {
    var h := DecodeEntry(message);
    if h.systemCode == DEMSERV_ADD then
      if t.slots[h.clientCode] == Some(CString(message[HEADER_SIZE..])) then Registered else Error
    else if h.systemCode == DEMSERV_SEND then
      if t.registered == |t.slots| && t.slots[h.clientCode].Some? then Invoked(t.slots[h.clientCode].value) else Error
    else if h.systemCode == DEMSERV_SHUTDOWN then ShutDown
    else Ignored
  }

  /** A registration of a service that the table does not hold under that name, or a request for one that it
      does not hold or while its counter has not reached its size. */
  predicate Refused(table: Table, message: seq<byte>)
    requires |message| >= HEADER_SIZE
  {
    var h := DecodeEntry(message);
    var slot := if h.clientCode < |table.slots| then table.slots[h.clientCode] else None;
    (h.systemCode == DEMSERV_ADD && slot != Some(CString(message[HEADER_SIZE..]))) ||
    (h.systemCode == DEMSERV_SEND && (slot == None || table.registered != |table.slots|))
  }

  predicate Stops(message: seq<byte>)
    requires |message| >= HEADER_SIZE
  {
    DecodeEntry(message).systemCode == DEMSERV_SHUTDOWN
  }

  /** The dispatcher is done with a request itself when it is one to shut down, or a registration it can accept
      and whose reply can be delivered. */
  predicate GivesUp(table: Table, message: seq<byte>, delivered: bool)
    requires |message| >= HEADER_SIZE
  {
    Stops(message) || (DecodeEntry(message).systemCode == DEMSERV_ADD && delivered && !Refused(table, message))
  }

  // ----- What the operations so far tell, without a table

  /** Whether one of the operations was an addition to a free code after as many additions as there are
      codes: it halts, and nothing after it happens. */
  predicate Overrun(n: nat, ops: seq<Op>)
    decreases |ops|, 0
  {
    ops != [] &&
    var before, last := ops[..|ops| - 1], ops[|ops| - 1];
    Overrun(n, before) || (last.Add? && Holds(n, before, last.code).None? && Additions(n, before) >= n)
  }

  /** The name of the last addition for code `c` that succeeded and has not been deleted since. */
  function Holds(n: nat, ops: seq<Op>, c: nat): Option<Name>
    decreases |ops|, 1
  {
    if ops == [] then None
    else
      var before, last := ops[..|ops| - 1], ops[|ops| - 1];
      if Overrun(n, ops) || last.code != c then Holds(n, before, c)
      else if last.Delete? then None
      else if Holds(n, before, c).None? then Some(last.name)
      else Holds(n, before, c)
  }

  /** How many additions succeeded. */
  function Additions(n: nat, ops: seq<Op>): nat
    decreases |ops|, 1
  {
    if ops == [] then 0
    else
      var before, last := ops[..|ops| - 1], ops[|ops| - 1];
      Additions(n, before) + if last.Add? && !Overrun(n, ops) && Holds(n, before, last.code).None? then 1 else 0
  }

  lemma {:induction false} RunSnoc(t: Table, ops: seq<Op>, op: Op)
    requires InRange(ops, |t.slots|) && op.code < |t.slots|
    ensures InRange(ops + [op], |t.slots|)
    ensures Run(t, ops + [op]) == if Halts(t, ops) then Run(t, ops) else Apply(Run(t, ops), op).0
    ensures Halts(t, ops + [op]) <==> Halts(t, ops) || Apply(Run(t, ops), op).1 == Halted
    decreases |ops|
  {
    if ops == [] {
      assert ops + [op] == [op] && [op][1..] == [];
    } else {
      assert (ops + [op])[0] == ops[0] && (ops + [op])[1..] == ops[1..] + [op];
      if Apply(t, ops[0]).1 != Halted {
        RunSnoc(Apply(t, ops[0]).0, ops[1..], op);
      }
    }
  }

  predicate Halts(t: Table, ops: seq<Op>)
    requires InRange(ops, |t.slots|)
    decreases |ops|
  {
    ops != [] && (Apply(t, ops[0]).1 == Halted || Halts(Apply(t, ops[0]).0, ops[1..]))
  }

  /** The table holds what the operations tell, and the counter has counted the additions. */
  lemma {:induction false} TableHolds(n: nat, ops: seq<Op>)
    requires InRange(ops, n)
    ensures var t := Run(Empty(n), ops);
            && t.registered == Additions(n, ops) && (Halts(Empty(n), ops) <==> Overrun(n, ops))
            && forall c :: 0 <= c < n ==> t.slots[c] == Holds(n, ops, c)
    decreases |ops|
  {
    if ops != [] {
      var before, last := ops[..|ops| - 1], ops[|ops| - 1];
      assert ops == before + [last];
      assert last in ops;
      forall op | op in before ensures op.code < n {
        assert op in ops;
      }
      TableHolds(n, before);
      RunSnoc(Empty(n), before, last);
    }
  }

  /** The dispatcher's verdict on any message, from the operations: a request for a service invokes the one
      whose name was added last for its code and not deleted since, if additions and codes are equally many,
      and is an error otherwise; a registration is an error unless that name is the one it gives. */
  lemma JudgeTells(n: nat, ops: seq<Op>, h: Entry, body: seq<byte>)
    requires InRange(ops, n) && (h.systemCode in {DEMSERV_ADD, DEMSERV_SEND} ==> h.clientCode < n)
    ensures Addressed(Run(Empty(n), ops), EncodeEntry(h) + body)
    ensures var verdict := Judge(Run(Empty(n), ops), EncodeEntry(h) + body);
            && (h.systemCode == DEMSERV_SEND ==>
                  verdict == if Additions(n, ops) == n && Holds(n, ops, h.clientCode).Some?
                             then Invoked(Holds(n, ops, h.clientCode).value) else Error)
            && (h.systemCode == DEMSERV_ADD ==>
                  verdict == if Holds(n, ops, h.clientCode) == Some(CString(body)) then Registered else Error)
            && (h.systemCode == DEMSERV_SHUTDOWN <==> verdict == ShutDown)
            && (h.systemCode !in {DEMSERV_ADD, DEMSERV_SEND, DEMSERV_SHUTDOWN} <==> verdict == Ignored)
  {
    TableHolds(n, ops);
    DecodeEncodeEntry(h, body);
    assert (EncodeEntry(h) + body)[HEADER_SIZE..] == body;
  }

  /** `Holds` says what it claims: position `k` of the operations is the addition that counts. */
  ghost predicate Counts(n: nat, ops: seq<Op>, c: nat, name: Name, k: nat) {
    && k < |ops| && ops[k] == Add(c, name) && !Overrun(n, ops[..k + 1]) && Holds(n, ops[..k], c).None?
    && forall j :: k < j < |ops| && ops[j] == Delete(c) ==> Overrun(n, ops[..j])
  }

  lemma {:induction false} HoldsIff(n: nat, ops: seq<Op>, c: nat, name: Name)
    ensures Holds(n, ops, c) == Some(name) <==> exists k: nat :: Counts(n, ops, c, name, k)
    decreases |ops|
  {
    if ops != [] {
      var before, last := ops[..|ops| - 1], ops[|ops| - 1];
      HoldsIff(n, before, c, name);
      assert ops[..|before|] == before && ops[..|ops|] == ops;
      assert forall k: nat :: k <= |before| ==> ops[..k] == before[..k];
      forall k: nat | k < |before| ensures Counts(n, ops, c, name, k) <==>
        Counts(n, before, c, name, k) && (last == Delete(c) ==> Overrun(n, before))
      {
        CountsStill(n, ops, c, name, k);
      }
      assert Counts(n, ops, c, name, |before|) <==>
             last == Add(c, name) && !Overrun(n, ops) && Holds(n, before, c).None?;
    }
  }

  lemma CountsStill(n: nat, ops: seq<Op>, c: nat, name: Name, k: nat)
    requires ops != [] && k < |ops| - 1
    ensures var before, last := ops[..|ops| - 1], ops[|ops| - 1];
            Counts(n, ops, c, name, k) <==>
            Counts(n, before, c, name, k) && (last == Delete(c) ==> Overrun(n, before))
  {
    var before := ops[..|ops| - 1];
    assert forall j: nat :: j <= |before| ==> ops[..j] == before[..j];
    assert ops[..|ops| - 1] == before;
  }
}
