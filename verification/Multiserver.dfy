/** `Remote_Multiserver_Point`: synchronous and asynchronous services behind one receiving loop. */
module Multiserver {
  import opened Options
  import opened Bytes
  import opened Headers
  import opened Bindings

  /** A service answers through a binding, or it has none. */
  datatype Kind = Sync | Async

  /** How the IPC library tags a message, according to the call that sent it. */
  datatype Tag = RpcRequest | RpcReply | SingleMessage

  const RECEPTION_BUFFER_SIZE: nat := 65536

  /** A message as the loop receives it, and the requests that other threads answered before it came. */
  datatype Incoming = Incoming(messageId: int, tag: Tag, size: nat, systemCode: word, clientCode: word, answered: set<nat>)

  datatype Invocation = Invocation(code: word, kind: Kind, bound: bool)

  datatype Point = Point(
    table: seq<Option<Kind>>,
    registered: nat,
    list: seq<Binding>,
    nextId: nat,
    freed: seq<nat>,
    received: nat,           // messages allocated
    released: nat,           // messages freed
    invoked: seq<Invocation>,
    isShutdown: bool,
    halted: bool,            // by a failed assertion, an `ERROR` or a `SizeFault`
    mismatch: bool)          // halted by the assertion of `execute_service`

  predicate Addressed(p: Point, m: Incoming) {
    m.systemCode == DEMSERV_SEND ==> m.clientCode < |p.table|
  }

  /** `execute_service`: a synchronous service insists on a binding, an asynchronous one on none. */
  predicate Executes(kind: Kind, bound: bool) {
    match kind
    case Sync => bound
    case Async => !bound
  }

  function Dispatched(p: Point, m: Incoming, bound: bool): Point
    requires Addressed(p, m)
  {
    if m.systemCode == DEMSERV_SEND then
      if p.registered != |p.table| || p.table[m.clientCode].None? then p.(halted := true)
      else
        var kind := p.table[m.clientCode].value;
        if !Executes(kind, bound) then p.(halted := true, mismatch := true)
        else p.(invoked := p.invoked + [Invocation(m.clientCode, kind, bound)], released := p.released + 1)
    else if m.systemCode == DEMSERV_SHUTDOWN then p.(isShutdown := true, released := p.released + 1)
    else p
  }

  /** Only a request to be answered gets a binding, at the end of the list. */
  function Entered(p: Point, m: Incoming): Point {
    if m.tag == RpcRequest then
      p.(list := p.list + [Binding(p.nextId, m.messageId, true)], nextId := p.nextId + 1, received := p.received + 1)
    else p.(received := p.received + 1)
  }

  function Swept(p: Point): Point {
    p.(list := Kept(p.list, p.isShutdown), freed := p.freed + Dropped(p.list, p.isShutdown))
  }

  /** One turn of the receiving loop: other threads have answered some requests, a message arrives, its
      binding enters the list, the list is swept, and the message is dispatched. */
  function Turn(p: Point, m: Incoming): Point
    requires Addressed(p, m)
  {
    var a := p.(list := Answered(p.list, m.answered));
    if m.size > RECEPTION_BUFFER_SIZE then a.(halted := true)
    else Dispatched(Swept(Entered(a, m)), m, m.tag == RpcRequest)
  }

  ghost predicate AllAddressed(p: Point, ms: seq<Incoming>) {
    forall i :: 0 <= i < |ms| ==> Addressed(p, ms[i])
  }

  ghost function Turns(p: Point, ms: seq<Incoming>): (q: Point)
    requires AllAddressed(p, ms)
    ensures q.table == p.table
    decreases |ms|
  {
    if ms == [] || p.isShutdown || p.halted then p else Turns(Turn(p, ms[0]), ms[1..])
  }

  lemma {:induction false} SweepConcat(a: seq<Binding>, b: Binding)
    requires b.busy
    ensures Kept(a + [b], false) == Kept(a, false) + [b] && Dropped(a + [b], false) == Dropped(a, false)
  {
    if a == [] {
      assert a + [b] == [b];
      assert Kept([b], false) == [b] + Kept([], false);
    } else {
      SweepConcat(a[1..], b);
      assert (a + [b])[1..] == a[1..] + [b] && (a + [b])[0] == a[0];
    }
  }

  /** Although the sweep comes between a request's entry and its dispatch, the request it is dispatched for
      is still in the list, at the end, and busy. */
  lemma DispatchedWhileListed(p: Point, m: Incoming)
    requires Addressed(p, m) && !p.isShutdown && m.tag == RpcRequest && m.size <= RECEPTION_BUFFER_SIZE
    ensures var q := Turn(p, m);
            q.list != [] && q.list[|q.list| - 1] == Binding(p.nextId, m.messageId, true)
    ensures Turn(p, m).freed == p.freed + Dropped(Answered(p.list, m.answered), false)
  {
    SweepConcat(Answered(p.list, m.answered), Binding(p.nextId, m.messageId, true));
  }

  /** The messages among the first `n` whose system code the dispatcher does not know. */
  function Unknown(ms: seq<Incoming>, n: nat): nat
    requires n <= |ms|
  {
    if n == 0 then 0
    else (if ms[n - 1].systemCode in {DEMSERV_SEND, DEMSERV_SHUTDOWN} then 0 else 1) + Unknown(ms, n - 1)
  }

  lemma {:induction false} UnknownTail(ms: seq<Incoming>, n: nat)
    requires 0 < n <= |ms|
    ensures Unknown(ms, n) == Unknown(ms[..1], 1) + Unknown(ms[1..], n - 1)
  {
    if n > 1 {
      UnknownTail(ms, n - 1);
    } else {
      assert Unknown(ms[1..], 0) == 0;
    }
  }

  lemma TurnFrees(p: Point, m: Incoming)
    requires Addressed(p, m) && !Turn(p, m).halted
    ensures var q := Turn(p, m);
            q.received == p.received + 1 &&
            q.received - q.released == p.received - p.released + Unknown([m], 1)
  {
    assert Unknown([m], 0) == 0;
  }

  /** Over any run of the loop that does not halt, the messages that leak are those with an invalid code. */
  lemma {:induction false} LeakedAreUnknown(p: Point, ms: seq<Incoming>)
    requires AllAddressed(p, ms) && !Turns(p, ms).halted
    ensures var q := Turns(p, ms);
            && 0 <= q.received - p.received <= |ms|
            && q.received - q.released == p.received - p.released + Unknown(ms, q.received - p.received)
    decreases |ms|
  {
    if ms != [] && !p.isShutdown && !p.halted {
      var q := Turn(p, ms[0]);
      assert Turns(p, ms) == Turns(q, ms[1..]);
      if q.halted {
        assert false;
      }
      TurnFrees(p, ms[0]);
      LeakedAreUnknown(q, ms[1..]);
      UnknownTail(ms, Turns(p, ms).received - p.received);
      assert ms[..1] == [ms[0]];
    } else {
      assert Unknown(ms, 0) == 0;
    }
  }

  ghost predicate Owned(p: Point) {
    NumberedUp(p.list, p.nextId) && Accounted(p.list, p.freed, p.nextId)
  }

  lemma {:induction false} SweepKeepsNumbers(list: seq<Binding>, limit: nat, isShutdown: bool)
    requires NumberedUp(list, limit)
    ensures NumberedUp(Kept(list, isShutdown), limit)
  {
    if list != [] {
      SweepKeepsNumbers(list[1..], limit, isShutdown);
      var kept := Kept(list[1..], isShutdown);
      SweepKeeps(list[1..], isShutdown);
      forall j | 0 <= j < |kept| ensures list[0].id < kept[j].id {
        assert kept[j] in list[1..];
      }
    }
  }

  lemma NumberedSnoc(list: seq<Binding>, limit: nat, b: Binding)
    requires NumberedUp(list, limit) && b.id == limit
    ensures NumberedUp(list + [b], limit + 1)
  {
  }

  lemma IdsSnoc(list: seq<Binding>, b: Binding)
    ensures multiset(Ids(list + [b])) == multiset(Ids(list)) + multiset{b.id}
  {
    assert Ids(list + [b]) == Ids(list) + [b.id];
    MultisetSnoc(Ids(list), b.id);
  }

  lemma OneMore(ids: multiset<nat>, freed: multiset<nat>, all: multiset<nat>, x: nat)
    requires ids + freed == all
    ensures ids + multiset{x} + freed == all + multiset{x}
  {
  }

  lemma AccountedSnoc(list: seq<Binding>, freed: seq<nat>, limit: nat, b: Binding)
    requires Accounted(list, freed, limit) && b.id == limit
    ensures Accounted(list + [b], freed, limit + 1)
  {
    IdsSnoc(list, b);
    MultisetSnoc(UpTo(limit), limit);
    OneMore(multiset(Ids(list)), multiset(freed), multiset(UpTo(limit)), limit);
  }

  lemma AnswerKeepsOwned(p: Point, ids: set<nat>)
    requires Owned(p)
    ensures Owned(p.(list := Answered(p.list, ids)))
  {
    AnsweredIds(p.list, ids);
  }

  lemma EntryKeepsOwned(p: Point, m: Incoming)
    requires Owned(p)
    ensures Owned(Entered(p, m))
  {
    if m.tag == RpcRequest {
      var b := Binding(p.nextId, m.messageId, true);
      NumberedSnoc(p.list, p.nextId, b);
      AccountedSnoc(p.list, p.freed, p.nextId, b);
    }
  }

  lemma SweepKeepsOwned(p: Point)
    requires Owned(p)
    ensures Owned(Swept(p))
  {
    SweepKeepsNumbers(p.list, p.nextId, p.isShutdown);
    SweepAccounts(p.list, p.freed, p.nextId, p.isShutdown);
  }

  lemma DispatchSparesList(p: Point, m: Incoming, bound: bool)
    requires Addressed(p, m)
    ensures var q := Dispatched(p, m, bound); q.list == p.list && q.freed == p.freed && q.nextId == p.nextId
  {
  }

  lemma SameOwned(p: Point, q: Point)
    requires Owned(p) && q.list == p.list && q.freed == p.freed && q.nextId == p.nextId
    ensures Owned(q)
  {
  }

  lemma TurnKeepsOwned(p: Point, m: Incoming)
    requires Owned(p) && Addressed(p, m)
    ensures Owned(Turn(p, m))
  {
    var a := p.(list := Answered(p.list, m.answered));
    AnswerKeepsOwned(p, m.answered);
    if m.size > RECEPTION_BUFFER_SIZE {
      SameOwned(a, Turn(p, m));
    } else {
      var s := Swept(Entered(a, m));
      EntryKeepsOwned(a, m);
      SweepKeepsOwned(Entered(a, m));
      DispatchSparesList(s, m, m.tag == RpcRequest);
      SameOwned(s, Turn(p, m));
    }
  }

  /** Over any number of turns each request is in the list or has been freed, once. */
  lemma {:induction false} TurnsKeepOwned(p: Point, ms: seq<Incoming>)
    requires Owned(p) && AllAddressed(p, ms)
    ensures Owned(Turns(p, ms))
    decreases |ms|
  {
    if ms != [] && !p.isShutdown && !p.halted {
      var q := Turn(p, ms[0]);
      TurnKeepsOwned(p, ms[0]);
      assert AllAddressed(q, ms[1..]);
      TurnsKeepOwned(q, ms[1..]);
      assert Turns(p, ms) == Turns(q, ms[1..]);
    }
  }

  /** After a run that ends in a shutdown, the last sweep has freed every request of it exactly once. */
  lemma AllFreedAtTheEnd(p: Point, ms: seq<Incoming>, id: nat)
    requires Owned(p) && AllAddressed(p, ms) && Turns(p, ms).isShutdown
    ensures var q := Swept(Turns(p, ms));
            q.list == [] && multiset(q.freed)[id] == if id < q.nextId then 1 else 0
  {
    TurnsKeepOwned(p, ms);
    LastSweep(Turns(p, ms), id);
  }

  lemma LastSweep(p: Point, id: nat)
    requires Owned(p) && p.isShutdown
    ensures Swept(p).list == [] && multiset(Swept(p).freed)[id] == if id < p.nextId then 1 else 0
  {
    ShutdownSweepsAll(p.list);
    SweepAccounts(p.list, p.freed, p.nextId, true);
    AccountedOnce(Swept(p).list, Swept(p).freed, p.nextId, id);
  }

  // ----- What a turn and a run of the loop do, told by the messages

  /** A request for a service that the table holds as asynchronous, or another message for a synchronous one,
      while the table counts as full. */
  predicate Mismatched(p: Point, m: Incoming) {
    && m.systemCode == DEMSERV_SEND && m.size <= RECEPTION_BUFFER_SIZE
    && p.registered == |p.table| && m.clientCode < |p.table| && p.table[m.clientCode].Some?
    && (p.table[m.clientCode].value == Sync <==> m.tag != RpcRequest)
  }

  /** What halts the server: a message that does not fit in the buffer, and a request for a service while the
      table does not count as full, or that it does not hold, or not as the message has it. */
  predicate Fatal(p: Point, m: Incoming) {
    m.size > RECEPTION_BUFFER_SIZE ||
    (m.systemCode == DEMSERV_SEND &&
      (p.registered != |p.table| || m.clientCode >= |p.table| || p.table[m.clientCode].None? || Mismatched(p, m)))
  }

  predicate EndsLoop(p: Point, m: Incoming) {
    Fatal(p, m) || m.systemCode == DEMSERV_SHUTDOWN
  }

  /** The position of the first message that ends the loop, or their number. */
  function FirstEnd(p: Point, ms: seq<Incoming>): (k: nat)
    ensures k <= |ms| && (k < |ms| ==> EndsLoop(p, ms[k])) && forall j :: 0 <= j < k ==> !EndsLoop(p, ms[j])
  {
    if ms == [] || EndsLoop(p, ms[0]) then 0 else 1 + FirstEnd(p, ms[1..])
  }

  /** One turn: of the list, the requests not yet answered stay, and a request that came in is behind them; a
      message that fits and is not fatal is dispatched. */
  lemma TurnServes(p: Point, m: Incoming)
    requires Addressed(p, m) && !p.isShutdown && !p.halted && !p.mismatch && m.size <= RECEPTION_BUFFER_SIZE
    ensures var q := Turn(p, m);
            var answered := Answered(p.list, m.answered);
            var entry := if m.tag == RpcRequest then [Binding(p.nextId, m.messageId, true)] else [];
            && q.list == Kept(answered, false) + entry && q.freed == p.freed + Dropped(answered, false)
            && q.nextId == p.nextId + |entry| && q.received == p.received + 1
            && q.table == p.table && q.registered == p.registered
            && (q.halted <==> Fatal(p, m)) && (q.mismatch <==> Mismatched(p, m))
            && (q.isShutdown <==> m.systemCode == DEMSERV_SHUTDOWN)
            && q.invoked == p.invoked + Calls(p.table, [m], if Fatal(p, m) then 0 else 1)
  {
    var answered := Answered(p.list, m.answered);
    if m.tag == RpcRequest {
      SweepConcat(answered, Binding(p.nextId, m.messageId, true));
    } else {
      assert Kept(answered, false) + [] == Kept(answered, false);
    }
  }

  lemma OversizedTurn(p: Point, m: Incoming)
    requires Addressed(p, m) && m.size > RECEPTION_BUFFER_SIZE
    ensures Turn(p, m) == p.(list := Answered(p.list, m.answered), halted := true)
  {
  }

  /** The services that the first `n` messages call for: each by the code in the message and the kind in the
      table, with a binding exactly if an answer is expected. */
  function Calls(table: seq<Option<Kind>>, ms: seq<Incoming>, n: nat): seq<Invocation>
    requires n <= |ms|
    decreases n
  {
    if n == 0 then []
    else
      var m := ms[0];
      (if m.systemCode == DEMSERV_SEND && m.clientCode < |table| && table[m.clientCode].Some?
       then [Invocation(m.clientCode, table[m.clientCode].value, m.tag == RpcRequest)] else []) +
      Calls(table, ms[1..], n - 1)
  }

  /** How many of the first `n` messages want an answer. */
  function Wanted(ms: seq<Incoming>, n: nat): nat
    requires n <= |ms|
    decreases n
  {
    if n == 0 then 0 else (if ms[0].tag == RpcRequest then 1 else 0) + Wanted(ms[1..], n - 1)
  }

  /** The state after the messages before position `e`, none of which ends the loop, and the one there, which
      does, if there is one. */
  ghost predicate ServesTo(p: Point, q: Point, ms: seq<Incoming>, e: nat)
    requires e <= |ms|
  {
    if e == |ms| then
      && !q.halted && !q.mismatch && !q.isShutdown
      && q.invoked == p.invoked + Calls(p.table, ms, e) && q.nextId == p.nextId + Wanted(ms, e)
    else if Fatal(p, ms[e]) then
      && q.halted && !q.isShutdown && (q.mismatch <==> Mismatched(p, ms[e]))
      && q.invoked == p.invoked + Calls(p.table, ms, e)
      && q.nextId == p.nextId + Wanted(ms, if ms[e].size > RECEPTION_BUFFER_SIZE then e else e + 1)
    else
      && !q.halted && !q.mismatch && q.isShutdown
      && q.invoked == p.invoked + Calls(p.table, ms, e + 1) && q.nextId == p.nextId + Wanted(ms, e + 1)
  }

  ghost predicate Serves(p: Point, q: Point, ms: seq<Incoming>) {
    ServesTo(p, q, ms, FirstEnd(p, ms))
  }

  lemma {:induction false} SameEnd(p: Point, q: Point, ms: seq<Incoming>)
    requires q.table == p.table && q.registered == p.registered
    ensures FirstEnd(q, ms) == FirstEnd(p, ms)
  {
    if ms != [] {
      SameEnd(p, q, ms[1..]);
    }
  }

  lemma ServesLast(p: Point, ms: seq<Incoming>)
    requires AllAddressed(p, ms) && ms != [] && !p.isShutdown && !p.halted && !p.mismatch && EndsLoop(p, ms[0])
    ensures Serves(p, Turn(p, ms[0]), ms)
  {
    var m := ms[0];
    assert Wanted(ms[1..], 0) == 0 && Calls(p.table, ms[1..], 0) == [] && Calls(p.table, [m][1..], 0) == [];
    assert Calls(p.table, [m], 1) == Calls(p.table, ms, 1);
    if m.size > RECEPTION_BUFFER_SIZE {
      OversizedTurn(p, m);
    } else {
      TurnServes(p, m);
    }
  }

  lemma ServesOneMore(p: Point, t: Point, q: Point, ms: seq<Incoming>)
    requires AllAddressed(p, ms) && ms != [] && !p.isShutdown && !p.halted && !p.mismatch && !EndsLoop(p, ms[0])
    requires t == Turn(p, ms[0]) && Serves(t, q, ms[1..])
    ensures Serves(p, q, ms)
  {
    TurnServes(p, ms[0]);
    SameEnd(p, t, ms[1..]);
    var e := FirstEnd(p, ms[1..]);
    assert FirstEnd(p, ms) == e + 1;
    assert Wanted(ms[1..], 0) == 0;
    ServesBehind(p, t, q, ms, e);
  }

  lemma SameJudgement(p: Point, q: Point, m: Incoming)
    requires q.table == p.table && q.registered == p.registered
    ensures (Fatal(q, m) <==> Fatal(p, m)) && (Mismatched(q, m) <==> Mismatched(p, m))
  {
  }

  lemma ServesBehind(p: Point, t: Point, q: Point, ms: seq<Incoming>, e: nat)
    requires ms != [] && e <= |ms[1..]| && ServesTo(t, q, ms[1..], e) && t.table == p.table && t.registered == p.registered
    requires t.invoked == p.invoked + Calls(p.table, [ms[0]], 1) && t.nextId == p.nextId + Wanted(ms, 1)
    ensures ServesTo(p, q, ms, e + 1)
  {
    var m := Calls(p.table, [ms[0]], 1);
    assert Wanted(ms[1..], 0) == 0;
    CallsCons(p.table, ms, e);
    assert p.invoked + m + Calls(p.table, ms[1..], e) == p.invoked + (m + Calls(p.table, ms[1..], e));
    if e < |ms[1..]| {
      SameJudgement(p, t, ms[1..][e]);
      CallsCons(p.table, ms, e + 1);
      assert p.invoked + m + Calls(p.table, ms[1..], e + 1) == p.invoked + (m + Calls(p.table, ms[1..], e + 1));
    }
  }

  lemma CallsCons(table: seq<Option<Kind>>, ms: seq<Incoming>, n: nat)
    requires ms != [] && n <= |ms[1..]|
    ensures Calls(table, ms, n + 1) == Calls(table, [ms[0]], 1) + Calls(table, ms[1..], n)
    ensures Wanted(ms, n + 1) == (if ms[0].tag == RpcRequest then 1 else 0) + Wanted(ms[1..], n)
  {
    assert Calls(table, [ms[0]][1..], 0) == [];
  }

  /** Over any messages: the first one that ends the loop decides how it ends, and up to there each request for a
      service is dispatched to the service of its code, in order, with a binding exactly if its sender
      waits; nothing but such requests enters the list. */
  lemma {:induction false} TurnsServe(p: Point, ms: seq<Incoming>)
    requires AllAddressed(p, ms) && !p.isShutdown && !p.halted && !p.mismatch
    ensures Serves(p, Turns(p, ms), ms)
    decreases |ms|
  {
    if ms != [] {
      var t := Turn(p, ms[0]);
      if EndsLoop(p, ms[0]) {
        ServesLast(p, ms);
        assert t.isShutdown || t.halted;
        assert Turns(p, ms) == t;
      } else {
        TurnServes(p, ms[0]);
        TurnsServe(t, ms[1..]);
        assert Turns(p, ms) == Turns(t, ms[1..]);
        ServesOneMore(p, t, Turns(t, ms[1..]), ms);
      }
    } else {
      assert p.invoked + [] == p.invoked;
    }
  }

  /** The assertion about kinds stops a receiver if and only if the first message to end its loop is one that
      does not match its table. */
  lemma DisagreementIsFatalIff(p: Point, ms: seq<Incoming>)
    requires AllAddressed(p, ms) && !p.isShutdown && !p.halted && !p.mismatch
    ensures Turns(p, ms).mismatch <==> FirstEnd(p, ms) < |ms| && Mismatched(p, ms[FirstEnd(p, ms)])
  {
    TurnsServe(p, ms);
  }
}

/** The object behind the value. */
module MultiserverPoints {
  import opened Options
  import opened Headers
  import opened Bindings
  import opened Multiserver
  import opened DoublyLinkedList

  datatype IncludeOutcome = Included | Duplicated | AssertFailed

  class RemoteMultiserverPoint {
    const numberOfServices: nat
    const table: array<Option<Kind>>
    const bindingList: BindingList
    var registeredServices: nat
    var isShutdown: bool
    var halted: bool
    ghost var mismatch: bool
    ghost var received: nat
    ghost var released: nat
    ghost var invoked: seq<Invocation>

    ghost predicate Valid()
      reads this, table, bindingList, bindingList.Repr
    {
      table.Length == numberOfServices && bindingList.Valid() &&
      this !in bindingList.Repr && table !in bindingList.Repr
    }

    ghost function Abs(): Point
      reads this, table, bindingList
    {
      Point(table[..], registeredServices, bindingList.contents, bindingList.nextId, bindingList.freedNodes,
            received, released, invoked, isShutdown, halted, mismatch)
    }

    constructor (n: nat)
      ensures Valid() && fresh(table) && fresh(bindingList.Repr)
      ensures Abs() == Point(seq(n, _ => None), 0, [], 0, [], 0, 0, [], false, false, false)
    {
      numberOfServices, registeredServices := n, 0;
      isShutdown, halted, mismatch := false, false, false;
      received, released, invoked := 0, 0, [];
      table := new Option<Kind>[n](_ => None);
      bindingList := new BindingList();
      new;
      assert table[..] == seq(n, _ => None);
    }

    /** `include_service`. */
    method IncludeService(code: nat, kind: Kind) returns (outcome: IncludeOutcome)
      requires Valid()
      modifies this`registeredServices, table
      ensures Valid()
      ensures outcome == Included <==>
              code < numberOfServices && old(table[..])[code].None? && old(registeredServices) < numberOfServices
      ensures outcome == Duplicated <==> code < numberOfServices && old(table[..])[code].Some?
      ensures Abs() == if outcome == Included
                       then old(Abs()).(table := old(table[..])[code := Some(kind)], registered := old(registeredServices) + 1)
                       else old(Abs())
    {
      if code >= numberOfServices {
        return AssertFailed;
      }
      if table[code].Some? {
        return Duplicated;
      }
      if registeredServices >= numberOfServices {
        return AssertFailed;
      }
      table[code] := Some(kind);
      registeredServices := registeredServices + 1;
      outcome := Included;
    }

    /** `dispatcher`; `bound` says whether the message came with a binding. */
    method Dispatcher(m: Incoming, bound: bool)
      requires Valid() && Addressed(Abs(), m)
      modifies this`isShutdown, this`halted, this`mismatch, this`released, this`invoked
      ensures Valid() && Abs() == Dispatched(old(Abs()), m, bound)
    {
      if m.systemCode == DEMSERV_SEND {
        if registeredServices != numberOfServices || table[m.clientCode].None? {
          halted := true;
        } else if !Executes(table[m.clientCode].value, bound) {
          halted, mismatch := true, true;
        } else {
          invoked := invoked + [Invocation(m.clientCode, table[m.clientCode].value, bound)];
          released := released + 1;
        }
      } else if m.systemCode == DEMSERV_SHUTDOWN {
        released := released + 1;
        isShutdown := true;
      }
    }

    /** The message gets its place in memory and, if it is to be answered, a binding. */
    method Enter(m: Incoming) returns (bound: bool)
      requires Valid()
      modifies this`received, bindingList.Repr
      ensures Valid() && fresh(bindingList.Repr - old(bindingList.Repr))
      ensures Abs() == Entered(old(Abs()), m) && bound == (m.tag == RpcRequest)
    {
      received := received + 1;
      bound := false;
      if m.tag == RpcRequest {
        var clientBinding := bindingList.Append(m.messageId);
        bound := true;
      }
    }

    method Sweep()
      requires Valid()
      modifies bindingList.Repr
      ensures Valid() && bindingList.Repr == old(bindingList.Repr) && Abs() == Swept(old(Abs()))
    {
      bindingList.Sweep(isShutdown);
    }

    method Answer(ids: set<nat>)
      requires Valid()
      modifies bindingList.Repr
      ensures Valid() && bindingList.Repr == old(bindingList.Repr)
      ensures Abs() == old(Abs()).(list := Answered(old(Abs()).list, ids))
    {
      bindingList.Answer(ids);
    }

    /** One turn of `locator_deamon_engine`. */
    method TakeTurn(m: Incoming)
      requires Valid() && Addressed(Abs(), m)
      modifies this, bindingList.Repr
      ensures Valid() && fresh(bindingList.Repr - old(bindingList.Repr))
      ensures Abs() == Turn(old(Abs()), m)
    {
      Answer(m.answered);
      if m.size > RECEPTION_BUFFER_SIZE {
        halted := true;
        return;
      }
      var bound := Enter(m);
      Sweep();
      Dispatcher(m, bound);
    }

    /** `locator_deamon_engine` over the messages that arrive. */
    method LocatorDeamonEngine(ms: seq<Incoming>)
      requires Valid() && AllAddressed(Abs(), ms)
      modifies this, bindingList.Repr
      ensures Valid() && fresh(bindingList.Repr - old(bindingList.Repr))
      ensures Abs() == Turns(old(Abs()), ms)
    {
      var k := 0;
      while k < |ms| && !isShutdown && !halted
        invariant Valid() && fresh(bindingList.Repr - old(bindingList.Repr)) && 0 <= k <= |ms|
        invariant AllAddressed(Abs(), ms[k..]) && Turns(Abs(), ms[k..]) == Turns(old(Abs()), ms)
        decreases |ms| - k
      {
        assert ms[k..][0] == ms[k] && ms[k..][1..] == ms[k + 1..];
        assert Addressed(Abs(), ms[k..][0]);
        TakeTurn(ms[k]);
        k := k + 1;
      }
    }

    /** The teardown at the end of `shutdown`: the last sweep frees whatever is left. */
    method TearDown()
      requires Valid() && isShutdown
      modifies table, bindingList.Repr
      ensures Valid() && bindingList.contents == [] && forall c :: 0 <= c < numberOfServices ==> table[c] == None
      ensures bindingList.freedNodes == old(bindingList.freedNodes) + Ids(old(bindingList.contents))
      ensures Abs() == Swept(old(Abs())).(table := Abs().table)
    {
      for i := 0 to numberOfServices
        modifies table
        invariant forall c :: 0 <= c < i ==> table[c] == None
      {
        if table[i].Some? {
          table[i] := None;
        }
      }
      ShutdownSweepsAll(bindingList.contents);
      bindingList.Sweep(isShutdown);
    }
  }
}

/** Several such points sending each other messages. */
module MultiserverNetwork {
  import opened Options
  import opened Bytes
  import opened Headers
  import opened Multiserver

  datatype Message = Message(to: nat, tag: Tag, size: nat, systemCode: word, clientCode: word)

  datatype Net = Net(peers: seq<Point>, flight: seq<Message>)

  datatype Action =
    | Include(at: nat, code: word, kind: Kind)
    | Delete(at: nat, code: word)
    | AsyncSend(from: nat, to: nat, size: nat, systemCode: word, code: word)
    | RpcSend(from: nat, to: nat, size: nat, systemCode: word, code: word)
    | Reply(from: nat, to: nat, size: nat, code: word)
    | Deliver(k: nat, messageId: int, answered: set<nat>)

  ghost predicate Has(n: Net, p: nat, c: nat, kind: Kind) {
    p < |n.peers| && c < |n.peers[p].table| && n.peers[p].table[c] == Some(kind)
  }

  /** What the peers have agreed on: which codes are synchronous and which are not. */
  type Agreement = word -> Kind

  ghost predicate Conforms(agreed: Agreement, p: Point) {
    forall c: word :: c < |p.table| && p.table[c].Some? ==> p.table[c].value == agreed(c)
  }

  /** Tables that hold the same code hold it with the same kind. */
  ghost predicate KindsAgree(n: Net) {
    forall p: nat, q: nat, c: word, k, l :: Has(n, p, c, k) && Has(n, q, c, l) ==> k == l
  }

  /** The agreement that such tables amount to. */
  ghost function AgreementOf(n: Net): Agreement {
    (c: word) => if exists p: nat :: Has(n, p, c, Sync) then Sync else Async
  }

  lemma AgreementExists(n: Net, p: nat)
    requires KindsAgree(n) && p < |n.peers|
    ensures Conforms(AgreementOf(n), n.peers[p])
  {
    forall c: word | c < |n.peers[p].table| && n.peers[p].table[c].Some?
      ensures n.peers[p].table[c].value == AgreementOf(n)(c)
    {
      assert Has(n, p, c, n.peers[p].table[c].value);
    }
  }

  function Arrival(m: Message, messageId: int, answered: set<nat>): Incoming {
    Incoming(messageId, m.tag, m.size, m.systemCode, m.clientCode, answered)
  }

  /** Services are included under the kind agreed on. Sends pass the assertions of `async_send` and
      `rpc_send`, and replies carry asynchronous codes. */
  ghost predicate Enabled(agreed: Agreement, n: Net, a: Action) {
    match a
    case Include(p, c, kind) =>
      && p < |n.peers| && c < |n.peers[p].table| && n.peers[p].table[c].None?
      && n.peers[p].registered < |n.peers[p].table| && kind == agreed(c)
    case Delete(p, c) => p < |n.peers| && c < |n.peers[p].table|
    case AsyncSend(p, to, _, sys, c) =>
      to < |n.peers| && (sys == DEMSERV_SHUTDOWN || Has(n, p, c, Async))
    case RpcSend(p, to, _, _, c) => to < |n.peers| && Has(n, p, c, Sync)
    case Reply(p, to, _, c) => to < |n.peers| && agreed(c) == Async
    case Deliver(k, id, answered) =>
      && k < |n.flight| && n.flight[k].to < |n.peers|
      && !n.peers[n.flight[k].to].isShutdown && !n.peers[n.flight[k].to].halted
      && Addressed(n.peers[n.flight[k].to], Arrival(n.flight[k], id, answered))
  }

  /** A message is delivered, in any order, by one turn of its receiver's loop. */
  ghost function Next(agreed: Agreement, n: Net, a: Action): Net
    requires Enabled(agreed, n, a)
  {
    match a
    case Include(p, c, kind) =>
      var q := n.peers[p];
      n.(peers := n.peers[p := q.(table := q.table[c := Some(kind)], registered := q.registered + 1)])
    case Delete(p, c) =>
      var q := n.peers[p];
      n.(peers := n.peers[p := q.(table := q.table[c := None])])
    case AsyncSend(p, to, size, sys, c) => n.(flight := n.flight + [Message(to, SingleMessage, size, sys, c)])
    case RpcSend(p, to, size, sys, c) => n.(flight := n.flight + [Message(to, RpcRequest, size, sys, c)])
    case Reply(p, to, size, c) => n.(flight := n.flight + [Message(to, RpcReply, size, DEMSERV_SEND, c)])
    case Deliver(k, id, answered) =>
      var m := n.flight[k];
      Net(n.peers[m.to := Turn(n.peers[m.to], Arrival(m, id, answered))], n.flight[..k] + n.flight[k + 1..])
  }

  /** The service a message asks for is of the kind its tag calls for. */
  ghost predicate Vouched(agreed: Agreement, m: Message) {
    m.systemCode == DEMSERV_SEND ==> (agreed(m.clientCode) == Sync <==> m.tag == RpcRequest)
  }

  /** A peer invoked its services as they demand and was never stopped by the assertion that checks it. */
  ghost predicate Respects(p: Point) {
    !p.mismatch && forall k :: 0 <= k < |p.invoked| ==> (p.invoked[k].bound <==> p.invoked[k].kind == Sync)
  }

  ghost predicate Inv(agreed: Agreement, n: Net) {
    && (forall k :: 0 <= k < |n.flight| ==> Vouched(agreed, n.flight[k]))
    && (forall p :: 0 <= p < |n.peers| ==> Conforms(agreed, n.peers[p]) && Respects(n.peers[p]))
  }

  lemma DeliveryRespects(agreed: Agreement, p: Point, m: Message, messageId: int, answered: set<nat>)
    requires Conforms(agreed, p) && Respects(p) && Vouched(agreed, m)
    requires Addressed(p, Arrival(m, messageId, answered))
    ensures var q := Turn(p, Arrival(m, messageId, answered)); Conforms(agreed, q) && Respects(q)
  {
  }

  lemma NextKeeps(agreed: Agreement, n: Net, a: Action)
    requires Inv(agreed, n) && Enabled(agreed, n, a)
    ensures Inv(agreed, Next(agreed, n, a))
  {
    var h := Next(agreed, n, a);
    if a.Deliver? {
      var m := n.flight[a.k];
      DeliveryRespects(agreed, n.peers[m.to], m, a.messageId, a.answered);
    }
    forall k | 0 <= k < |h.flight| ensures Vouched(agreed, h.flight[k]) {
      if a.Deliver? {
        assert h.flight[k] == n.flight[if k < a.k then k else k + 1];
      }
    }
  }

  ghost predicate LegalRun(agreed: Agreement, n: Net, actions: seq<Action>)
    decreases |actions|
  {
    actions != [] ==> Enabled(agreed, n, actions[0]) && LegalRun(agreed, Next(agreed, n, actions[0]), actions[1..])
  }

  ghost function Run(agreed: Agreement, n: Net, actions: seq<Action>): (r: Net)
    requires LegalRun(agreed, n, actions)
    ensures |r.peers| == |n.peers|
    decreases |actions|
  {
    if actions == [] then n else Run(agreed, Next(agreed, n, actions[0]), actions[1..])
  }

  lemma {:induction false} RunKeeps(agreed: Agreement, n: Net, actions: seq<Action>)
    requires Inv(agreed, n) && LegalRun(agreed, n, actions)
    ensures Inv(agreed, Run(agreed, n, actions))
    decreases |actions|
  {
    if actions != [] {
      NextKeeps(agreed, n, actions[0]);
      RunKeeps(agreed, Next(agreed, n, actions[0]), actions[1..]);
    }
  }

  /** Nothing has been sent yet, and what the tables hold, if anything, is as agreed. */
  ghost predicate Outset(agreed: Agreement, n: Net) {
    && n.flight == []
    && forall q :: 0 <= q < |n.peers| ==>
         Conforms(agreed, n.peers[q]) && n.peers[q].invoked == [] && !n.peers[q].mismatch
  }

  /** Whatever has been agreed, from empty tables or others: in every run each synchronous service is invoked
      with a binding, each asynchronous one without, and the assertions of `execute_service` never fail. */
  lemma KindsAreRespected(agreed: Agreement, n: Net, actions: seq<Action>, p: nat)
    requires Outset(agreed, n) && p < |n.peers| && LegalRun(agreed, n, actions)
    ensures Respects(Run(agreed, n, actions).peers[p])
  {
    RunKeeps(agreed, n, actions);
  }

  /** Tables that are already filled need only agree with each other. */
  lemma FilledTablesAreRespected(n: Net, actions: seq<Action>, p: nat)
    requires KindsAgree(n) && n.flight == [] && p < |n.peers| && LegalRun(AgreementOf(n), n, actions)
    requires forall q :: 0 <= q < |n.peers| ==> n.peers[q].invoked == [] && !n.peers[q].mismatch
    ensures Respects(Run(AgreementOf(n), n, actions).peers[p])
  {
    forall q | 0 <= q < |n.peers| ensures Conforms(AgreementOf(n), n.peers[q]) {
      AgreementExists(n, q);
    }
    KindsAreRespected(AgreementOf(n), n, actions, p);
  }
}
