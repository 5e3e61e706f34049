/** The loop of `Remote_Reception_Point`, which sweeps between a request's entry and its dispatch. */
module RemoteServer {
  import opened Bytes
  import opened Headers
  import opened Bindings
  import opened ServiceTable

  /** A message as the IPC library delivers it, and the requests that other threads answered before. */
  datatype Incoming = Incoming(messageId: int, body: seq<byte>, answered: set<nat>)

  /** A dispatched request; `live` says whether its binding was in the list, unanswered, at that moment. */
  datatype Dispatch = Dispatch(id: nat, messageId: int, message: seq<byte>, live: bool)

  datatype Point = Point(
    table: Table,
    list: seq<Binding>,      // `fd` holds the identifier of the message
    nextId: nat,
    freed: seq<nat>,
    answered: set<nat>,
    log: seq<Dispatch>,
    replies: seq<int>,       // the shutdown requests replied to by the loop itself
    isShutdown: bool,
    halted: bool)

  /** The library fills a buffer of 4096 bytes; the codes in the message are not checked. */
  predicate Legal(table: Table, m: Incoming) {
    HEADER_SIZE <= |m.body| <= 4096 && Addressed(table, m.body)
  }

  function Answering(p: Point, ids: set<nat>): Point {
    p.(list := Answered(p.list, ids), answered := p.answered + ids)
  }

  function Replied(p: Point, m: Incoming): Point
    requires |m.body| >= HEADER_SIZE
  {
    if DecodeEntry(m.body).systemCode == DEMSERV_SHUTDOWN then p.(replies := p.replies + [m.messageId]) else p
  }

  function Entered(p: Point, m: Incoming): Point {
    p.(list := [Binding(p.nextId, m.messageId, true)] + p.list, nextId := p.nextId + 1)
  }

  function Swept(p: Point): Point {
    p.(list := Kept(p.list, p.isShutdown), freed := p.freed + Dropped(p.list, p.isShutdown))
  }

  /** The dispatcher on request `id`. */
  function Dispatched(p: Point, id: nat, m: Incoming, verdict: Verdict): Point
    requires p.list != []
  {
    var q := p.(log := p.log + [Dispatch(id, m.messageId, m.body, Binding(id, m.messageId, true) in p.list)]);
    match verdict
    case Registered => q.(list := q.list[0 := q.list[0].(busy := false)], answered := q.answered + {id})
    case Invoked(_) => q
    case ShutDown => q.(list := q.list[0 := q.list[0].(busy := false)], answered := q.answered + {id}, isShutdown := true)
    case Ignored => q
    case Error => q.(halted := true)
  }

  /** The sweep spares the request just entered exactly while the server is not shut down; the loop's
      condition is what keeps the dispatcher from using a freed message. */
  lemma NewestSurvivesIff(p: Point, m: Incoming)
    ensures (var q := Swept(Entered(p, m)); q.list != [] && q.list[0] == Binding(p.nextId, m.messageId, true)) <==>
            !p.isShutdown
    ensures !p.isShutdown ==> Swept(Entered(p, m)).list == [Binding(p.nextId, m.messageId, true)] + Kept(p.list, false)
  {
    if p.isShutdown {
      ShutdownSweepsAll(Entered(p, m).list);
    }
  }

  /** One turn of the loop. */
  function Turn(p: Point, m: Incoming): Point
    requires !p.isShutdown && Legal(p.table, m)
  {
    var s := Swept(Entered(Replied(Answering(p, m.answered), m), m));
    NewestSurvivesIff(Replied(Answering(p, m.answered), m), m);
    Dispatched(s, p.nextId, m, Judge(p.table, m.body))
  }

  ghost predicate AllLegal(table: Table, ms: seq<Incoming>) {
    forall m <- ms :: Legal(table, m)
  }

  ghost function Turns(p: Point, ms: seq<Incoming>): (q: Point)
    requires AllLegal(p.table, ms)
    decreases |ms|
  {
    if ms == [] || p.isShutdown || p.halted then p else Turns(Turn(p, ms[0]), ms[1..])
  }

  /** What a turn adds to the log and to the replies. */
  lemma TurnLogs(p: Point, m: Incoming)
    requires !p.isShutdown && Legal(p.table, m)
    ensures var q := Turn(p, m);
            && q.table == p.table && q.log == p.log + [Dispatch(p.nextId, m.messageId, m.body, true)]
            && q.nextId == p.nextId + 1
            && q.isShutdown == Stops(m.body) && (q.halted <==> p.halted || Refused(p.table, m.body))
            && q.replies == p.replies + if q.isShutdown then [m.messageId] else []
  {
    NewestSurvivesIff(Replied(Answering(p, m.answered), m), m);
  }

  /** What a turn leaves in the list: the new request, unless the dispatcher is done with it, and of the
      others those that nobody has answered; the rest is freed. */
  lemma TurnLeaves(p: Point, m: Incoming)
    requires !p.isShutdown && Legal(p.table, m)
    ensures var q := Turn(p, m);
            var answered := Answered(p.list, m.answered);
            && q.list == [Binding(p.nextId, m.messageId, !GivesUp(p.table, m.body, true))] + Kept(answered, false)
            && q.freed == p.freed + Dropped(answered, false) && q.nextId == p.nextId + 1
  {
    NewestSurvivesIff(Replied(Answering(p, m.answered), m), m);
  }

  lemma TurnsUnfold(p: Point, ms: seq<Incoming>, k: nat)
    requires k < |ms| && AllLegal(p.table, ms[k..]) && !p.isShutdown && !p.halted
    ensures Legal(p.table, ms[k]) && AllLegal(Turn(p, ms[k]).table, ms[k + 1..])
    ensures Turns(p, ms[k..]) == Turns(Turn(p, ms[k]), ms[k + 1..])
  {
    assert ms[k..][0] == ms[k] && ms[k..][1..] == ms[k + 1..];
    assert ms[k] in ms[k..];
    TurnLogs(p, ms[k]);
  }

  /** Requests are numbered, and each is listed or has been freed, once. */
  ghost predicate Owned(p: Point) {
    Numbered(p.list, p.nextId) && Accounted(p.list, p.freed, p.nextId)
  }

  /** Only answered requests are idle or freed. */
  ghost predicate Settled(p: Point) {
    && (forall b <- p.list :: b.busy || b.id in p.answered)
    && (forall id <- p.freed :: id in p.answered)
  }

  /** Every request was dispatched alive and in order. */
  ghost predicate Logged(p: Point) {
    |p.log| == p.nextId && forall k :: 0 <= k < |p.log| ==> p.log[k].id == k && p.log[k].live
  }

  lemma AnsweringKeeps(p: Point, ids: set<nat>)
    requires Owned(p) && Settled(p)
    ensures Owned(Answering(p, ids)) && Settled(Answering(p, ids))
  {
    var q := Answering(p, ids);
    AnsweredIds(p.list, ids);
    forall b | b in q.list ensures b.busy || b.id in q.answered {
      var i :| 0 <= i < |q.list| && q.list[i] == b;
      assert p.list[i] in p.list;
    }
  }

  lemma EntryKeeps(p: Point, m: Incoming)
    requires Owned(p) && Settled(p)
    ensures Owned(Entered(p, m)) && Settled(Entered(p, m))
  {
    var b := Binding(p.nextId, m.messageId, true);
    NumberedCons(p.list, p.nextId, b);
    AccountedCons(p.list, p.freed, p.nextId, b);
  }

  lemma SweepOwns(p: Point)
    requires Owned(p)
    ensures Owned(Swept(p))
  {
    SweepKeepsOrder(p.list, p.nextId, p.isShutdown);
    SweepAccounts(p.list, p.freed, p.nextId, p.isShutdown);
  }

  lemma SweepSettles(p: Point)
    requires Settled(p) && !p.isShutdown
    ensures Settled(Swept(p))
  {
    DroppedFrom(p.list, p.isShutdown);
    SweepKeeps(p.list, p.isShutdown);
  }

  lemma DispatchKeeps(p: Point, id: nat, m: Incoming, verdict: Verdict)
    requires p.list != [] && p.list[0] == Binding(id, m.messageId, true) && Owned(p) && Settled(p)
    ensures Owned(Dispatched(p, id, m, verdict)) && Settled(Dispatched(p, id, m, verdict))
  {
    ReleaseKeepsOrder(p.list, 0, p.nextId);
    forall b | b in Release(p.list, 0) ensures b == Release(p.list, 0)[0] || b in p.list {
    }
  }

  lemma TurnKeeps(p: Point, m: Incoming)
    requires Owned(p) && Settled(p) && !p.isShutdown && Legal(p.table, m)
    ensures Owned(Turn(p, m)) && Settled(Turn(p, m))
  {
    var a := Replied(Answering(p, m.answered), m);
    AnsweringKeeps(p, m.answered);
    EntryKeeps(a, m);
    SweepOwns(Entered(a, m));
    SweepSettles(Entered(a, m));
    NewestSurvivesIff(a, m);
    DispatchKeeps(Swept(Entered(a, m)), p.nextId, m, Judge(p.table, m.body));
  }

  ghost predicate Inv(p: Point) {
    Owned(p) && Settled(p) && Logged(p)
  }

  /** Over every run of the loop each request was in the list and unanswered when it was dispatched, each is
      listed or has been freed, once, and none was freed that had not been answered. */
  lemma {:induction false} TurnsKeep(p: Point, ms: seq<Incoming>)
    requires Inv(p) && AllLegal(p.table, ms)
    ensures Inv(Turns(p, ms))
    decreases |ms|
  {
    if ms != [] && !p.isShutdown && !p.halted {
      TurnKeeps(p, ms[0]);
      TurnLogs(p, ms[0]);
      TurnsKeep(Turn(p, ms[0]), ms[1..]);
    }
  }

  /** After a run that ends in a shutdown, the last sweep has freed every request of it exactly once. */
  lemma AllFreedAtTheEnd(p: Point, ms: seq<Incoming>, id: nat)
    requires Inv(p) && AllLegal(p.table, ms) && Turns(p, ms).isShutdown
    ensures var q := Swept(Turns(p, ms));
            q.list == [] && multiset(q.freed)[id] == if id < q.nextId then 1 else 0
  {
    TurnsKeep(p, ms);
    LastSweep(Turns(p, ms), id);
  }

  lemma LastSweep(p: Point, id: nat)
    requires Owned(p) && p.isShutdown
    ensures Swept(p).list == [] && multiset(Swept(p).freed)[id] == if id < p.nextId then 1 else 0
  {
    ShutdownSweepsAll(p.list);
    SweepOwns(p);
    AccountedOnce(Swept(p).list, Swept(p).freed, p.nextId, id);
  }

  /** The log of a run that dispatched the first `n` messages. */
  function Logs(first: nat, ms: seq<Incoming>, n: nat): (log: seq<Dispatch>)
    requires n <= |ms|
    ensures |log| == n
    decreases n
  {
    if n == 0 then []
    else [Dispatch(first, ms[0].messageId, ms[0].body, true)] + Logs(first + 1, ms[1..], n - 1)
  }

  lemma {:induction false} LogsAt(first: nat, ms: seq<Incoming>, n: nat, k: nat)
    requires k < n <= |ms|
    ensures Logs(first, ms, n)[k] == Dispatch(first + k, ms[k].messageId, ms[k].body, true)
    decreases k
  {
    if k > 0 {
      LogsAt(first + 1, ms[1..], n - 1, k - 1);
    }
  }

  /** `q` comes after `p` once the first messages have been dispatched, and any left behind are left by a
      shutdown or a halt. The one request the loop replies to itself is the shutdown request it ends with. */
  ghost predicate Serves(p: Point, q: Point, ms: seq<Incoming>) {
    |p.log| <= |q.log| <= |p.log| + |ms| &&
    var n := |q.log| - |p.log|;
    && q.log == p.log + Logs(p.nextId, ms, n)
    && (n < |ms| ==> q.isShutdown || q.halted)
    && (n > 0 ==> |ms[n - 1].body| >= HEADER_SIZE)
    && (q.halted <==> n > 0 && Refused(p.table, ms[n - 1].body))
    && (q.isShutdown <==> n > 0 && Stops(ms[n - 1].body))
    && (!q.isShutdown ==> q.replies == p.replies)
    && (q.isShutdown ==> n > 0 && q.replies == p.replies + [ms[n - 1].messageId])
  }

  lemma ServesOneMore(p: Point, t: Point, q: Point, ms: seq<Incoming>)
    requires ms != [] && |ms[0].body| >= HEADER_SIZE && t.table == p.table && Serves(t, q, ms[1..])
    requires !Refused(p.table, ms[0].body) && !Stops(ms[0].body)
    requires t.log == p.log + [Dispatch(p.nextId, ms[0].messageId, ms[0].body, true)]
    requires t.nextId == p.nextId + 1 && t.replies == p.replies
    ensures Serves(p, q, ms)
  {
    var n := |q.log| - |p.log|;
    var e := Dispatch(p.nextId, ms[0].messageId, ms[0].body, true);
    var rest := Logs(t.nextId, ms[1..], n - 1);
    assert Logs(p.nextId, ms, n) == [e] + rest;
    Assoc(p.log, e, rest);
  }

  lemma Assoc(log: seq<Dispatch>, e: Dispatch, rest: seq<Dispatch>)
    ensures log + [e] + rest == log + ([e] + rest)
  {
  }

  /** The loop dispatches the messages in the order in which they arrive, each of them alive. */
  lemma {:induction false} DispatchedInOrder(p: Point, ms: seq<Incoming>)
    requires AllLegal(p.table, ms) && !p.isShutdown && !p.halted
    ensures Serves(p, Turns(p, ms), ms)
    decreases |ms|
  {
    if ms != [] {
      var t := Turn(p, ms[0]);
      TurnLogs(p, ms[0]);
      if t.isShutdown || t.halted {
        assert Turns(p, ms) == t;
        assert Logs(p.nextId, ms, 1) == [t.log[|p.log|]];
      } else {
        DispatchedInOrder(t, ms[1..]);
        assert Turns(p, ms) == Turns(t, ms[1..]);
        ServesOneMore(p, t, Turns(p, ms), ms);
      }
    }
  }
}

module RemoteReceptionPoints {
  import opened Bytes
  import opened Headers
  import opened Bindings
  import opened ServiceTable
  import opened SinglyLinkedList
  import opened ReceptionPoints
  import opened RemoteServer

  class RemoteReceptionPoint {
    const base: ReceptionPoint
    ghost var answered: set<nat>
    ghost var log: seq<Dispatch>
    ghost var replies: seq<int>

    ghost predicate Valid()
      reads this, base, base.table, base.bindingList, base.bindingList.Repr
    {
      base.Valid() && this !in base.bindingList.Repr && base !in base.bindingList.Repr
    }

    ghost function Abs(): Point
      reads this, base, base.table, base.bindingList
    {
      Point(base.Services(), base.bindingList.contents, base.bindingList.nextId, base.bindingList.freedNodes,
            answered, log, replies, base.isShutdown, base.halted)
    }

    constructor (n: nat)
      ensures Valid() && fresh(base) && fresh(base.table) && fresh(base.bindingList.Repr)
      ensures Abs() == Point(Empty(n), [], 0, [], {}, [], [], false, false) && Inv(Abs())
    {
      base := new ReceptionPoint(n);
      answered, log, replies := {}, [], [];
    }

    method Answer(ids: set<nat>)
      requires Valid()
      modifies this`answered, base.bindingList.Repr
      ensures Valid() && base.bindingList.Repr == old(base.bindingList.Repr)
      ensures Abs() == Answering(old(Abs()), ids)
    {
      base.bindingList.Answer(ids);
      answered := answered + ids;
    }

    /** The request enters the list, then the list is swept: what is dispatched next is still there. */
    method EnterAndSweep(m: Incoming) returns (clientBind: BindingPoint, message: array<byte>)
      requires Valid() && !base.isShutdown
      modifies base.bindingList.Repr
      ensures Valid() && fresh(base.bindingList.Repr - old(base.bindingList.Repr))
      ensures clientBind in base.bindingList.Repr && message[..] == m.body
      ensures base.bindingList.nodes != [] && base.bindingList.nodes[0].bindingPoint == clientBind
      ensures base.bindingList.nodes[0].requestMessage == message
      ensures Abs() == Swept(Entered(old(Abs()), m))
    {
      message := new byte[|m.body|](i requires 0 <= i < |m.body| => m.body[i]);
      clientBind := base.bindingList.InsertNext(m.messageId, message);
      base.bindingList.Sweep(base.isShutdown);
      assert base.bindingList.Describes(0);
    }

    method Dispatch(clientBind: BindingPoint, message: array<byte>, m: Incoming, ghost id: nat)
      requires Valid() && message[..] == m.body && Addressed(base.Services(), m.body)
      requires clientBind in base.bindingList.Repr
      requires base.bindingList.nodes != [] && base.bindingList.nodes[0].bindingPoint == clientBind
      requires base.bindingList.contents[0] == Binding(id, m.messageId, true)
      modifies this`answered, this`log, base, base.bindingList.Repr
      ensures Valid() && base.bindingList.Repr == old(base.bindingList.Repr)
      ensures Abs() == Dispatched(old(Abs()), id, m, Judge(old(Abs()).table, m.body))
    {
      var verdict := base.Dispatcher(clientBind, message, true);
      log := log + [RemoteServer.Dispatch(id, m.messageId, m.body, true)];
      if verdict in {Registered, ShutDown} {
        answered := answered + {id};
      }
    }

    /** One turn of `deamon_engine`. */
    method TakeTurn(m: Incoming)
      requires Valid() && !base.isShutdown && Legal(base.Services(), m)
      modifies this, base, base.bindingList.Repr
      ensures Valid() && fresh(base.bindingList.Repr - old(base.bindingList.Repr))
      ensures Abs() == Turn(old(Abs()), m)
    {
      ghost var id := base.bindingList.nextId;
      Answer(m.answered);
      if DecodeEntry(m.body).systemCode == DEMSERV_SHUTDOWN {
        replies := replies + [m.messageId];
      }
      NewestSurvivesIff(Abs(), m);
      var clientBind, message := EnterAndSweep(m);
      Dispatch(clientBind, message, m, id);
    }

    /** `deamon_engine` over the messages that arrive. */
    method DeamonEngine(ms: seq<Incoming>)
      requires Valid() && AllLegal(base.Services(), ms)
      modifies this, base, base.bindingList.Repr
      ensures Valid() && fresh(base.bindingList.Repr - old(base.bindingList.Repr))
      ensures Abs() == Turns(old(Abs()), ms)
    {
      var k := 0;
      while k < |ms| && !base.isShutdown && !base.halted
        invariant Valid() && fresh(base.bindingList.Repr - old(base.bindingList.Repr)) && 0 <= k <= |ms|
        invariant AllLegal(Abs().table, ms[k..]) && Turns(Abs(), ms[k..]) == Turns(old(Abs()), ms)
        decreases |ms| - k
      {
        TurnsUnfold(Abs(), ms, k);
        TakeTurn(ms[k]);
        k := k + 1;
      }
    }
  }
}
