/** The local server as a value: its slot table, its binding list and the byte streams of its clients,
    and what one acceptance, one visit to a ready client and one round of the loop do to them. */
module LocalServer {
  import opened Bytes
  import opened Headers
  import opened Transfer
  import opened Framing
  import opened Bindings
  import opened ServiceTable

  const FD_SETSIZE: nat := 1024

  /** A message handed to the dispatcher, with the serial number of its request. */
  datatype Dispatch = Dispatch(id: nat, fd: int, message: seq<byte>)

  datatype Server = Server(
    table: Table,
    listener: int,
    client: seq<int>,               // -1 marks a free slot
    watched: set<int>,              // `allset`
    wire: map<int, seq<byte>>,      // what can be read from each connected descriptor
    ended: set<int>,                // those whose stream ends there
    list: seq<Binding>,
    nextId: nat,
    freed: seq<nat>,
    log: seq<Dispatch>,
    isShutdown: bool,
    halted: bool)

  function Initial(table: Table, listener: int): Server {
    Server(table, listener, seq(FD_SETSIZE, _ => -1), {listener}, map[], {}, [], 0, [], [], false, false)
  }

  /** The first free slot, or the length of the table. */
  function FirstFree(client: seq<int>): (i: nat)
    ensures i <= |client| && (i < |client| ==> client[i] < 0) && forall j :: 0 <= j < i ==> client[j] >= 0
  {
    if client == [] || client[0] < 0 then 0 else 1 + FirstFree(client[1..])
  }

  /** A new connection takes the first free slot; without one, an assertion stops the server. */
  function Accepted(s: Server, fd: int): Server {
    var i := FirstFree(s.client);
    if i == |s.client| then s.(halted := true)
    else s.(client := s.client[i := fd], watched := s.watched + {fd}, wire := s.wire[fd := []], ended := s.ended - {fd})
  }

  predicate Connected(s: Server, i: nat) {
    i < |s.client| && s.client[i] >= 0 && s.client[i] in s.wire
  }

  /** A header that names a service of the table and a size that fits in memory. */
  ghost predicate Headed(table: Table, stream: seq<byte>) {
    |stream| >= HEADER_SIZE && MessageSize(stream) < WORD_LIMIT && Addressed(table, stream)
  }

  /** Reading a message does not block: all of it is there, or the stream has ended, perhaps before its
      first byte or inside it. */
  ghost predicate Readable(s: Server, fd: int) {
    && fd in s.wire
    && (s.wire[fd] != [] ==> Headed(s.table, s.wire[fd]))
    && (fd in s.ended || (s.wire[fd] != [] && WholeMessage(s.wire[fd])))
  }

  /** What `malloc` returned, and whether `respond` can deliver a reply. */
  datatype Chance = Chance(memory: nat -> byte, delivered: bool)

  /** The message made of the front of a stream. The results of the reads for its body are not checked, so
      if the stream ends inside it the rest is whatever the allocated memory held. */
  function Assembled(stream: seq<byte>, memory: nat -> byte): (message: seq<byte>)
    requires |stream| >= HEADER_SIZE
    ensures |message| == MessageSize(stream) && DecodeEntry(message) == DecodeEntry(stream)
    ensures WholeMessage(stream) ==> message == FirstMessage(stream)
    ensures |stream| < |message| ==> message[..|stream|] == stream
  {
    var n := MessageSize(stream);
    if n <= |stream| then
      assert stream == stream[..n] + stream[n..];
      DecodePrefix(stream[..n], stream[n..]);
      stream[..n]
    else
      var rest := seq(n - |stream|, j requires 0 <= j => memory(|stream| + j));
      DecodePrefix(stream, rest);
      stream + rest
  }

  /** What the message leaves in the stream. */
  function Rest(stream: seq<byte>): seq<byte>
    requires |stream| >= HEADER_SIZE
  {
    stream[Min(MessageSize(stream), |stream|)..]
  }

  function Swept(s: Server): Server {
    s.(list := Kept(s.list, s.isShutdown), freed := s.freed + Dropped(s.list, s.isShutdown))
  }

  function AnswerAll(s: Server, ids: set<nat>): Server {
    s.(list := Answered(s.list, ids))
  }

  /** The end of a connection: its slot is freed and its binding marked as answered. */
  function Disconnected(s: Server, i: nat): Server
    requires Connected(s, i)
  {
    var fd := s.client[i];
    s.(client := s.client[i := -1], watched := s.watched - {fd}, wire := s.wire - {fd}, ended := s.ended - {fd},
       list := Unmarked(s.list, fd))
  }

  /** The first message of a stream leaves the wire of its descriptor and its request enters the list. */
  function Taken(s: Server, fd: int, stream: seq<byte>, memory: nat -> byte): Server
    requires |stream| >= HEADER_SIZE
  {
    s.(wire := s.wire[fd := Rest(stream)],
       list := [Binding(s.nextId, fd, true)] + s.list,
       nextId := s.nextId + 1,
       log := s.log + [Dispatch(s.nextId, fd, Assembled(stream, memory))])
  }

  lemma TakenOverwrites(s: Server, fd: int, stream: seq<byte>, memory: nat -> byte, part: seq<byte>)
    requires |stream| >= HEADER_SIZE
    ensures Taken(s.(wire := s.wire[fd := part]), fd, stream, memory) == Taken(s, fd, stream, memory)
  {
    assert s.wire[fd := part][fd := Rest(stream)] == s.wire[fd := Rest(stream)];
  }

  function Received(s: Server, i: nat, memory: nat -> byte): Server
    requires Connected(s, i) && Readable(s, s.client[i]) && s.wire[s.client[i]] != []
  {
    Taken(s, s.client[i], s.wire[s.client[i]], memory)
  }

  /** The dispatcher on the message just received. */
  function Dispatched(s: Server, verdict: Verdict, delivered: bool): Server
    requires s.list != []
  {
    match verdict
    case Registered => if delivered then s.(list := s.list[0 := s.list[0].(busy := false)]) else s
    case Invoked(_) => s
    case ShutDown => s.(list := s.list[0 := s.list[0].(busy := false)], isShutdown := true)
    case Ignored => s
    case Error => s.(halted := true)
  }

  /** One visit to the client in slot `i`: sweep the list, then read one message and dispatch it, or find
      that the client has gone. */
  function Visit(s: Server, i: nat, chance: Chance): Server
    requires Connected(s, i) && Readable(s, s.client[i])
  {
    var fd := s.client[i];
    var t := Swept(s);
    if s.wire[fd] == [] then Disconnected(t, i)
    else Dispatched(Received(t, i, chance.memory), Judge(s.table, Assembled(s.wire[fd], chance.memory)), chance.delivered)
  }

  /** What the environment does in one round of the loop: while `select` waits, bytes and ends of streams
      arrive; then it reports a set of descriptors; `accept` returns a new connection. Other threads answer
      requests while `select` waits (`answers(-1)`) and before the visit to each slot. */
  datatype Round = Round(
    bytes: map<int, seq<byte>>,
    ends: set<int>,
    ready: set<int>,
    accepted: int,
    answers: int -> set<nat>,
    chance: int -> Chance)

  function Arrived(s: Server, bytes: map<int, seq<byte>>, ends: set<int>): Server {
    s.(wire := Extended(s.wire, bytes), ended := s.ended + ends)
  }

  /** The server when `select` returns. */
  function Selected(s: Server, r: Round): Server {
    AnswerAll(Arrived(s, r.bytes, r.ends), r.answers(-1))
  }

  /** The slots from `i` on that hold a descriptor of `ready`. */
  function Unvisited(client: seq<int>, i: nat, ready: set<int>): nat
    requires i <= |client|
    decreases |client| - i
  {
    if i == |client| then 0
    else (if client[i] >= 0 && client[i] in ready then 1 else 0) + Unvisited(client, i + 1, ready)
  }

  ghost predicate Legal(s: Server, r: Round) {
    && r.bytes.Keys <= s.wire.Keys - s.ended && r.ends <= s.wire.Keys
    && Reported(Selected(s, r), r)
  }

  ghost predicate Reported(s: Server, r: Round) {
    && r.ready <= s.watched
    && (forall fd <- r.ready :: fd != s.listener ==> Readable(s, fd))
    && (s.listener in r.ready ==> r.accepted >= 0 && r.accepted != s.listener && r.accepted !in s.wire)
  }

  /** Every slot from `i` on whose descriptor is ready is visited, in slot order, once. */
  ghost function ServeFrom(s: Server, i: nat, r: Round): (t: Server)
    requires i <= |s.client|
    requires SlotTable(s) && ReadyFrom(s, i, r.ready)
    ensures SlotTable(t)
    decreases |s.client| - i
  {
    if i == |s.client| || s.halted then s
    else if s.client[i] >= 0 && s.client[i] in r.ready then
      var t := AnswerAll(s, r.answers(i));
      VisitKeepsSlots(t, i, r.chance(i));
      VisitKeepsReady(t, i, r.chance(i), r.ready);
      ServeFrom(Visit(t, i, r.chance(i)), i + 1, r)
    else ServeFrom(s, i + 1, r)
  }

  /** The reference for one round: accept if the listener is ready, then serve all ready clients. */
  ghost function RoundOf(s: Server, r: Round): (t: Server)
    requires SlotTable(s) && Legal(s, r)
    ensures SlotTable(t)
  {
    SelectKeepsSlots(s, r);
    ReportOf(Selected(s, r), r)
  }

  ghost function ReportOf(s: Server, r: Round): (t: Server)
    requires SlotTable(s) && Reported(s, r)
    ensures SlotTable(t)
  {
    if s.listener in r.ready then
      AcceptKeepsSlots(s, r.accepted);
      AcceptKeepsReady(s, r);
      ServeFrom(Accepted(s, r.accepted), 0, r)
    else ServeFrom(s, 0, r)
  }

  lemma SelectKeepsSlots(s: Server, r: Round)
    requires SlotTable(s) && Legal(s, r)
    ensures SlotTable(Selected(s, r))
  {
    SameSlots(s, Selected(s, r));
  }

  function Live(client: seq<int>): set<int> {
    set i | 0 <= i < |client| && client[i] >= 0 :: client[i]
  }

  /** What the event loop maintains about its slots. */
  ghost predicate SlotTable(s: Server) {
    && |s.client| == FD_SETSIZE
    && (forall i, j :: 0 <= i < j < |s.client| && s.client[i] >= 0 ==> s.client[i] != s.client[j])
    && s.watched == Live(s.client) + {s.listener}
    && s.wire.Keys == Live(s.client) && s.ended <= s.wire.Keys
    && s.listener >= 0 && s.listener !in s.wire
  }

  ghost predicate ReadyFrom(s: Server, i: nat, ready: set<int>)
  {
    forall j :: i <= j < |s.client| && s.client[j] >= 0 && s.client[j] in ready ==> Readable(s, s.client[j])
  }

  lemma LiveWith(client: seq<int>, i: nat, fd: int)
    requires i < |client| && client[i] < 0 <= fd
    ensures Live(client[i := fd]) == Live(client) + {fd}
  {
    var c := client[i := fd];
    assert c[i] == fd;
    forall x | x in Live(client) ensures x in Live(c) {
      var j :| 0 <= j < |client| && client[j] == x && x >= 0;
      assert c[j] == x;
    }
  }

  lemma LiveWithout(client: seq<int>, i: nat)
    requires i < |client| && client[i] >= 0
    requires forall j, k :: 0 <= j < k < |client| && client[j] >= 0 ==> client[j] != client[k]
    ensures Live(client[i := -1]) == Live(client) - {client[i]}
  {
    var c := client[i := -1];
    forall x | x in Live(client) && x != client[i] ensures x in Live(c) {
      var j :| 0 <= j < |client| && client[j] == x && x >= 0;
      assert c[j] == x;
    }
  }

  lemma AcceptKeepsSlots(s: Server, fd: int)
    requires SlotTable(s) && fd >= 0 && fd != s.listener && fd !in s.wire
    ensures SlotTable(Accepted(s, fd))
  {
    var i := FirstFree(s.client);
    if i < |s.client| {
      LiveWith(s.client, i, fd);
    }
  }

  lemma AcceptKeepsReady(s: Server, r: Round)
    requires SlotTable(s) && Reported(s, r) && s.listener in r.ready
    ensures ReadyFrom(Accepted(s, r.accepted), 0, r.ready)
  {
    assert r.accepted !in s.watched;
  }

  lemma DisconnectKeepsSlots(s: Server, i: nat)
    requires SlotTable(s) && Connected(s, i)
    ensures SlotTable(Disconnected(s, i))
  {
    LiveWithout(s.client, i);
  }

  lemma TakeKeepsTable(s: Server, i: nat, chance: Chance)
    requires Connected(s, i) && Readable(s, s.client[i]) && s.wire[s.client[i]] != []
    ensures var t := Visit(s, i, chance);
            && t.client == s.client && t.watched == s.watched && t.listener == s.listener && t.table == s.table
            && t.wire.Keys == s.wire.Keys && t.ended == s.ended
  {
    assert s.client[i] in s.wire;
  }

  lemma VisitKeepsSlots(s: Server, i: nat, chance: Chance)
    requires SlotTable(s) && Connected(s, i) && Readable(s, s.client[i])
    ensures SlotTable(Visit(s, i, chance))
  {
    if s.wire[s.client[i]] == [] {
      assert SlotTable(Swept(s));
      DisconnectKeepsSlots(Swept(s), i);
    } else {
      TakeKeepsTable(s, i, chance);
      SameSlots(s, Visit(s, i, chance));
    }
  }

  lemma SameSlots(s: Server, t: Server)
    requires SlotTable(s)
    requires t.client == s.client && t.watched == s.watched && t.listener == s.listener && t.wire.Keys == s.wire.Keys
    requires t.ended <= t.wire.Keys
    ensures SlotTable(t)
  {
  }

  /** A visit touches the stream of the visited client only. */
  lemma VisitKeepsWire(s: Server, i: nat, chance: Chance, fd: int)
    requires Connected(s, i) && Readable(s, s.client[i])
    ensures var t := Visit(s, i, chance);
            fd != s.client[i] && fd in s.wire ==>
              fd in t.wire && t.wire[fd] == s.wire[fd] && (fd in t.ended <==> fd in s.ended)
    ensures Visit(s, i, chance).table == s.table && Visit(s, i, chance).listener == s.listener
    ensures var t := Visit(s, i, chance);
            |t.client| == |s.client| && forall j :: 0 <= j < |s.client| && j != i ==> t.client[j] == s.client[j]
  {
  }

  lemma VisitKeepsReady(s: Server, i: nat, chance: Chance, ready: set<int>)
    requires SlotTable(s) && Connected(s, i) && ReadyFrom(s, i, ready) && Readable(s, s.client[i])
    ensures ReadyFrom(Visit(s, i, chance), i + 1, ready)
  {
    var t := Visit(s, i, chance);
    forall j | i + 1 <= j < |t.client| && t.client[j] >= 0 && t.client[j] in ready ensures Readable(t, t.client[j]) {
      assert Readable(s, s.client[j]);
      VisitKeepsWire(s, i, chance, s.client[j]);
    }
  }

  /** The ready descriptors in the slots from `i` on; there are as many as unvisited slots, because live
      slots hold different descriptors. */
  ghost function ReadyFds(client: seq<int>, i: nat, ready: set<int>): (fds: set<int>)
    requires i <= |client|
    ensures forall x :: x in fds ==> x in ready && exists j :: i <= j < |client| && client[j] == x && x >= 0
    decreases |client| - i
  {
    if i == |client| then {}
    else if client[i] >= 0 && client[i] in ready then {client[i]} + ReadyFds(client, i + 1, ready)
    else ReadyFds(client, i + 1, ready)
  }

  lemma {:induction false} UnvisitedCounts(client: seq<int>, i: nat, ready: set<int>)
    requires i <= |client|
    requires forall j, k :: 0 <= j < k < |client| && client[j] >= 0 ==> client[j] != client[k]
    ensures Unvisited(client, i, ready) == |ReadyFds(client, i, ready)|
    decreases |client| - i
  {
    if i < |client| {
      UnvisitedCounts(client, i + 1, ready);
      var later := ReadyFds(client, i + 1, ready);
      if client[i] >= 0 && client[i] in ready {
        assert client[i] !in later;
        assert |{client[i]} + later| == 1 + |later|;
      }
    }
  }

  /** `nready`, the size of the ready set less the accepted connection, covers the slots to be visited. */
  lemma ReadyCoversSlots(s: Server, ready: set<int>)
    requires SlotTable(s)
    ensures Unvisited(s.client, 0, ready) <= |ready - {s.listener}|
  {
    var fds := ReadyFds(s.client, 0, ready);
    UnvisitedCounts(s.client, 0, ready);
    forall x | x in fds ensures x in ready - {s.listener} {
      assert x in Live(s.client);
    }
    SubsetSize(fds, ready - {s.listener});
  }

  lemma {:induction false} SubsetSize<T>(a: set<T>, b: set<T>)
    requires a <= b
    ensures |a| <= |b|
  {
    if a != {} {
      var x :| x in a;
      SubsetSize(a - {x}, b - {x});
    }
  }

  /** Leaving the scan early skips nobody once no unvisited slot is ready. */
  lemma {:induction false} NothingLeft(s: Server, i: nat, r: Round)
    requires i <= |s.client| && SlotTable(s) && ReadyFrom(s, i, r.ready)
    requires Unvisited(s.client, i, r.ready) == 0
    ensures ServeFrom(s, i, r) == s
    decreases |s.client| - i
  {
    if i < |s.client| {
      NothingLeft(s, i + 1, r);
    }
  }

  lemma {:induction false} FreeSlotsAreUnready(client: seq<int>, i: nat, ready: set<int>)
    requires i <= |client| && forall j :: i <= j < |client| ==> client[j] < 0
    ensures Unvisited(client, i, ready) == 0
    decreases |client| - i
  {
    if i < |client| {
      FreeSlotsAreUnready(client, i + 1, ready);
    }
  }

  lemma {:induction false} UnvisitedFrame(client: seq<int>, client': seq<int>, i: nat, ready: set<int>)
    requires i <= |client| == |client'| && forall j :: i <= j < |client| ==> client[j] == client'[j]
    ensures Unvisited(client, i, ready) == Unvisited(client', i, ready)
    decreases |client| - i
  {
    if i < |client| {
      UnvisitedFrame(client, client', i + 1, ready);
    }
  }

  /** A scan of the slots in progress, at slot `i` with `nready` descriptors believed to be waiting. */
  ghost predicate Scanning(s0: Server, s: Server, i: nat, nready: int, r: Round) {
    && SlotTable(s0) && ReadyFrom(s0, 0, r.ready)
    && SlotTable(s) && i <= |s.client| && ReadyFrom(s, i, r.ready)
    && ServeFrom(s, i, r) == ServeFrom(s0, 0, r)
    && nready >= Unvisited(s.client, i, r.ready)
  }

  lemma AnswersKeepSlots(s: Server, ids: set<nat>, i: nat, ready: set<int>)
    requires SlotTable(s) && ReadyFrom(s, i, ready)
    ensures SlotTable(AnswerAll(s, ids)) && ReadyFrom(AnswerAll(s, ids), i, ready)
    ensures forall fd :: Readable(s, fd) ==> Readable(AnswerAll(s, ids), fd)
  {
    SameSlots(s, AnswerAll(s, ids));
    forall j | i <= j < |s.client| && s.client[j] >= 0 && s.client[j] in ready
      ensures Readable(AnswerAll(s, ids), s.client[j])
    {
      assert Readable(s, s.client[j]);
    }
  }

  lemma LiveIsConnected(s: Server, i: nat)
    requires SlotTable(s) && i < |s.client| && s.client[i] >= 0
    ensures Connected(s, i)
  {
    assert s.client[i] in Live(s.client);
  }

  /** Whether or not `nready` is lowered after a visit, it still covers the slots to come. */
  lemma ScanVisit(s0: Server, s: Server, i: nat, nready: int, r: Round)
    requires Scanning(s0, s, i, nready, r) && !s.halted
    requires i < |s.client| && s.client[i] >= 0 && s.client[i] in r.ready
    ensures var t := AnswerAll(s, r.answers(i));
            && Connected(t, i) && Readable(t, t.client[i])
            && Scanning(s0, Visit(t, i, r.chance(i)), i + 1, nready - 1, r)
            && Scanning(s0, Visit(t, i, r.chance(i)), i + 1, nready, r)
  {
    var t := AnswerAll(s, r.answers(i));
    assert Readable(s, s.client[i]);
    AnswersKeepSlots(s, r.answers(i), i, r.ready);
    LiveIsConnected(t, i);
    VisitKeepsSlots(t, i, r.chance(i));
    VisitKeepsReady(t, i, r.chance(i), r.ready);
    VisitKeepsWire(t, i, r.chance(i), t.listener);
    UnvisitedFrame(s.client, Visit(t, i, r.chance(i)).client, i + 1, r.ready);
  }

  lemma ScanSkip(s0: Server, s: Server, i: nat, nready: int, r: Round)
    requires Scanning(s0, s, i, nready, r) && !s.halted
    requires i < |s.client| && !(s.client[i] >= 0 && s.client[i] in r.ready)
    ensures Scanning(s0, s, i + 1, nready, r)
  {
  }

  lemma ScanStarts(s: Server, nready: int, r: Round)
    requires SlotTable(s) && ReadyFrom(s, 0, r.ready) && nready >= Unvisited(s.client, 0, r.ready)
    ensures Scanning(s, s, 0, nready, r)
  {
  }

  lemma ScanEnds(s0: Server, s: Server, i: nat, nready: int, r: Round)
    requires Scanning(s0, s, i, nready, r)
    requires s.halted || nready <= 0 || forall j :: i <= j < |s.client| ==> s.client[j] < 0
    ensures s == ServeFrom(s0, 0, r)
  {
    if !s.halted {
      if nready > 0 {
        FreeSlotsAreUnready(s.client, i, r.ready);
      }
      NothingLeft(s, i, r);
    }
  }

  /** After an acceptance, `--nready` covers the slots. */
  lemma AcceptCovers(s: Server, r: Round)
    requires SlotTable(s) && Reported(s, r) && s.listener in r.ready
    ensures var t := Accepted(s, r.accepted);
            && SlotTable(t) && ReadyFrom(t, 0, r.ready)
            && |r.ready| - 1 >= Unvisited(t.client, 0, r.ready)
  {
    var t := Accepted(s, r.accepted);
    AcceptKeepsSlots(s, r.accepted);
    AcceptKeepsReady(s, r);
    ReadyCoversSlots(t, r.ready);
    SizeLess(r.ready, s.listener);
  }

  lemma SizeLess<T>(a: set<T>, x: T)
    requires x in a
    ensures |a - {x}| == |a| - 1
  {
  }

  lemma NoAcceptCovers(s: Server, r: Round)
    requires SlotTable(s) && Reported(s, r) && s.listener !in r.ready
    ensures ReadyFrom(s, 0, r.ready) && |r.ready| >= Unvisited(s.client, 0, r.ready)
  {
    ReadyCoversSlots(s, r.ready);
    assert r.ready == r.ready - {s.listener};
  }

  /** The rounds of the loop, until a shutdown request or a failed assertion ends it. */
  ghost predicate LegalRun(s: Server, rounds: seq<Round>)
    requires SlotTable(s)
    decreases |rounds|
  {
    rounds != [] && !s.isShutdown && !s.halted ==>
      Legal(s, rounds[0]) && LegalRun(RoundOf(s, rounds[0]), rounds[1..])
  }

  ghost function RunOf(s: Server, rounds: seq<Round>): (t: Server)
    requires SlotTable(s) && LegalRun(s, rounds)
    ensures SlotTable(t)
    decreases |rounds|
  {
    if rounds == [] || s.isShutdown || s.halted then s
    else RunOf(RoundOf(s, rounds[0]), rounds[1..])
  }
}
