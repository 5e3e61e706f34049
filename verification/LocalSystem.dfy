/** The local server together with its clients and the network between them, as a state machine over whole
    runs. */
module LocalSystem {
  import opened Bytes
  import opened Headers
  import opened Transfer
  import opened Framing
  import opened Bindings
  import opened ServiceTable
  import opened LocalServer

  /** One connection over its whole life, with what both ends have done on it. */
  datatype Conn = Conn(
    fd: int,
    sent: seq<Request>,
    out: seq<byte>,     // written by the client, not yet arrived at the server
    dispatched: seq<seq<byte>>,
    replies: nat,       // answered by the server, not yet read by the client
    waiting: bool,      // between a `send` of the client and a `receive`
    closed: bool,       // the client has closed its end
    cut: bool,          // it did so before all it had to write was out
    torn: bool,         // the server has read the message that was cut off
    open: bool)         // the server has not yet noticed the end

  datatype System = System(
    srv: Server,
    conns: seq<Conn>,
    at: map<int, nat>,        // the connection behind each open descriptor
    origin: seq<nat>,         // the connection each request came from
    answered: set<nat>,
    stops: set<nat>,          // the shutdown requests, which get no reply
    lost: set<nat>)           // the requests freed while somebody had still to answer them

  datatype Action =
    | Connect(fd: int)
    | Send(c: nat, q: Request)
    | Receive(c: nat)
    | Close(c: nat, kept: nat)      // of what is still to go out, the first `kept` bytes do
    | Arrive(bytes: map<int, seq<byte>>, ends: set<int>)
    | Answer(k: nat)                // some thread answers the request at position k of the list
    | Sweep
    | Drop(i: nat)                  // the client in slot i has gone
    | Take(i: nat, chance: Chance)  // a message of the client in slot i is read and dispatched
    | Teardown

  function Start(table: Table, listener: int): System {
    System(Initial(table, listener), [], map[], [], {}, {}, {})
  }

  /** The connection behind a slot. */
  ghost predicate Slot(g: System, i: nat) {
    Connected(g.srv, i) && g.srv.client[i] in g.at && g.at[g.srv.client[i]] < |g.conns|
  }

  /** The bytes arriving on a descriptor are the next ones its client has written, in whatever pieces; the
      end arrives behind the last of them. */
  ghost predicate Deliverable(g: System, bytes: map<int, seq<byte>>, ends: set<int>) {
    && (forall fd <- bytes :: fd in g.at && g.at[fd] < |g.conns| && bytes[fd] <= g.conns[g.at[fd]].out)
    && (forall fd <- ends ::
          fd in g.srv.wire && fd in g.at && g.at[fd] < |g.conns| && g.conns[g.at[fd]].closed &&
          g.conns[g.at[fd]].out == if fd in bytes then bytes[fd] else [])
  }

  /** Clients declare the size of attached buffers and ask for services of the table. They may send again
      before they receive, and go away at any time, even in the middle of a message. */
  ghost predicate Enabled(g: System, a: Action) {
    && !g.srv.halted
    && match a
       case Connect(fd) => fd >= 0 && fd != g.srv.listener && fd !in g.srv.wire
       case Send(c, q) =>
         c < |g.conns| && g.conns[c].open && !g.conns[c].closed && Framed(q) && Addressed(g.srv.table, Image(q))
       case Receive(c) => c < |g.conns| && g.conns[c].replies > 0
       case Close(c, kept) => c < |g.conns| && !g.conns[c].closed && kept <= |g.conns[c].out|
       case Arrive(bytes, ends) => Deliverable(g, bytes, ends)
       case Answer(k) => k < |g.srv.list| && g.srv.list[k].busy && Traced(g, g.srv.list[k])
       case Sweep => true
       case Drop(i) => Slot(g, i) && g.srv.wire[g.srv.client[i]] == [] && g.srv.client[i] in g.srv.ended
       case Take(i, chance) => Slot(g, i) && Readable(g.srv, g.srv.client[i]) && g.srv.wire[g.srv.client[i]] != [] &&
                               |g.origin| == g.srv.nextId
       case Teardown => g.srv.isShutdown
  }

  /** The lock-step protocol: no second `send` before the `receive` of the first. */
  ghost predicate Courteous(g: System, a: Action) {
    a.Send? ==> a.c < |g.conns| && !g.conns[a.c].waiting
  }

  ghost predicate Traced(g: System, b: Binding) {
    b.id < |g.origin| && g.origin[b.id] < |g.conns|
  }

  function Delivered(n: Conn, bytes: map<int, seq<byte>>): Conn {
    if n.open && n.fd in bytes then n.(out := n.out[Min(|bytes[n.fd]|, |n.out|)..]) else n
  }

  /** The request at position `k` is answered and its client gets a reply. */
  ghost function Replied(g: System, k: nat): System
    requires k < |g.srv.list| && Traced(g, g.srv.list[k])
  {
    var c := g.origin[g.srv.list[k].id];
    g.(srv := g.srv.(list := Release(g.srv.list, k)),
       conns := g.conns[c := g.conns[c].(replies := g.conns[c].replies + 1)],
       answered := g.answered + {g.srv.list[k].id})
  }

  /** A message is read off its connection. */
  ghost function TakenFrom(g: System, i: nat, memory: nat -> byte): System
    requires Slot(g, i) && Readable(g.srv, g.srv.client[i]) && g.srv.wire[g.srv.client[i]] != []
  {
    var c := g.at[g.srv.client[i]];
    var stream := g.srv.wire[g.srv.client[i]];
    var n := g.conns[c];
    g.(srv := Received(g.srv, i, memory),
       conns := g.conns[c := n.(dispatched := n.dispatched + [Assembled(stream, memory)], torn := !WholeMessage(stream))],
       origin := g.origin + [c])
  }

  /** The dispatcher's verdict on the newest request. */
  ghost function Judged(g: System, verdict: Verdict, delivered: bool): System
    requires g.srv.list != [] && Traced(g, g.srv.list[0])
  {
    if verdict == Registered && delivered then Replied(g, 0)
    else g.(srv := Dispatched(g.srv, verdict, delivered),
            stops := g.stops + if verdict == ShutDown then {g.srv.list[0].id} else {})
  }

  /** The requests that a sweep frees although nobody has answered them. */
  function Unanswered(list: seq<Binding>, isShutdown: bool): set<nat> {
    set b <- list | b.busy && isShutdown :: b.id
  }

  ghost function Cleared(g: System): System {
    g.(srv := Swept(g.srv), lost := g.lost + Unanswered(g.srv.list, g.srv.isShutdown))
  }

  ghost function Next(g: System, a: Action): System
    requires Enabled(g, a)
  {
    match a
    case Connect(fd) =>
      var srv := Accepted(g.srv, fd);
      if srv.halted then g.(srv := srv)
      else g.(srv := srv, at := g.at[fd := |g.conns|],
              conns := g.conns + [Conn(fd, [], [], [], 0, false, false, false, false, true)])
    case Send(c, q) =>
      var n := g.conns[c];
      g.(conns := g.conns[c := n.(sent := n.sent + [q], out := n.out + Image(q), waiting := true)])
    case Receive(c) => g.(conns := g.conns[c := g.conns[c].(replies := g.conns[c].replies - 1, waiting := false)])
    case Close(c, kept) =>
      var n := g.conns[c];
      g.(conns := g.conns[c := n.(closed := true, cut := n.cut || kept < |n.out|, out := n.out[..kept])])
    case Arrive(bytes, ends) =>
      g.(srv := Arrived(g.srv, bytes, ends),
         conns := seq(|g.conns|, c requires 0 <= c < |g.conns| => Delivered(g.conns[c], bytes)))
    case Answer(k) => Replied(g, k)
    case Sweep => Cleared(g)
    case Drop(i) =>
      var fd := g.srv.client[i];
      g.(srv := Disconnected(g.srv, i), conns := g.conns[g.at[fd] := g.conns[g.at[fd]].(open := false)], at := g.at - {fd})
    case Take(i, chance) =>
      Judged(TakenFrom(g, i, chance.memory), Judge(g.srv.table, Assembled(g.srv.wire[g.srv.client[i]], chance.memory)),
             chance.delivered)
    case Teardown => Cleared(g)
  }

  // ----- The invariant of all runs

  /** The dispatched messages that the server could read to their end. */
  function WholePart(n: Conn): seq<seq<byte>> {
    if n.torn && n.dispatched != [] then n.dispatched[..|n.dispatched| - 1] else n.dispatched
  }

  /** A message that looks like a request but need not agree with it behind the header. */
  ghost predicate Resembles(message: seq<byte>, q: Request) {
    |message| == |Image(q)| && message[..HEADER_SIZE] == EncodeEntry(q.header)
  }

  ghost predicate Sound(table: Table, n: Conn) {
    && (forall i :: 0 <= i < |n.sent| ==> Framed(n.sent[i]) && Addressed(table, Image(n.sent[i])))
    && |n.dispatched| <= |n.sent|
    && WholePart(n) == Images(n.sent[..|WholePart(n)|])
    && (n.cut ==> n.closed)
    && (n.torn ==> n.cut && n.dispatched != [] && Resembles(n.dispatched[|n.dispatched| - 1], n.sent[|n.dispatched| - 1]))
  }

  /** What can be read and what is still on its way is what the client sent and the server has not read. */
  ghost predicate Coming(n: Conn, stream: seq<byte>, ended: bool)
    requires |n.dispatched| <= |n.sent|
  {
    && stream + n.out <= Stream(n.sent[|n.dispatched|..])
    && (!n.cut ==> stream + n.out == Stream(n.sent[|n.dispatched|..]))
    && (n.torn ==> stream == [] && n.out == [])
    && (ended ==> n.closed && n.out == [])
  }

  ghost predicate StreamOk(g: System, c: nat)
    requires c < |g.conns|
  {
    var n := g.conns[c];
    && Sound(g.srv.table, n)
    && if n.open then n.fd in g.srv.wire && Coming(n, g.srv.wire[n.fd], n.fd in g.srv.ended)
       else !n.cut ==> |n.dispatched| == |n.sent|
  }

  /** The descriptor of an open connection leads back to it. */
  ghost predicate LinkOk(g: System, c: nat)
    requires c < |g.conns|
  {
    var n := g.conns[c];
    n.open ==> n.fd in g.at && g.at[n.fd] == c
  }

  ghost predicate Links(g: System) {
    && g.at.Keys == g.srv.wire.Keys
    && (forall fd <- g.at :: g.at[fd] < |g.conns| && g.conns[g.at[fd]].fd == fd && g.conns[g.at[fd]].open)
  }

  ghost predicate ConnOk(g: System, c: nat)
    requires c < |g.conns|
  {
    StreamOk(g, c) && LinkOk(g, c)
  }

  ghost predicate Conns(g: System) {
    forall c :: 0 <= c < |g.conns| ==> ConnOk(g, c)
  }

  /** A request that is not busy has been answered or has lost its connection, or is one to shut down. */
  ghost predicate Settled(g: System, id: nat) {
    id < |g.origin| && g.origin[id] < |g.conns| &&
    (id in g.answered || !g.conns[g.origin[id]].open || id in g.stops)
  }

  ghost predicate RequestOk(g: System, b: Binding) {
    && Traced(g, b)
    && g.conns[g.origin[b.id]].fd == b.fd
    && (b.busy ==> b.id !in g.answered && b.id !in g.stops)
    && (!b.busy ==> Settled(g, b.id))
  }

  ghost predicate Requests(g: System) {
    forall b <- g.srv.list :: RequestOk(g, b)
  }

  /** Every request allocated so far is in the list or has been freed, once. */
  ghost predicate Owned(s: Server) {
    Accounted(s.list, s.freed, s.nextId)
  }

  /** What was freed had been settled, or was lost to a shutdown. */
  ghost predicate Freed(g: System) {
    && (forall x <- g.srv.freed :: Settled(g, x) || x in g.lost)
    && (forall x <- g.lost :: x in g.srv.freed && x !in g.answered)
    && (g.lost != {} || g.stops != {} ==> g.srv.isShutdown)
  }

  ghost predicate Logged(s: Server) {
    |s.log| == s.nextId && forall i :: 0 <= i < |s.log| ==> s.log[i].id == i
  }

  /** The messages of one connection in the server's log. */
  ghost function MessagesOf(log: seq<Dispatch>, origin: seq<nat>, c: nat): seq<seq<byte>>
    requires |log| <= |origin|
  {
    if log == [] then []
    else
      var k := |log| - 1;
      MessagesOf(log[..k], origin, c) + if origin[k] == c then [log[k].message] else []
  }

  ghost predicate Told(g: System) {
    && |g.origin| == |g.srv.log| && (forall c <- g.origin :: c < |g.conns|)
    && forall c :: 0 <= c < |g.conns| ==> g.conns[c].dispatched == MessagesOf(g.srv.log, g.origin, c)
  }

  ghost predicate Below(ids: set<nat>, limit: nat) {
    forall x <- ids :: x < limit
  }

  ghost predicate Wired(g: System) {
    SlotTable(g.srv) && Links(g) && Conns(g)
  }

  ghost predicate Listed(g: System) {
    && |g.origin| == g.srv.nextId && Numbered(g.srv.list, g.srv.nextId)
    && Below(g.answered, g.srv.nextId) && Below(g.stops, g.srv.nextId)
    && Requests(g) && Owned(g.srv) && Freed(g) && Logged(g.srv)
  }

  ghost predicate Inv(g: System) {
    Wired(g) && Listed(g) && Told(g)
  }

  lemma StartInv(table: Table, listener: int)
    requires listener > 0
    ensures Inv(Start(table, listener))
  {
    assert Live(Initial(table, listener).client) == {};
  }

  // ----- Every action keeps it

  /** What happened to connection `c` leaves its invariant alone. */
  lemma ConnFrame(g: System, h: System, c: nat)
    requires c < |g.conns| && c < |h.conns| && ConnOk(g, c)
    requires h.conns[c] == g.conns[c] && h.srv.table == g.srv.table
    requires var fd := g.conns[c].fd;
             g.conns[c].open ==>
               fd in h.srv.wire && h.srv.wire[fd] == g.srv.wire[fd] && fd in h.at && h.at[fd] == g.at[fd] &&
               (fd in h.srv.ended <==> fd in g.srv.ended)
    ensures ConnOk(h, c)
  {
  }

  /** An action that leaves the list and the log alone. */
  ghost predicate Aside(g: System, h: System) {
    && h.srv.list == g.srv.list && h.srv.nextId == g.srv.nextId && h.srv.freed == g.srv.freed
    && h.srv.log == g.srv.log && h.srv.isShutdown == g.srv.isShutdown
    && h.origin == g.origin && h.answered == g.answered && h.stops == g.stops && h.lost == g.lost
    && |h.conns| >= |g.conns|
    && forall c :: 0 <= c < |h.conns| ==>
         if c < |g.conns| then SameFate(g.conns[c], h.conns[c]) else h.conns[c].dispatched == []
  }

  ghost predicate SameFate(n: Conn, m: Conn) {
    m.fd == n.fd && m.open == n.open && m.dispatched == n.dispatched
  }

  lemma AsideKeeps(g: System, h: System)
    requires Listed(g) && Told(g) && Aside(g, h)
    ensures Listed(h) && Told(h)
  {
    forall b | b in h.srv.list ensures RequestOk(h, b) {
      assert RequestOk(g, b);
    }
    forall x | x in h.srv.freed ensures Settled(h, x) || x in h.lost {
      assert Settled(g, x) || x in g.lost;
    }
    forall c | |g.conns| <= c < |h.conns| ensures h.conns[c].dispatched == MessagesOf(h.srv.log, h.origin, c) {
      NoMessages(h.srv.log, h.origin, c);
    }
  }

  lemma {:induction false} NoMessages(log: seq<Dispatch>, origin: seq<nat>, c: nat)
    requires |log| <= |origin| && c !in origin
    ensures MessagesOf(log, origin, c) == []
  {
    if log != [] {
      NoMessages(log[..|log| - 1], origin, c);
    }
  }

  lemma {:induction false} MessagesFrame(log: seq<Dispatch>, origin: seq<nat>, more: seq<nat>, c: nat)
    requires |log| <= |origin|
    ensures MessagesOf(log, origin + more, c) == MessagesOf(log, origin, c)
  {
    if log != [] {
      MessagesFrame(log[..|log| - 1], origin, more, c);
    }
  }

  lemma ConnectKeepsConns(g: System, fd: int)
    requires Links(g) && Conns(g) && Enabled(g, Connect(fd))
    ensures Conns(Next(g, Connect(fd)))
  {
    var h := Next(g, Connect(fd));
    forall c | 0 <= c < |h.conns| ensures ConnOk(h, c) {
      if c < |g.conns| {
        assert ConnOk(g, c);
        ConnFrame(g, h, c);
      } else {
        assert h.conns[c] == Conn(fd, [], [], [], 0, false, false, false, false, true);
        assert StreamOk(h, c) && LinkOk(h, c);
      }
    }
  }

  lemma ConnectKeepsLinks(g: System, fd: int)
    requires Links(g) && Enabled(g, Connect(fd))
    ensures Links(Next(g, Connect(fd))) && Aside(g, Next(g, Connect(fd)))
  {
  }

  lemma ConnectKeeps(g: System, fd: int)
    requires Inv(g) && Enabled(g, Connect(fd))
    ensures Inv(Next(g, Connect(fd)))
  {
    AcceptKeepsSlots(g.srv, fd);
    ConnectKeepsConns(g, fd);
    ConnectKeepsLinks(g, fd);
    AsideKeeps(g, Next(g, Connect(fd)));
  }

  /** An action of the client of connection `c` alone. */
  lemma ClientKeeps(g: System, h: System, c: nat)
    requires Inv(g) && c < |g.conns| == |h.conns| && h == g.(conns := g.conns[c := h.conns[c]])
    requires SameFate(g.conns[c], h.conns[c]) && ConnOk(h, c)
    ensures Inv(h)
  {
    SameSlots(g.srv, h.srv);
    forall d | 0 <= d < |h.conns| ensures ConnOk(h, d) {
      assert ConnOk(g, d);
      if d != c {
        ConnFrame(g, h, d);
      }
    }
    AsideKeeps(g, h);
  }

  lemma SendKeepsSound(table: Table, n: Conn, q: Request)
    requires Sound(table, n) && Framed(q) && Addressed(table, Image(q))
    ensures Sound(table, n.(sent := n.sent + [q], out := n.out + Image(q), waiting := true))
  {
    var w := |WholePart(n)|;
    assert (n.sent + [q])[..w] == n.sent[..w];
  }

  lemma SendKeepsComing(n: Conn, q: Request, stream: seq<byte>, ended: bool)
    requires |n.dispatched| <= |n.sent| && Coming(n, stream, ended) && !n.closed && !n.cut && !n.torn
    ensures Coming(n.(sent := n.sent + [q], out := n.out + Image(q), waiting := true), stream, ended)
  {
    var d := |n.dispatched|;
    StreamAppend(n.sent[d..], q);
    assert (n.sent + [q])[d..] == n.sent[d..] + [q];
    assert stream + (n.out + Image(q)) == stream + n.out + Image(q);
  }

  lemma SendKeeps(g: System, c: nat, q: Request)
    requires Inv(g) && Enabled(g, Send(c, q))
    ensures Inv(Next(g, Send(c, q)))
  {
    var n := g.conns[c];
    assert ConnOk(g, c);
    SendKeepsSound(g.srv.table, n, q);
    SendKeepsComing(n, q, g.srv.wire[n.fd], n.fd in g.srv.ended);
    ClientKeeps(g, Next(g, Send(c, q)), c);
  }

  lemma CloseKeepsComing(n: Conn, kept: nat, stream: seq<byte>, ended: bool)
    requires |n.dispatched| <= |n.sent| && Coming(n, stream, ended) && kept <= |n.out|
    ensures Coming(n.(closed := true, cut := n.cut || kept < |n.out|, out := n.out[..kept]), stream, ended)
  {
    assert stream + n.out[..kept] == (stream + n.out)[..|stream| + kept];
    assert kept == |n.out| ==> n.out[..kept] == n.out;
  }

  lemma CloseKeeps(g: System, c: nat, kept: nat)
    requires Inv(g) && Enabled(g, Close(c, kept))
    ensures Inv(Next(g, Close(c, kept)))
  {
    var n := g.conns[c];
    assert ConnOk(g, c);
    if n.open {
      CloseKeepsComing(n, kept, g.srv.wire[n.fd], n.fd in g.srv.ended);
    }
    ClientKeeps(g, Next(g, Close(c, kept)), c);
  }

  lemma ReceivedSound(table: Table, n: Conn, m: Conn)
    requires Sound(table, n) && m == n.(replies := m.replies, waiting := m.waiting)
    ensures Sound(table, m)
    ensures forall stream, ended :: Coming(n, stream, ended) ==> Coming(m, stream, ended)
  {
    assert WholePart(m) == WholePart(n);
  }

  lemma ReceiveKeeps(g: System, c: nat)
    requires Inv(g) && Enabled(g, Receive(c))
    ensures Inv(Next(g, Receive(c)))
  {
    assert ConnOk(g, c);
    ReceivedSound(g.srv.table, g.conns[c], Next(g, Receive(c)).conns[c]);
    ClientKeeps(g, Next(g, Receive(c)), c);
  }

  lemma ArriveKeepsComing(n: Conn, stream: seq<byte>, ended: bool, piece: seq<byte>, end: bool)
    requires |n.dispatched| <= |n.sent| && Coming(n, stream, ended) && piece <= n.out && (end ==> n.closed && n.out == piece)
    ensures Coming(n.(out := n.out[|piece|..]), stream + piece, ended || end)
  {
    assert stream + piece + n.out[|piece|..] == stream + n.out;
  }

  lemma ArriveKeepsConn(g: System, bytes: map<int, seq<byte>>, ends: set<int>, c: nat)
    requires Links(g) && c < |g.conns| && ConnOk(g, c) && Enabled(g, Arrive(bytes, ends))
    ensures ConnOk(Next(g, Arrive(bytes, ends)), c)
  {
    var h := Next(g, Arrive(bytes, ends));
    var n := g.conns[c];
    assert h.conns[c] == Delivered(n, bytes);
    if n.open {
      var piece := if n.fd in bytes then bytes[n.fd] else [];
      ArriveKeepsComing(n, g.srv.wire[n.fd], n.fd in g.srv.ended, piece, n.fd in ends);
      assert h.conns[c] == n.(out := n.out[|piece|..]);
      assert h.srv.wire[n.fd] == g.srv.wire[n.fd] + piece;
    }
  }

  lemma ArriveKeepsSlots(s: Server, bytes: map<int, seq<byte>>, ends: set<int>)
    requires SlotTable(s) && forall fd <- ends :: fd in s.wire
    ensures SlotTable(Arrived(s, bytes, ends))
  {
    forall fd | fd in ends ensures fd in s.wire.Keys {
    }
    SameSlots(s, Arrived(s, bytes, ends));
  }

  lemma ArriveKeepsLinks(g: System, bytes: map<int, seq<byte>>, ends: set<int>)
    requires Links(g) && Enabled(g, Arrive(bytes, ends))
    ensures Links(Next(g, Arrive(bytes, ends))) && Aside(g, Next(g, Arrive(bytes, ends)))
  {
    var h := Next(g, Arrive(bytes, ends));
    assert forall c :: 0 <= c < |g.conns| ==> h.conns[c] == Delivered(g.conns[c], bytes);
  }

  lemma ArriveKeeps(g: System, bytes: map<int, seq<byte>>, ends: set<int>)
    requires Inv(g) && Enabled(g, Arrive(bytes, ends))
    ensures Inv(Next(g, Arrive(bytes, ends)))
  {
    var h := Next(g, Arrive(bytes, ends));
    ArriveKeepsSlots(g.srv, bytes, ends);
    ArriveKeepsLinks(g, bytes, ends);
    forall c | 0 <= c < |h.conns| ensures ConnOk(h, c) {
      assert ConnOk(g, c);
      ArriveKeepsConn(g, bytes, ends, c);
    }
    AsideKeeps(g, h);
  }

  /** No number is both in the list and freed. */
  lemma ListedIsNotFreed(s: Server, b: Binding)
    requires Owned(s) && b in s.list
    ensures b.id !in s.freed
  {
    var k :| 0 <= k < |s.list| && s.list[k] == b;
    assert Ids(s.list)[k] == b.id;
    AccountedOnce(s.list, s.freed, s.nextId, b.id);
  }

  lemma RepliedKeepsRequests(g: System, k: nat)
    requires Listed(g) && k < |g.srv.list| && g.srv.list[k].busy && RequestOk(g, g.srv.list[k])
    ensures Requests(Replied(g, k))
  {
    var h := Replied(g, k);
    ReleasedFrom(g.srv.list, k, g.srv.nextId);
    forall b | b in h.srv.list ensures RequestOk(h, b) {
      if b.id != g.srv.list[k].id {
        assert RequestOk(g, b);
      }
    }
  }

  lemma RepliedKeepsList(g: System, k: nat)
    requires Listed(g) && Told(g) && k < |g.srv.list| && g.srv.list[k].busy
    ensures RequestOk(g, g.srv.list[k]) && Listed(Replied(g, k)) && Told(Replied(g, k))
  {
    var r := g.srv.list[k];
    assert r in g.srv.list && RequestOk(g, r);
    var h := Replied(g, k);
    ReleaseKeepsOrder(g.srv.list, k, g.srv.nextId);
    RepliedKeepsRequests(g, k);
    ListedIsNotFreed(g.srv, r);
    forall x | x in h.srv.freed ensures Settled(h, x) || x in h.lost {
      assert Settled(g, x) || x in g.lost;
    }
  }

  lemma RepliedKeepsWired(g: System, k: nat)
    requires Wired(g) && k < |g.srv.list| && g.srv.list[k].busy && RequestOk(g, g.srv.list[k])
    ensures Wired(Replied(g, k))
  {
    var h := Replied(g, k);
    SameSlots(g.srv, h.srv);
    forall c | 0 <= c < |h.conns| ensures ConnOk(h, c) {
      assert ConnOk(g, c);
      if c != g.origin[g.srv.list[k].id] {
        ConnFrame(g, h, c);
      }
    }
  }

  lemma SweepKeepsWired(g: System)
    requires Wired(g)
    ensures Wired(Cleared(g))
  {
    var h := Cleared(g);
    SameSlots(g.srv, h.srv);
    forall c | 0 <= c < |h.conns| ensures ConnOk(h, c) {
      assert ConnOk(g, c);
      ConnFrame(g, h, c);
    }
  }

  lemma SweepKeepsFreed(g: System)
    requires Requests(g) && Freed(g)
    ensures Freed(Cleared(g))
  {
    var h := Cleared(g);
    DroppedFrom(g.srv.list, g.srv.isShutdown);
    forall x | x in h.srv.freed ensures Settled(h, x) || x in h.lost {
      if x in g.srv.freed {
        assert Settled(g, x) || x in g.lost;
      } else {
        var b :| b in g.srv.list && b.id == x && Done(b, g.srv.isShutdown);
        assert RequestOk(g, b);
      }
    }
    forall x | x in h.lost ensures x in h.srv.freed && x !in h.answered {
      if x !in g.lost {
        LostAreFreed(g.srv.list, x);
        var b :| b in g.srv.list && b.busy && b.id == x;
        assert RequestOk(g, b);
      }
    }
  }

  lemma LostAreFreed(list: seq<Binding>, x: nat)
    requires x in Unanswered(list, true)
    ensures x in Dropped(list, true)
  {
    ShutdownSweepsAll(list);
    var b :| b in list && b.id == x;
    var k :| 0 <= k < |list| && list[k] == b;
    assert Ids(list)[k] == x;
  }

  lemma SweepKeepsOwned(s: Server)
    requires Owned(s)
    ensures Owned(Swept(s))
  {
    SweepAccounts(s.list, s.freed, s.nextId, s.isShutdown);
  }

  lemma SweepKeepsList(g: System)
    requires Listed(g) && Told(g)
    ensures Listed(Cleared(g)) && Told(Cleared(g))
  {
    var h := Cleared(g);
    SweepKeepsOrder(g.srv.list, g.srv.nextId, g.srv.isShutdown);
    SweepKeeps(g.srv.list, g.srv.isShutdown);
    SweepKeepsOwned(g.srv);
    SweepKeepsFreed(g);
    forall b | b in h.srv.list ensures RequestOk(h, b) {
      assert RequestOk(g, b);
    }
  }

  /** At the end of its stream everything a client sent has been dispatched, unless it was cut off. */
  lemma DropFacts(g: System, i: nat)
    requires Wired(g) && Enabled(g, Drop(i))
    ensures var n := g.conns[g.at[g.srv.client[i]]];
            ConnOk(g, g.at[g.srv.client[i]]) && n.open && n.fd == g.srv.client[i] && n.closed &&
            (!n.cut ==> |n.sent| == |n.dispatched|)
  {
    var c := g.at[g.srv.client[i]];
    assert ConnOk(g, c);
    var rest := g.conns[c].sent[|g.conns[c].dispatched|..];
    assert Stream(rest) == [] ==> rest == [];
  }

  lemma DropKeepsConns(g: System, i: nat)
    requires Wired(g) && Enabled(g, Drop(i))
    ensures Conns(Next(g, Drop(i)))
  {
    var h := Next(g, Drop(i));
    DropFacts(g, i);
    forall c | 0 <= c < |h.conns| ensures ConnOk(h, c) {
      assert ConnOk(g, c);
      if c != g.at[g.srv.client[i]] {
        ConnFrame(g, h, c);
      }
    }
  }

  lemma DropKeepsLinks(g: System, i: nat)
    requires Links(g) && Enabled(g, Drop(i))
    ensures Links(Next(g, Drop(i)))
  {
  }

  lemma DropKeepsRequest(g: System, i: nat, a: Binding, b: Binding)
    requires Wired(g) && RequestOk(g, a) && Enabled(g, Drop(i))
    requires b == a || (a.fd == g.srv.client[i] && b == a.(busy := false))
    ensures RequestOk(Next(g, Drop(i)), b)
  {
    DropFacts(g, i);
    assert ConnOk(g, g.origin[a.id]);
  }

  lemma DropKeepsRequests(g: System, i: nat)
    requires Inv(g) && Enabled(g, Drop(i))
    ensures Requests(Next(g, Drop(i)))
  {
    var fd := g.srv.client[i];
    var list := Unmarked(g.srv.list, fd);
    UnmarkKeepsOrder(g.srv.list, fd, g.srv.nextId);
    assert Next(g, Drop(i)).srv.list == list;
    forall b | b in list ensures RequestOk(Next(g, Drop(i)), b) {
      var a :| a in g.srv.list && (b == a || (a.fd == fd && b == a.(busy := false)));
      assert RequestOk(g, a);
      DropKeepsRequest(g, i, a, b);
    }
  }

  lemma DropKeepsList(g: System, i: nat)
    requires Inv(g) && Enabled(g, Drop(i))
    ensures Listed(Next(g, Drop(i))) && Told(Next(g, Drop(i)))
  {
    var h := Next(g, Drop(i));
    DropKeepsRequests(g, i);
    UnmarkKeepsOrder(g.srv.list, g.srv.client[i], g.srv.nextId);
    forall x | x in h.srv.freed ensures Settled(h, x) || x in h.lost {
      assert Settled(g, x) || x in g.lost;
    }
  }

  /** What the server reads next is what the client sent next, or the part of it that got out. */
  lemma TakeFacts(g: System, i: nat)
    requires Wired(g) && Slot(g, i) && Readable(g.srv, g.srv.client[i]) && g.srv.wire[g.srv.client[i]] != []
    ensures var c := g.at[g.srv.client[i]];
            var n := g.conns[c];
            var stream := g.srv.wire[g.srv.client[i]];
            && ConnOk(g, c) && n.open && n.fd == g.srv.client[i] && !n.torn && |n.dispatched| < |n.sent|
            && Framed(n.sent[|n.dispatched|])
            && stream + n.out <= Image(n.sent[|n.dispatched|]) + Stream(n.sent[|n.dispatched| + 1..])
            && (!n.cut ==> stream + n.out == Image(n.sent[|n.dispatched|]) + Stream(n.sent[|n.dispatched| + 1..]))
  {
    var c := g.at[g.srv.client[i]];
    assert ConnOk(g, c);
    var n := g.conns[c];
    var d := |n.dispatched|;
    assert d < |n.sent| ==> n.sent[d..][0] == n.sent[d] && n.sent[d..][1..] == n.sent[d + 1..];
  }

  lemma TakeWhole(n: Conn, q: Request, later: seq<byte>, stream: seq<byte>, memory: nat -> byte)
    requires Framed(q) && stream + n.out <= Image(q) + later && |stream| >= HEADER_SIZE && WholeMessage(stream)
    ensures Assembled(stream, memory) == Image(q) && Rest(stream) + n.out <= later
    ensures stream + n.out == Image(q) + later ==> Rest(stream) + n.out == later
  {
    assert stream <= Image(q) + later;
    FrontOfStream(q, later, stream);
    FrontOfStream(q, later, stream + n.out);
    var m := |Image(q)|;
    assert (stream + n.out)[m..] == stream[m..] + n.out;
    assert (Image(q) + later)[m..] == later;
  }

  lemma TakeTorn(n: Conn, q: Request, later: seq<byte>, stream: seq<byte>, memory: nat -> byte)
    requires Framed(q) && stream + n.out <= Image(q) + later && |stream| >= HEADER_SIZE
    requires !WholeMessage(stream) && MessageSize(stream) < WORD_LIMIT && n.out == []
    ensures Resembles(Assembled(stream, memory), q) && Rest(stream) == []
    ensures stream + n.out != Image(q) + later
  {
    assert stream <= Image(q) + later;
    FrontOfStream(q, later, stream);
    assert Assembled(stream, memory)[..HEADER_SIZE] == stream[..HEADER_SIZE] == Image(q)[..HEADER_SIZE];
  }

  lemma TakenConnOk(table: Table, n: Conn, stream: seq<byte>, ended: bool, memory: nat -> byte)
    requires Sound(table, n) && Coming(n, stream, ended) && !n.torn && |n.dispatched| < |n.sent|
    requires var q, later := n.sent[|n.dispatched|], Stream(n.sent[|n.dispatched| + 1..]);
             Framed(q) && stream + n.out <= Image(q) + later && (!n.cut ==> stream + n.out == Image(q) + later)
    requires |stream| >= HEADER_SIZE && MessageSize(stream) < WORD_LIMIT && (ended || WholeMessage(stream))
    ensures var m := n.(dispatched := n.dispatched + [Assembled(stream, memory)], torn := !WholeMessage(stream));
            Sound(table, m) && Coming(m, Rest(stream), ended)
  {
    var m := n.(dispatched := n.dispatched + [Assembled(stream, memory)], torn := !WholeMessage(stream));
    var d := |n.dispatched|;
    var later := Stream(n.sent[d + 1..]);
    ImagesUpTo(n.sent, d);
    if WholeMessage(stream) {
      TakeWhole(n, n.sent[d], later, stream, memory);
      assert WholePart(m) == n.dispatched + [Image(n.sent[d])];
    } else {
      TakeTorn(n, n.sent[d], later, stream, memory);
      assert WholePart(m) == n.dispatched;
    }
  }

  lemma TakeKeepsConn(g: System, i: nat, memory: nat -> byte)
    requires Wired(g) && Slot(g, i) && Readable(g.srv, g.srv.client[i]) && g.srv.wire[g.srv.client[i]] != []
    ensures ConnOk(TakenFrom(g, i, memory), g.at[g.srv.client[i]])
  {
    TakeFacts(g, i);
    var n := g.conns[g.at[g.srv.client[i]]];
    TakenConnOk(g.srv.table, n, g.srv.wire[n.fd], n.fd in g.srv.ended, memory);
    assert TakenFrom(g, i, memory).srv.wire[n.fd] == Rest(g.srv.wire[n.fd]);
  }

  lemma ImagesUpTo(qs: seq<Request>, d: nat)
    requires d < |qs|
    ensures Images(qs[..d + 1]) == Images(qs[..d]) + [Image(qs[d])]
  {
    assert qs[..d + 1] == qs[..d] + [qs[d]];
  }

  lemma TakeKeepsConns(g: System, i: nat, memory: nat -> byte)
    requires Wired(g) && Slot(g, i) && Readable(g.srv, g.srv.client[i]) && g.srv.wire[g.srv.client[i]] != []
    ensures Wired(TakenFrom(g, i, memory))
  {
    var h := TakenFrom(g, i, memory);
    TakeFacts(g, i);
    SameSlots(g.srv, h.srv);
    forall c | 0 <= c < |h.conns| ensures ConnOk(h, c) {
      if c == g.at[g.srv.client[i]] {
        TakeKeepsConn(g, i, memory);
      } else {
        assert ConnOk(g, c);
        ConnFrame(g, h, c);
      }
    }
  }

  lemma TakeKeepsOwned(s: Server, i: nat, memory: nat -> byte)
    requires Connected(s, i) && Readable(s, s.client[i]) && s.wire[s.client[i]] != [] && Owned(s) && Logged(s)
    ensures Owned(Received(s, i, memory)) && Logged(Received(s, i, memory))
  {
    AccountedCons(s.list, s.freed, s.nextId, Binding(s.nextId, s.client[i], true));
  }

  lemma TakeKeepsRequests(g: System, i: nat, chance: Chance)
    requires Inv(g) && Enabled(g, Take(i, chance))
    ensures Requests(TakenFrom(g, i, chance.memory))
  {
    var h := TakenFrom(g, i, chance.memory);
    NewRequestOk(g, i, chance);
    forall b | b in h.srv.list ensures RequestOk(h, b) {
      if b in g.srv.list {
        assert RequestOk(g, b);
      }
    }
  }

  lemma NewRequestOk(g: System, i: nat, chance: Chance)
    requires Inv(g) && Enabled(g, Take(i, chance))
    ensures var h := TakenFrom(g, i, chance.memory);
            h.srv.list == [Binding(g.srv.nextId, g.srv.client[i], true)] + g.srv.list && RequestOk(h, h.srv.list[0])
  {
    TakeFacts(g, i);
    assert g.srv.nextId !in g.answered && g.srv.nextId !in g.stops;
  }

  lemma TakeKeepsTold(g: System, i: nat, chance: Chance)
    requires Told(g) && Enabled(g, Take(i, chance))
    ensures Told(TakenFrom(g, i, chance.memory))
  {
    var h := TakenFrom(g, i, chance.memory);
    var c0 := g.at[g.srv.client[i]];
    assert h.srv.log[..|g.srv.log|] == g.srv.log;
    forall c | 0 <= c < |h.conns| ensures h.conns[c].dispatched == MessagesOf(h.srv.log, h.origin, c) {
      MessagesFrame(g.srv.log, g.origin, [c0], c);
    }
  }

  lemma TakeKeepsList(g: System, i: nat, chance: Chance)
    requires Inv(g) && Enabled(g, Take(i, chance))
    ensures Listed(TakenFrom(g, i, chance.memory)) && TakenFrom(g, i, chance.memory).srv.list[0].busy
  {
    var h := TakenFrom(g, i, chance.memory);
    TakeKeepsOwned(g.srv, i, chance.memory);
    TakeKeepsRequests(g, i, chance);
    NumberedCons(g.srv.list, g.srv.nextId, Binding(g.srv.nextId, g.srv.client[i], true));
    forall x | x in h.srv.freed ensures Settled(h, x) || x in h.lost {
      assert Settled(g, x) || x in g.lost;
    }
  }

  lemma JudgedKeeps(g: System, verdict: Verdict, delivered: bool)
    requires Inv(g) && g.srv.list != [] && g.srv.list[0].busy && Traced(g, g.srv.list[0])
    ensures Inv(Judged(g, verdict, delivered))
  {
    if verdict == Registered && delivered {
      RepliedKeepsList(g, 0);
      RepliedKeepsWired(g, 0);
    } else {
      var h := Judged(g, verdict, delivered);
      SameSlots(g.srv, h.srv);
      forall c | 0 <= c < |h.conns| ensures ConnOk(h, c) {
        assert ConnOk(g, c);
        ConnFrame(g, h, c);
      }
      JudgedKeepsList(g, verdict, delivered);
    }
  }

  lemma JudgedKeepsRequests(g: System, verdict: Verdict, delivered: bool)
    requires Listed(g) && g.srv.list != [] && Traced(g, g.srv.list[0]) && !(verdict == Registered && delivered)
    ensures Requests(Judged(g, verdict, delivered)) && Below(Judged(g, verdict, delivered).stops, g.srv.nextId)
  {
    var h := Judged(g, verdict, delivered);
    ReleasedFrom(g.srv.list, 0, g.srv.nextId);
    assert g.srv.list[0] in g.srv.list && RequestOk(g, g.srv.list[0]);
    forall b | b in h.srv.list ensures RequestOk(h, b) {
      assert b in g.srv.list ==> RequestOk(g, b);
    }
  }

  lemma JudgedKeepsList(g: System, verdict: Verdict, delivered: bool)
    requires Listed(g) && g.srv.list != [] && Traced(g, g.srv.list[0]) && !(verdict == Registered && delivered)
    ensures Listed(Judged(g, verdict, delivered))
  {
    ReleaseKeepsOrder(g.srv.list, 0, g.srv.nextId);
    JudgedKeepsRequests(g, verdict, delivered);
    JudgedKeepsFreed(g, verdict, delivered);
  }

  lemma JudgedKeepsFreed(g: System, verdict: Verdict, delivered: bool)
    requires Freed(g) && g.srv.list != [] && Traced(g, g.srv.list[0]) && !(verdict == Registered && delivered)
    ensures Freed(Judged(g, verdict, delivered))
  {
    var h := Judged(g, verdict, delivered);
    forall x | x in h.srv.freed ensures Settled(h, x) || x in h.lost {
      assert Settled(g, x) || x in g.lost;
    }
  }

  lemma TakeKeeps(g: System, i: nat, chance: Chance)
    requires Inv(g) && Enabled(g, Take(i, chance))
    ensures Inv(Next(g, Take(i, chance)))
  {
    TakeKeepsConns(g, i, chance.memory);
    TakeKeepsList(g, i, chance);
    TakeKeepsTold(g, i, chance);
    JudgedKeeps(TakenFrom(g, i, chance.memory),
                Judge(g.srv.table, Assembled(g.srv.wire[g.srv.client[i]], chance.memory)), chance.delivered);
  }

  lemma NextKeeps(g: System, a: Action)
    requires Inv(g) && Enabled(g, a)
    ensures Inv(Next(g, a))
  {
    match a
    case Connect(fd) => ConnectKeeps(g, fd);
    case Send(c, q) => SendKeeps(g, c, q);
    case Receive(c) => ReceiveKeeps(g, c);
    case Close(c, kept) => CloseKeeps(g, c, kept);
    case Arrive(bytes, ends) => ArriveKeeps(g, bytes, ends);
    case Answer(k) =>
      RepliedKeepsList(g, k);
      RepliedKeepsWired(g, k);
    case Sweep =>
      SweepKeepsWired(g);
      SweepKeepsList(g);
    case Drop(i) =>
      DisconnectKeepsSlots(g.srv, i);
      DropKeepsConns(g, i);
      DropKeepsLinks(g, i);
      DropKeepsList(g, i);
    case Take(i, chance) => TakeKeeps(g, i, chance);
    case Teardown =>
      SweepKeepsWired(g);
      SweepKeepsList(g);
  }
}
