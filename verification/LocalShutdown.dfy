/** What becomes of the requests that are pending when a local server is shut down. */
module LocalShutdown {
  import opened Options
  import opened Bytes
  import opened Headers
  import opened Transfer
  import opened Framing
  import opened Bindings
  import opened ServiceTable
  import opened LocalServer
  import opened LocalSystem
  import opened LockStep
  import opened LocalRuns

  ghost predicate SomeBusy(list: seq<Binding>) {
    exists b :: b in list && b.busy
  }

  /** The sweeps of a server in shutdown, those of later visits and the one of the teardown alike, lose a
      request if and only if the list holds one that is still to be answered. */
  lemma SweepLosesIff(g: System, lockStep: bool)
    requires Reachable(g, lockStep)
    ensures Cleared(g).lost != g.lost <==> g.srv.isShutdown && SomeBusy(g.srv.list)
  {
    ReachableGood(g, lockStep);
    if g.srv.isShutdown && SomeBusy(g.srv.list) {
      var b :| b in g.srv.list && b.busy;
      ListedIsNotFreed(g.srv, b);
      assert b.id in Cleared(g).lost;
    }
  }

  /** In lock-step, whoever loses a request is waiting for the answer. */
  lemma LostInFrontOfTheClient(g: System, id: nat)
    requires Reachable(g, true) && id in Cleared(g).lost && id !in g.lost
    ensures id !in g.answered && id < |g.origin| && g.origin[id] < |g.conns|
    ensures Pending(g.conns[g.origin[id]])
  {
    ReachableGood(g, true);
    var b :| b in g.srv.list && b.busy && b.id == id;
    assert RequestOk(g, b);
  }

  /** At the end every request ever received was answered, or its client had gone, or it was one to shut
      down, or it was lost; a lost one was never answered. */
  lemma EveryRequestHasItsFate(g: System, lockStep: bool, id: nat)
    requires Reachable(g, lockStep) && Enabled(g, Teardown) && id < g.srv.nextId
    ensures var h := Next(g, Teardown);
            && id < |h.origin| && h.origin[id] < |h.conns|
            && (id in h.lost || id in h.answered || id in h.stops || !h.conns[h.origin[id]].open)
            && !(id in h.lost && id in h.answered)
  {
    ReachableGood(g, lockStep);
    var h := Next(g, Teardown);
    NextKeeps(g, Teardown);
    AllFreedAtTheEnd(g, lockStep, id);
    FreedHaveTheirFate(h, id);
  }

  lemma FreedHaveTheirFate(h: System, id: nat)
    requires Inv(h) && multiset(h.srv.freed)[id] > 0
    ensures id in h.lost || Settled(h, id)
    ensures id in h.lost ==> id !in h.answered
    ensures id < |h.origin| && h.origin[id] < |h.conns|
  {
    assert id in h.srv.freed;
    AccountedOnce(h.srv.list, h.srv.freed, h.srv.nextId, id);
    assert h.origin[id] in h.origin;
  }

  /** A stop request is next in the slot. */
  ghost predicate StopAt(g: System, i: nat) {
    Slot(g, i) && Readable(g.srv, g.srv.client[i]) && g.srv.wire[g.srv.client[i]] != [] &&
    DecodeEntry(g.srv.wire[g.srv.client[i]]).systemCode == DEMSERV_SHUTDOWN
  }

  lemma StopTakes(g: System, i: nat, chance: Chance)
    requires Enabled(g, Take(i, chance)) && StopAt(g, i)
    ensures var t := Next(g, Take(i, chance));
            && t.srv.isShutdown && t.lost == g.lost && t.srv.freed == g.srv.freed
            && t.srv.list == [Binding(g.srv.nextId, g.srv.client[i], false)] + g.srv.list
  {
  }

  /** When a server in lock-step with its clients reads a shutdown request, the next sweep, of another visit or
      of the teardown, loses a request if and only if some client is waiting for the answer to a request
      that the server has already read. */
  lemma StopLosesIff(g: System, i: nat, chance: Chance)
    requires Reachable(g, true) && !g.srv.isShutdown && Enabled(g, Take(i, chance)) && StopAt(g, i)
    ensures Cleared(Next(g, Take(i, chance))).lost != {} <==>
            exists c :: 0 <= c < |g.conns| && Pending(g.conns[c])
  {
    ReachableGood(g, true);
    assert g.lost == {};
    StopTakes(g, i, chance);
    ReachableNext(g, Take(i, chance), true);
    SweepLosesIff(Next(g, Take(i, chance)), true);
    BusyIffPending(g);
    SomeBusyCons(Binding(g.srv.nextId, g.srv.client[i], false), g.srv.list);
  }

  lemma BusyIffPending(g: System)
    requires InStep(g) && !g.srv.isShutdown
    ensures SomeBusy(g.srv.list) <==> exists c :: 0 <= c < |g.conns| && Pending(g.conns[c])
  {
    if SomeBusy(g.srv.list) {
      var b :| b in g.srv.list && b.busy;
      assert Pending(g.conns[g.origin[b.id]]);
    }
    if c :| 0 <= c < |g.conns| && Pending(g.conns[c]) {
      var b :| BusyFor(g, b, c);
      assert b in g.srv.list && b.busy;
    }
  }

  lemma SomeBusyCons(b: Binding, list: seq<Binding>)
    requires !b.busy
    ensures SomeBusy([b] + list) <==> SomeBusy(list)
  {
    if SomeBusy(list) {
      var a :| a in list && a.busy;
      assert a in [b] + list;
    }
  }

  /** Whoever waits, waits for a shutdown request to be read. This is what one can see to before asking for
      the shutdown. */
  ghost predicate Quiet(g: System) {
    forall c :: 0 <= c < |g.conns| && g.conns[c].open && g.conns[c].waiting ==>
      |g.conns[c].dispatched| < |g.conns[c].sent| &&
      g.conns[c].sent[|g.conns[c].dispatched|].header.systemCode == DEMSERV_SHUTDOWN
  }

  ghost predicate OnlyStops(qs: seq<Request>) {
    forall k :: 0 <= k < |qs| ==> qs[k].header.systemCode == DEMSERV_SHUTDOWN
  }

  /** Nobody's answer is outstanding, and only shutdown requests are still to be read. */
  ghost predicate Calm(g: System) {
    && Inv(g) && g.lost == {} && !SomeBusy(g.srv.list)
    && forall c :: 0 <= c < |g.conns| && g.conns[c].open ==> OnlyStops(Unread(g.conns[c]))
  }

  ghost function Unread(n: Conn): seq<Request> {
    if |n.dispatched| <= |n.sent| then n.sent[|n.dispatched|..] else []
  }

  lemma QuietIsCalm(g: System)
    requires Reachable(g, true) && !g.srv.isShutdown && Quiet(g)
    ensures Calm(g)
  {
    ReachableGood(g, true);
    forall b | b in g.srv.list ensures !b.busy {
      assert RequestOk(g, b);
    }
    forall c | 0 <= c < |g.conns| && g.conns[c].open
      ensures OnlyStops(Unread(g.conns[c]))
    {
      assert ConnOk(g, c) && LockStepOk(g.conns[c]);
    }
  }

  /** No request but further ones to shut down. */
  ghost predicate Discreet(a: Action) {
    a.Send? ==> a.q.header.systemCode == DEMSERV_SHUTDOWN
  }

  lemma CalmTake(g: System, i: nat, chance: Chance)
    requires Calm(g) && Enabled(g, Take(i, chance))
    ensures StopAt(g, i)
  {
    TakeFacts(g, i);
    var n := g.conns[g.at[g.srv.client[i]]];
    var q := n.sent[|n.dispatched|];
    assert Unread(n)[0] == q;
    var stream := g.srv.wire[g.srv.client[i]];
    assert stream <= Image(q) + Stream(n.sent[|n.dispatched| + 1..]);
    FrontOfStream(q, Stream(n.sent[|n.dispatched| + 1..]), stream);
  }

  lemma CalmTaken(g: System, i: nat, chance: Chance)
    requires Calm(g) && Enabled(g, Take(i, chance))
    ensures Calm(Next(g, Take(i, chance)))
  {
    var t := Next(g, Take(i, chance));
    CalmTake(g, i, chance);
    StopTakes(g, i, chance);
    NextKeeps(g, Take(i, chance));
    forall c | 0 <= c < |t.conns| && t.conns[c].open ensures OnlyStops(Unread(t.conns[c])) {
      TakenSent(g, i, chance, g.at[g.srv.client[i]]);
      TakenSent(g, i, chance, c);
      TakenUnread(g, i, chance, c);
    }
  }

  lemma TakenUnread(g: System, i: nat, chance: Chance, c: nat)
    requires Calm(g) && Enabled(g, Take(i, chance)) && StopAt(g, i) && c < |g.conns| && g.conns[c].open
    ensures |Next(g, Take(i, chance)).conns| == |g.conns|
    ensures OnlyStops(Unread(Next(g, Take(i, chance)).conns[c]))
  {
    TakenSent(g, i, chance, c);
    assert ConnOk(g, c) && OnlyStops(Unread(g.conns[c]));
    FewerStops(g.conns[c], Next(g, Take(i, chance)).conns[c]);
  }

  lemma TakenSent(g: System, i: nat, chance: Chance, c: nat)
    requires Enabled(g, Take(i, chance)) && StopAt(g, i) && c < |g.conns|
    ensures var t := Next(g, Take(i, chance));
            && |t.conns| == |g.conns| && t.conns[c].sent == g.conns[c].sent && t.conns[c].open == g.conns[c].open
            && |g.conns[c].dispatched| <= |t.conns[c].dispatched|
  {
  }

  lemma FewerStops(n: Conn, m: Conn)
    requires OnlyStops(Unread(n)) && m.sent == n.sent && |n.dispatched| <= |m.dispatched| && |n.dispatched| <= |n.sent|
    ensures OnlyStops(Unread(m))
  {
    assert Unread(m) == [] || Unread(m) == Unread(n)[|m.dispatched| - |n.dispatched|..];
  }

  lemma SentAndRead(g: System, a: Action, c: nat)
    requires Enabled(g, a) && !a.Take? && c < |g.conns|
    ensures c < |Next(g, a).conns|
    ensures var n, m := g.conns[c], Next(g, a).conns[c];
            && m.dispatched == n.dispatched && (m.open ==> n.open)
            && m.sent == if a.Send? && a.c == c then n.sent + [a.q] else n.sent
  {
    assert a.Arrive? ==> Next(g, a).conns[c] == Delivered(g.conns[c], a.bytes);
  }

  lemma StillOnlyStops(n: Conn, m: Conn, q: Request)
    requires |n.dispatched| <= |n.sent| && OnlyStops(Unread(n)) && q.header.systemCode == DEMSERV_SHUTDOWN
    requires m.dispatched == n.dispatched && (m.sent == n.sent || m.sent == n.sent + [q])
    ensures OnlyStops(Unread(m))
  {
    assert (n.sent + [q])[|n.dispatched|..] == Unread(n) + [q];
  }

  lemma CalmUnread(g: System, a: Action, c: nat)
    requires Calm(g) && Enabled(g, a) && Discreet(a) && !a.Take? && c < |Next(g, a).conns|
    requires Next(g, a).conns[c].open
    ensures OnlyStops(Unread(Next(g, a).conns[c]))
  {
    if c < |g.conns| {
      SentAndRead(g, a, c);
      assert ConnOk(g, c) && OnlyStops(Unread(g.conns[c]));
      StillOnlyStops(g.conns[c], Next(g, a).conns[c], if a.Send? then a.q else Stop);
    }
  }

  lemma CalmList(g: System, a: Action)
    requires Calm(g) && Enabled(g, a) && !a.Take?
    ensures Next(g, a).lost == {} && !SomeBusy(Next(g, a).srv.list)
  {
    SweepKeeps(g.srv.list, g.srv.isShutdown);
    if a.Drop? {
      UnmarkKeepsOrder(g.srv.list, g.srv.client[a.i], g.srv.nextId);
    }
  }

  lemma CalmNext(g: System, a: Action)
    requires Calm(g) && Enabled(g, a) && Discreet(a)
    ensures Calm(Next(g, a))
  {
    if a.Take? {
      CalmTaken(g, a.i, a.chance);
    } else {
      NextKeeps(g, a);
      CalmList(g, a);
      forall c | 0 <= c < |Next(g, a).conns| && Next(g, a).conns[c].open ensures OnlyStops(Unread(Next(g, a).conns[c])) {
        CalmUnread(g, a, c);
      }
    }
  }

  lemma {:induction false} CalmRun(g: System, actions: seq<Action>, lockStep: bool)
    requires Calm(g) && IsRun(g, actions, lockStep) && forall a <- actions :: Discreet(a)
    ensures Calm(After(g, actions, lockStep))
    decreases |actions|
  {
    if actions != [] {
      assert actions[0] in actions;
      CalmNext(g, actions[0]);
      forall a | a in actions[1..] ensures Discreet(a) {
        assert a in actions;
      }
      CalmRun(Next(g, actions[0]), actions[1..], lockStep);
    }
  }

  /** A shutdown that is asked for while nobody else waits, and before anybody sends again, loses nothing, however
      the run goes on. */
  lemma QuietStopLosesNothing(g: System, actions: seq<Action>)
    requires Reachable(g, true) && !g.srv.isShutdown && Quiet(g)
    requires IsRun(g, actions, true) && forall a <- actions :: Discreet(a)
    ensures After(g, actions, true).lost == {}
  {
    QuietIsCalm(g);
    CalmRun(g, actions, true);
  }

  // ----- A run that loses a request

  const Call: Request := Request(Entry(DEMSERV_SEND, 0, 0, 0), [], [])
  const Stop: Request := Request(Entry(DEMSERV_SHUTDOWN, 0, 0, 0), [], [])

  lemma PlainRequest(q: Request, table: Table)
    requires q in {Call, Stop} && |table.slots| > 0
    ensures Framed(q) && Addressed(table, Image(q)) && Headed(table, Image(q)) && WholeMessage(Image(q))
    ensures DecodeEntry(Image(q)) == q.header && MessageSize(Image(q)) == |Image(q)| == HEADER_SIZE
  {
    DecodeEncodeEntry(q.header, []);
    assert Image(q) == EncodeEntry(q.header) + [];
  }

  ghost predicate WasInvoked(s: Server, id: nat) {
    id < |s.log| && Addressed(s.table, s.log[id].message) && Judge(s.table, s.log[id].message).Invoked?
  }

  /** The client in slot `i` has nothing under way. */
  ghost predicate AtRest(g: System, i: nat) {
    Slot(g, i) && g.srv.wire[g.srv.client[i]] == [] &&
    var n := g.conns[g.at[g.srv.client[i]]];
    n == Conn(g.srv.client[i], [], [], [], 0, false, false, false, false, true)
  }

  /** What a request sent and arrived changes. */
  ghost function AskedBy(g: System, i: nat, q: Request): System
    requires Slot(g, i)
  {
    var fd := g.srv.client[i];
    var c := g.at[fd];
    g.(srv := g.srv.(wire := g.srv.wire[fd := Image(q)]), conns := g.conns[c := g.conns[c].(sent := [q], waiting := true)])
  }

  lemma SendAtRest(g: System, i: nat, q: Request)
    requires !g.srv.halted && |g.srv.table.slots| > 0 && AtRest(g, i) && q in {Call, Stop}
    ensures var c := g.at[g.srv.client[i]];
            && Enabled(g, Send(c, q)) && Courteous(g, Send(c, q))
            && Next(g, Send(c, q)) == g.(conns := g.conns[c := g.conns[c].(sent := [q], out := Image(q), waiting := true)])
  {
    PlainRequest(q, g.srv.table);
    var n := g.conns[g.at[g.srv.client[i]]];
    assert n.sent + [q] == [q] && n.out + Image(q) == Image(q);
  }

  lemma ArrivedOnce(s: Server, fd: int, piece: seq<byte>)
    requires fd in s.wire && s.wire[fd] == []
    ensures Arrived(s, map[fd := piece], {}) == s.(wire := s.wire[fd := piece])
  {
    assert [] + piece == piece && s.ended + {} == s.ended;
    assert Extended(s.wire, map[fd := piece]) == s.wire[fd := piece];
  }

  lemma DeliveredOnce(conns: seq<Conn>, c: nat, bytes: map<int, seq<byte>>)
    requires c < |conns| && bytes.Keys == {conns[c].fd} && conns[c].open && conns[c].out == bytes[conns[c].fd]
    requires forall d :: 0 <= d < |conns| && d != c ==> conns[d].fd != conns[c].fd
    ensures seq(|conns|, d requires 0 <= d < |conns| => Delivered(conns[d], bytes)) == conns[c := conns[c].(out := [])]
  {
    var later := seq(|conns|, d requires 0 <= d < |conns| => Delivered(conns[d], bytes));
    assert conns[c].out[|conns[c].out|..] == [];
    assert later[c] == conns[c].(out := []);
    assert forall d :: 0 <= d < |conns| && d != c ==> later[d] == conns[d];
  }

  lemma AsksAtRest(g: System, i: nat, q: Request) returns (h: System)
    requires Reachable(g, true) && !g.srv.halted && |g.srv.table.slots| > 0 && AtRest(g, i) && q in {Call, Stop}
    requires var c := g.at[g.srv.client[i]];
             forall d :: 0 <= d < |g.conns| && d != c ==> g.conns[d].fd != g.conns[c].fd
    ensures Reachable(h, true) && h == AskedBy(g, i, q)
  {
    var fd := g.srv.client[i];
    var c := g.at[fd];
    SendAtRest(g, i, q);
    ReachableNext(g, Send(c, q), true);
    var m := g.(conns := g.conns[c := g.conns[c].(sent := [q], out := Image(q), waiting := true)]);
    ArriveAtRest(m, fd, Image(q));
    ReachableNext(m, Arrive(map[fd := Image(q)], {}), true);
    h := Next(m, Arrive(map[fd := Image(q)], {}));
    assert h.conns == AskedBy(g, i, q).conns;
  }

  lemma ArriveAtRest(m: System, fd: int, piece: seq<byte>)
    requires !m.srv.halted && fd in m.srv.wire && m.srv.wire[fd] == [] && fd in m.at && m.at[fd] < |m.conns|
    requires var n := m.conns[m.at[fd]]; n.open && n.out == piece && n.fd == fd
    requires forall d :: 0 <= d < |m.conns| && d != m.at[fd] ==> m.conns[d].fd != fd
    ensures var c := m.at[fd];
            var a := Arrive(map[fd := piece], {});
            && Enabled(m, a) && Courteous(m, a)
            && Next(m, a) == m.(srv := m.srv.(wire := m.srv.wire[fd := piece]),
                                conns := m.conns[c := m.conns[c].(out := [])])
  {
    assert Deliverable(m, map[fd := piece], {});
    ArrivedOnce(m.srv, fd, piece);
    DeliveredOnce(m.conns, m.at[fd], map[fd := piece]);
  }

  /** Two clients have connected to a server with one service. */
  ghost predicate TwoClients(g: System) {
    && Reachable(g, true) && !g.srv.halted && !g.srv.isShutdown
    && |g.srv.table.slots| == 1 && g.srv.table.registered == 1 && g.srv.table.slots[0].Some?
    && |g.srv.client| == FD_SETSIZE && g.srv.client[0] == 4 && g.srv.client[1] == 5
    && 4 in g.srv.wire && 5 in g.srv.wire && g.at == map[4 := 0, 5 := 1]
    && |g.conns| == 2 && g.conns[0].fd == 4 && g.conns[1].fd == 5 && |g.origin| == g.srv.nextId
  }

  lemma TwoConnect() returns (g: System)
    ensures TwoClients(g) && AtRest(g, 0) && AtRest(g, 1) && g.origin == [] && g.srv.log == []
  {
    var p := OneConnects();
    ReachableNext(p, Connect(5), true);
    g := Next(p, Connect(5));
    assert FirstFree(p.srv.client) == 1;
  }

  lemma OneConnects() returns (g: System)
    ensures Reachable(g, true)
    ensures var s := Start(Table([Some([])], 1), 3);
            g == s.(srv := s.srv.(client := s.srv.client[0 := 4], watched := {3, 4}, wire := map[4 := []]), at := map[4 := 0],
                    conns := [Conn(4, [], [], [], 0, false, false, false, false, true)])
  {
    var s := Start(Table([Some([])], 1), 3);
    ReachesSelf(s, true);
    assert Reachable(s, true);
    ReachableNext(s, Connect(4), true);
    g := Next(s, Connect(4));
    assert FirstFree(s.srv.client) == 0 && {3} + {4} == {3, 4} && s.srv.ended - {4} == s.srv.ended;
  }

  /** The first client has asked for the service: it is invoked, and does not answer. */
  lemma CallIsTaken(g: System, memory: nat -> byte)
    requires TwoClients(g) && AtRest(g, 0) && AtRest(g, 1)
    ensures var p := AskedBy(g, 0, Call);
            Slot(p, 0) && Readable(p.srv, p.srv.client[0]) && p.srv.wire[p.srv.client[0]] != []
    ensures var p := AskedBy(g, 0, Call);
            var h := TakenFrom(p, 0, memory);
            && h.srv == p.srv.(wire := h.srv.wire, list := h.srv.list, nextId := p.srv.nextId + 1, log := h.srv.log)
            && h.srv.list != [] && 4 in h.srv.wire && 5 in h.srv.wire && h.srv.wire[5] == p.srv.wire[5]
            && h.conns == p.conns[0 := p.conns[0].(dispatched := p.conns[0].dispatched + [Image(Call)])]
            && h.at == p.at && h.origin == p.origin + [0] && h.srv.log == g.srv.log + [Dispatch(g.srv.nextId, 4, Image(Call))]
  {
    PlainRequest(Call, g.srv.table);
    var p := AskedBy(g, 0, Call);
    assert p.srv.wire[4] == Image(Call);
    assert Assembled(Image(Call), memory) == FirstMessage(Image(Call)) == Image(Call);
  }

  /** The service has been invoked with the first client's request, and has not answered. */
  ghost predicate Invoked(g: System) {
    && TwoClients(g) && Pending(g.conns[0]) && g.origin == [0]
    && |g.srv.log| == 1 && WasInvoked(g.srv, 0)
  }

  lemma CallIsJudged(table: Table)
    requires |table.slots| == 1 && table.registered == 1 && table.slots[0].Some?
    ensures Addressed(table, Image(Call)) && Judge(table, Image(Call)).Invoked?
  {
    PlainRequest(Call, table);
  }

  lemma CallIsRead(chance: Chance) returns (g: System)
    ensures Invoked(g) && AtRest(g, 1)
  {
    var s := TwoConnect();
    var p := AsksAtRest(s, 0, Call);
    CallIsTaken(s, chance.memory);
    CallIsJudged(s.srv.table);
    ReachableNext(p, Take(0, chance), true);
    g := Next(p, Take(0, chance));
    CallIsServed(s, p, chance);
  }

  lemma CallIsServed(s: System, p: System, chance: Chance)
    requires TwoClients(s) && AtRest(s, 0) && AtRest(s, 1) && s.origin == [] && s.srv.log == [] && p == AskedBy(s, 0, Call)
    requires Enabled(p, Take(0, chance)) && Reachable(Next(p, Take(0, chance)), true)
    ensures Invoked(Next(p, Take(0, chance))) && AtRest(Next(p, Take(0, chance)), 1)
  {
    CallIsTaken(s, chance.memory);
    CallIsJudged(s.srv.table);
    var t := TakenFrom(p, 0, chance.memory);
    assert Next(p, Take(0, chance)) == t by {
      assert t.stops + {} == t.stops;
    }
    TakenIsInvoked(s, p, t);
  }

  lemma TakenIsInvoked(s: System, p: System, t: System)
    requires TwoClients(s) && AtRest(s, 0) && AtRest(s, 1) && s.origin == [] && p == AskedBy(s, 0, Call)
    requires Reachable(t, true) && t.at == p.at && t.origin == [0] && t.srv.log == [Dispatch(s.srv.nextId, 4, Image(Call))]
    requires t.srv == p.srv.(wire := t.srv.wire, list := t.srv.list, nextId := p.srv.nextId + 1, log := t.srv.log)
    requires 4 in t.srv.wire && 5 in t.srv.wire && t.srv.wire[5] == []
    requires t.conns == p.conns[0 := p.conns[0].(dispatched := p.conns[0].dispatched + [Image(Call)])]
    ensures Invoked(t) && AtRest(t, 1)
  {
    CallIsJudged(s.srv.table);
  }

  /** The promise that a server completes its pending requests before it disappears is not kept: in this run
      a request whose service has been invoked is freed by the teardown while its client waits. */
  lemma PendingRequestIsLost(chance: Chance)
    ensures exists g :: Reachable(g, true) && Enabled(g, Teardown) && Next(g, Teardown).lost != {} &&
                        |g.conns| == 2 && Pending(g.conns[0]) && WasInvoked(g.srv, 0)
  {
    var s := CallIsRead(chance);
    var p := AsksAtRest(s, 1, Stop);
    PlainRequest(Stop, p.srv.table);
    assert p.srv.wire[5] == Image(Stop) && StopAt(p, 1);
    StopLosesIff(p, 1, chance);
    ReachableNext(p, Take(1, chance), true);
    var g := Next(p, Take(1, chance));
    StopSpares(p, g, chance);
    assert Pending(p.conns[0]);
    assert Reachable(g, true) && Enabled(g, Teardown) && Next(g, Teardown) == Cleared(g);
  }

  lemma StopSpares(p: System, g: System, chance: Chance)
    requires Enabled(p, Take(1, chance)) && StopAt(p, 1) && g == Next(p, Take(1, chance)) && p.at[p.srv.client[1]] == 1
    requires |p.conns| == 2 && Pending(p.conns[0]) && WasInvoked(p.srv, 0)
    ensures |g.conns| == 2 && g.conns[0] == p.conns[0] && WasInvoked(g.srv, 0) && g.srv.isShutdown && !g.srv.halted
  {
    StopTakes(p, 1, chance);
    assert g.srv.log[0] == p.srv.log[0];
  }
}
