/** The select loop, with whatever its clients do between its rounds, runs through states of the whole system's
    machine, so what holds of every run of the machine holds of the loop. */
module LocalRefinement {
  import opened Bytes
  import opened Headers
  import opened Transfer
  import opened Framing
  import opened Bindings
  import opened ServiceTable
  import opened LocalServer
  import opened LocalRounds
  import opened LocalSystem
  import opened LocalRuns

  // ----- Steps of server and network alone

  ghost predicate SameClient(n: Conn, m: Conn) {
    m.sent == n.sent && m.waiting == n.waiting && m.closed == n.closed && m.cut == n.cut && m.fd == n.fd
  }

  /** No client has done anything. */
  ghost predicate SameClients(g: System, h: System) {
    |g.conns| <= |h.conns| && forall c :: 0 <= c < |g.conns| ==> SameClient(g.conns[c], h.conns[c])
  }

  ghost predicate Follows(g: System, h: System) {
    Reaches(g, h, true) && SameClients(g, h) && Inv(h)
  }

  predicate ByServer(a: Action) {
    a.Connect? || a.Arrive? || a.Answer? || a.Sweep? || a.Drop? || a.Take?
  }

  lemma StepSparesClients(g: System, a: Action)
    requires Enabled(g, a) && ByServer(a)
    ensures SameClients(g, Next(g, a))
  {
    assert a.Arrive? ==> forall c :: 0 <= c < |g.conns| ==> Next(g, a).conns[c] == Delivered(g.conns[c], a.bytes);
  }

  lemma StepFollows(g: System, a: Action)
    requires Inv(g) && Enabled(g, a) && ByServer(a)
    ensures Follows(g, Next(g, a))
  {
    StepSparesClients(g, a);
    NextKeeps(g, a);
    ReachesNext(g, a, true);
  }

  lemma FollowsSelf(g: System)
    requires Inv(g)
    ensures Follows(g, g)
  {
    ReachesSelf(g, true);
  }

  lemma FollowsOn(g: System, h: System, k: System)
    requires Follows(g, h) && Follows(h, k)
    ensures Follows(g, k)
  {
    ReachesOn(g, h, k, true);
  }

  /** The list after the requests of `ids` among its first `k` have been answered. */
  function AnsweredUpTo(list: seq<Binding>, ids: set<nat>, k: nat): seq<Binding>
    requires k <= |list|
  {
    Answered(list[..k], ids) + list[k..]
  }

  lemma AnsweredOneMore(list: seq<Binding>, ids: set<nat>, k: nat)
    requires k < |list|
    ensures var l := AnsweredUpTo(list, ids, k);
            && |l| == |list| && l[k] == list[k]
            && AnsweredUpTo(list, ids, k + 1) == if list[k].id in ids && list[k].busy then Release(l, k) else l
  {
    var l := AnsweredUpTo(list, ids, k);
    var m := AnsweredUpTo(list, ids, k + 1);
    forall j | 0 <= j < |list| && j != k ensures m[j] == l[j] {
      assert j < k ==> list[..k + 1][j] == list[..k][j];
    }
    assert list[..k + 1][k] == list[k];
  }

  lemma AnswerIsEnabled(g: System, k: nat)
    requires Inv(g) && !g.srv.halted && k < |g.srv.list| && g.srv.list[k].busy
    ensures Enabled(g, Answer(k)) && Next(g, Answer(k)).srv == g.srv.(list := Release(g.srv.list, k))
  {
    assert g.srv.list[k] in g.srv.list && RequestOk(g, g.srv.list[k]);
  }

  ghost function AfterAnswer(g: System, p: System, k: nat): (h: System)
    requires Follows(g, p) && !p.srv.halted && k < |p.srv.list| && p.srv.list[k].busy
    ensures Follows(g, h) && h.srv == p.srv.(list := Release(p.srv.list, k))
  {
    AnswerIsEnabled(p, k);
    StepFollows(p, Answer(k));
    FollowsOn(g, p, Next(p, Answer(k)));
    Next(p, Answer(k))
  }

  /** Answers given between two visits are answers of the machine. */
  ghost function AfterAnswers(g: System, ids: set<nat>, k: nat): (h: System)
    requires Inv(g) && !g.srv.halted && k <= |g.srv.list|
    ensures Follows(g, h) && h.srv == g.srv.(list := AnsweredUpTo(g.srv.list, ids, k))
  {
    if k == 0 then
      FollowsSelf(g);
      assert AnsweredUpTo(g.srv.list, ids, 0) == g.srv.list;
      g
    else
      var p := AfterAnswers(g, ids, k - 1);
      AnsweredOneMore(g.srv.list, ids, k - 1);
      if g.srv.list[k - 1].id in ids && g.srv.list[k - 1].busy then AfterAnswer(g, p, k - 1) else p
  }

  ghost function AfterAllAnswers(g: System, ids: set<nat>): (h: System)
    requires Inv(g) && !g.srv.halted
    ensures Follows(g, h) && h.srv == AnswerAll(g.srv, ids)
  {
    assert g.srv.list[..|g.srv.list|] == g.srv.list;
    assert AnsweredUpTo(g.srv.list, ids, |g.srv.list|) == Answered(g.srv.list, ids);
    AfterAnswers(g, ids, |g.srv.list|)
  }

  lemma VisitIsDrop(g: System, i: nat, chance: Chance)
    requires !g.srv.halted && Slot(g, i) && Readable(g.srv, g.srv.client[i]) && g.srv.wire[g.srv.client[i]] == []
    ensures var h := Next(g, Action.Sweep);
            Enabled(h, Drop(i)) && Next(h, Drop(i)).srv == Visit(g.srv, i, chance)
  {
  }

  lemma VisitIsTake(g: System, i: nat, chance: Chance)
    requires !g.srv.halted && |g.origin| == g.srv.nextId
    requires Slot(g, i) && Readable(g.srv, g.srv.client[i]) && g.srv.wire[g.srv.client[i]] != []
    ensures var h := Next(g, Action.Sweep);
            Enabled(h, Take(i, chance)) && Next(h, Take(i, chance)).srv == Visit(g.srv, i, chance)
  {
    var h := Next(g, Action.Sweep);
    var verdict := Judge(g.srv.table, Assembled(g.srv.wire[g.srv.client[i]], chance.memory));
    var t := TakenFrom(h, i, chance.memory);
    assert t.srv == Received(Swept(g.srv), i, chance.memory);
    assert Judged(t, verdict, chance.delivered).srv == Dispatched(t.srv, verdict, chance.delivered);
  }

  ghost function AfterVisit(g: System, i: nat, chance: Chance): (h: System)
    requires Inv(g) && !g.srv.halted && Connected(g.srv, i) && Readable(g.srv, g.srv.client[i])
    ensures Follows(g, h) && h.srv == Visit(g.srv, i, chance)
  {
    var p := Next(g, Action.Sweep);
    StepFollows(g, Action.Sweep);
    if g.srv.wire[g.srv.client[i]] == [] then
      VisitIsDrop(g, i, chance);
      StepFollows(p, Drop(i));
      FollowsOn(g, p, Next(p, Drop(i)));
      Next(p, Drop(i))
    else
      VisitIsTake(g, i, chance);
      StepFollows(p, Take(i, chance));
      FollowsOn(g, p, Next(p, Take(i, chance)));
      Next(p, Take(i, chance))
  }

  // ----- Rounds

  /** Serving the ready clients from slot `i` on is a run of the machine. */
  ghost function AfterServing(g: System, i: nat, r: Round): (h: System)
    requires Inv(g) && i <= |g.srv.client| && ReadyFrom(g.srv, i, r.ready)
    ensures Follows(g, h) && h.srv == ServeFrom(g.srv, i, r)
    decreases |g.srv.client| - i
  {
    if i == |g.srv.client| || g.srv.halted then
      FollowsSelf(g);
      g
    else if g.srv.client[i] >= 0 && g.srv.client[i] in r.ready then
      ServingTurns(g.srv, i, r);
      var p := AfterAllAnswers(g, r.answers(i));
      var q := AfterVisit(p, i, r.chance(i));
      FollowsOn(g, p, q);
      var h := AfterServing(q, i + 1, r);
      FollowsOn(g, q, h);
      h
    else
      ServingSkips(g.srv, i, r);
      AfterServing(g, i + 1, r)
  }

  ghost function AfterReport(g: System, r: Round): (h: System)
    requires Inv(g) && !g.srv.halted && Reported(g.srv, r)
    ensures Follows(g, h) && h.srv == ReportOf(g.srv, r)
  {
    if g.srv.listener in r.ready then
      var a := Connect(r.accepted);
      StepFollows(g, a);
      AcceptKeepsReady(g.srv, r);
      var h := AfterServing(Next(g, a), 0, r);
      FollowsOn(g, Next(g, a), h);
      h
    else AfterServing(g, 0, r)
  }

  ghost function AfterSelect(g: System, r: Round): (h: System)
    requires Inv(g) && !g.srv.halted && Deliverable(g, r.bytes, r.ends)
    ensures Follows(g, h) && h.srv == Selected(g.srv, r)
  {
    var a := Arrive(r.bytes, r.ends);
    StepFollows(g, a);
    var h := AfterAllAnswers(Next(g, a), r.answers(-1));
    FollowsOn(g, Next(g, a), h);
    h
  }

  /** A round of the loop, in which bytes arrive that clients have written, takes a state of the system to
      another one: a run of the machine in which no client does anything. */
  ghost function AfterRound(g: System, r: Round): (h: System)
    requires Inv(g) && !g.srv.halted && Deliverable(g, r.bytes, r.ends) && Legal(g.srv, r)
    ensures Follows(g, h) && h.srv == RoundOf(g.srv, r)
  {
    var p := AfterSelect(g, r);
    var h := AfterReport(p, r);
    FollowsOn(g, p, h);
    h
  }

  // ----- Whole runs of the loop

  /** What the clients do before a round, and the round. */
  datatype Stage = Stage(clients: seq<Action>, round: Round)

  predicate ByClient(a: Action) {
    a.Send? || a.Receive? || a.Close?
  }

  function Rounds(stages: seq<Stage>): (rounds: seq<Round>)
    ensures |rounds| == |stages|
  {
    if stages == [] then [] else [stages[0].round] + Rounds(stages[1..])
  }

  ghost predicate LegalStage(g: System, stage: Stage, lockStep: bool) {
    && IsRun(g, stage.clients, lockStep) && (forall a <- stage.clients :: ByClient(a))
    && var p := After(g, stage.clients, lockStep);
       Deliverable(p, stage.round.bytes, stage.round.ends) && Legal(p.srv, stage.round)
  }

  lemma {:induction false} ClientsSpareServer(g: System, clients: seq<Action>, lockStep: bool)
    requires IsRun(g, clients, lockStep) && forall a <- clients :: ByClient(a)
    ensures After(g, clients, lockStep).srv == g.srv
    decreases |clients|
  {
    if clients != [] {
      assert clients[0] in clients;
      forall a | a in clients[1..] ensures ByClient(a) {
        assert a in clients;
      }
      ClientsSpareServer(Next(g, clients[0]), clients[1..], lockStep);
    }
  }

  lemma {:induction false} FollowsGood(g: System, h: System, lockStep: bool)
    requires Good(g, lockStep) && Follows(g, h)
    ensures Good(h, lockStep)
  {
    var actions :| IsRun(g, actions, true) && After(g, actions, true) == h;
    if lockStep {
      RunKeeps(g, actions, true);
    }
  }

  lemma {:induction false} AnyRun(g: System, actions: seq<Action>, lockStep: bool)
    requires IsRun(g, actions, true)
    ensures IsRun(g, actions, lockStep) && After(g, actions, lockStep) == After(g, actions, true)
    decreases |actions|
  {
    if actions != [] {
      AnyRun(Next(g, actions[0]), actions[1..], lockStep);
    }
  }

  lemma FollowsReaches(g: System, h: System, lockStep: bool)
    requires Follows(g, h)
    ensures Reaches(g, h, lockStep)
  {
    var actions :| IsRun(g, actions, true) && After(g, actions, true) == h;
    AnyRun(g, actions, lockStep);
  }

  ghost function AfterStage(g: System, stage: Stage, lockStep: bool): (h: System)
    requires Good(g, lockStep) && !g.srv.halted && LegalStage(g, stage, lockStep)
    ensures Good(h, lockStep) && Reaches(g, h, lockStep)
    ensures Legal(g.srv, stage.round) && h.srv == RoundOf(g.srv, stage.round)
  {
    var p := After(g, stage.clients, lockStep);
    RunKeeps(g, stage.clients, lockStep);
    ClientsSpareServer(g, stage.clients, lockStep);
    var h := AfterRound(p, stage.round);
    FollowsGood(p, h, lockStep);
    FollowsReaches(p, h, lockStep);
    assert Reaches(g, p, lockStep);
    ReachesOn(g, p, h, lockStep);
    h
  }

  ghost predicate LegalStages(g: System, stages: seq<Stage>, lockStep: bool)
    requires Good(g, lockStep)
    decreases |stages|
  {
    stages != [] && !g.srv.isShutdown && !g.srv.halted ==>
      LegalStage(g, stages[0], lockStep) && LegalStages(AfterStage(g, stages[0], lockStep), stages[1..], lockStep)
  }

  /** The system when the loop has gone through all stages, or has ended. */
  ghost function Looped(g: System, stages: seq<Stage>, lockStep: bool): (h: System)
    requires Good(g, lockStep) && LegalStages(g, stages, lockStep)
    ensures Good(h, lockStep)
    decreases |stages|
  {
    if stages == [] || g.srv.isShutdown || g.srv.halted then g
    else Looped(AfterStage(g, stages[0], lockStep), stages[1..], lockStep)
  }

  lemma RunOfUnfolds(s: Server, rounds: seq<Round>)
    requires SlotTable(s) && rounds != [] && !s.isShutdown && !s.halted && Legal(s, rounds[0])
    requires LocalServer.LegalRun(RoundOf(s, rounds[0]), rounds[1..])
    ensures LocalServer.LegalRun(s, rounds) && RunOf(s, rounds) == RunOf(RoundOf(s, rounds[0]), rounds[1..])
  {
  }

  lemma {:induction false} LoopIsRun(g: System, stages: seq<Stage>, lockStep: bool)
    requires Good(g, lockStep) && LegalStages(g, stages, lockStep)
    ensures Reaches(g, Looped(g, stages, lockStep), lockStep)
    ensures LocalServer.LegalRun(g.srv, Rounds(stages))
    ensures Looped(g, stages, lockStep).srv == RunOf(g.srv, Rounds(stages))
    decreases |stages|
  {
    if stages == [] || g.srv.isShutdown || g.srv.halted {
      ReachesSelf(g, lockStep);
    } else {
      var h := AfterStage(g, stages[0], lockStep);
      LoopIsRun(h, stages[1..], lockStep);
      RunOfUnfolds(g.srv, Rounds(stages));
      assert Looped(g, stages, lockStep) == Looped(h, stages[1..], lockStep);
      ReachesOn(g, h, Looped(h, stages[1..], lockStep), lockStep);
    }
  }

  /** A server of the given table that starts afresh, and what its clients do. */
  ghost predicate Session(table: Table, listener: int, stages: seq<Stage>, lockStep: bool) {
    listener > 0 && (StartGood(table, listener, lockStep); LegalStages(Start(table, listener), stages, lockStep))
  }

  lemma StartGood(table: Table, listener: int, lockStep: bool)
    requires listener > 0
    ensures Good(Start(table, listener), lockStep)
  {
    ReachesSelf(Start(table, listener), lockStep);
    ReachableGood(Start(table, listener), lockStep);
  }

  /** After all its rounds the loop is where a run of the system leads: every theorem about reachable states is
      one about the loop. */
  ghost function LoopState(table: Table, listener: int, stages: seq<Stage>, lockStep: bool): (h: System)
    requires Session(table, listener, stages, lockStep)
    ensures Reachable(h, lockStep) && SlotTable(Initial(table, listener))
    ensures LocalServer.LegalRun(Initial(table, listener), Rounds(stages))
    ensures h.srv == RunOf(Initial(table, listener), Rounds(stages))
  {
    StartGood(table, listener, lockStep);
    LoopIsRun(Start(table, listener), stages, lockStep);
    Looped(Start(table, listener), stages, lockStep)
  }

  /** Over all its rounds, the loop dispatches for each connection a prefix, in order and byte for byte, of
      what the client sent, in whatever pieces it arrived, except for a last message that was cut off. */
  lemma LoopDispatchesInOrder(table: Table, listener: int, stages: seq<Stage>, lockStep: bool, c: nat)
    requires Session(table, listener, stages, lockStep) && c < |LoopState(table, listener, stages, lockStep).conns|
    ensures var h := LoopState(table, listener, stages, lockStep);
            var n := h.conns[c];
            var log := RunOf(Initial(table, listener), Rounds(stages)).log;
            && |log| <= |h.origin| && n.dispatched == MessagesOf(log, h.origin, c)
            && WholePart(n) <= Images(n.sent) && (!n.torn ==> n.dispatched <= Images(n.sent))
            && (n.torn ==> n.cut) && (!n.open && !n.cut ==> n.dispatched == Images(n.sent))
  {
    DispatchedInOrder(LoopState(table, listener, stages, lockStep), lockStep, c);
  }

  /** Over all its rounds, each request the loop received is in its list or has been freed, exactly once. */
  lemma LoopOwnsOrFreed(table: Table, listener: int, stages: seq<Stage>, lockStep: bool, id: nat)
    requires Session(table, listener, stages, lockStep)
    ensures var h := LoopState(table, listener, stages, lockStep);
            var s := RunOf(Initial(table, listener), Rounds(stages));
            h.srv == s && multiset(Ids(s.list))[id] + multiset(s.freed)[id] == if id < s.nextId then 1 else 0
  {
    OwnedOrFreedOnce(LoopState(table, listener, stages, lockStep), lockStep, id);
  }

  /** Over all its rounds with clients in lock-step, no two busy requests share a descriptor, and each belongs
      to a client that is connected through it and waits. */
  lemma LoopKeepsClientsApart(table: Table, listener: int, stages: seq<Stage>, b: Binding)
    requires Session(table, listener, stages, true)
    ensures var h := LoopState(table, listener, stages, true);
            var list := RunOf(Initial(table, listener), Rounds(stages)).list;
            b in list && b.busy ==>
              && (forall a :: a in list && a.busy && a.fd == b.fd ==> a == b)
              && b.fd in h.at && h.at[b.fd] < |h.conns| && h.conns[h.at[b.fd]].open && h.conns[h.at[b.fd]].waiting
  {
    var h := LoopState(table, listener, stages, true);
    if b in h.srv.list && b.busy {
      BusyBelongsToItsClient(h, b);
    }
  }

  // ----- The loop can always go on

  /** The round in which everything a client has written arrives and nobody else does anything. */
  ghost function ReadingRound(fd: int, bytes: seq<byte>, chance: Chance): Round {
    Round(if bytes == [] then map[] else map[fd := bytes], {}, {fd}, 0, (i: int) => {}, (i: int) => chance)
  }

  lemma {:induction false} NoAnswers(list: seq<Binding>)
    ensures Answered(list, {}) == list
  {
    if list != [] {
      NoAnswers(list[1..]);
    }
  }

  /** If one client only is ready, a scan is one visit. */
  lemma {:induction false} ServingOne(s: Server, i: nat, j: nat, r: Round)
    requires SlotTable(s) && j <= i < |s.client| && s.client[i] >= 0 && r.ready == {s.client[i]}
    requires ReadyFrom(s, j, r.ready) && r.answers(i) == {} && !s.halted
    ensures Connected(s, i) && Readable(s, s.client[i]) && ServeFrom(s, j, r) == Visit(s, i, r.chance(i))
    decreases i - j
  {
    if j < i {
      ServingSkips(s, j, r);
      ServingOne(s, i, j + 1, r);
    } else {
      NoAnswers(s.list);
      ServingTurns(s, i, r);
      ServingOnly(s, i, r);
    }
  }

  lemma ServingOnly(s: Server, i: nat, r: Round)
    requires SlotTable(s) && Connected(s, i) && Readable(s, s.client[i]) && r.ready == {s.client[i]}
    requires SlotTable(Visit(s, i, r.chance(i))) && ReadyFrom(Visit(s, i, r.chance(i)), i + 1, r.ready)
    ensures i + 1 <= |Visit(s, i, r.chance(i)).client|
    ensures ServeFrom(Visit(s, i, r.chance(i)), i + 1, r) == Visit(s, i, r.chance(i))
  {
    var t := Visit(s, i, r.chance(i));
    VisitKeepsWire(s, i, r.chance(i), s.listener);
    NobodyElse(s.client, t.client, i, i + 1);
    NothingLeft(t, i + 1, r);
  }

  lemma {:induction false} NobodyElse(client: seq<int>, later: seq<int>, i: nat, j: nat)
    requires i < j <= |client| == |later| && client[i] >= 0
    requires forall k :: 0 <= k < |client| && k != i ==> later[k] == client[k]
    requires forall k, l :: 0 <= k < l < |client| && client[k] >= 0 ==> client[k] != client[l]
    ensures Unvisited(later, j, {client[i]}) == 0
    decreases |client| - j
  {
    if j < |client| {
      NobodyElse(client, later, i, j + 1);
    }
  }

  /** Once all of it has arrived, the next request can be read. */
  lemma NextIsWhole(table: Table, n: Conn, stream: seq<byte>, ended: bool)
    requires Sound(table, n) && Coming(n, stream, ended) && !n.cut && |n.dispatched| < |n.sent|
    ensures var q := n.sent[|n.dispatched|];
            && WholeMessage(stream + n.out) && FirstMessage(stream + n.out) == Image(q) && Headed(table, stream + n.out)
  {
    var d := |n.dispatched|;
    assert n.sent[d..][0] == n.sent[d] && n.sent[d..][1..] == n.sent[d + 1..];
    FirstCut(n.sent[d], Stream(n.sent[d + 1..]));
    assert Addressed(table, Image(n.sent[d]));
  }

  lemma ReadingSelects(s: Server, fd: int, bytes: seq<byte>, chance: Chance)
    requires fd in s.wire
    ensures var t := Selected(s, ReadingRound(fd, bytes, chance));
            t == s.(wire := t.wire) && t.wire.Keys == s.wire.Keys && t.wire[fd] == s.wire[fd] + bytes
  {
    NoAnswers(s.list);
    assert s.ended + {} == s.ended;
    assert s.wire[fd] + [] == s.wire[fd];
  }

  lemma ReadingIsLegal(g: System, i: nat, chance: Chance)
    requires Inv(g) && !g.srv.halted && Slot(g, i)
    requires var n := g.conns[g.at[g.srv.client[i]]]; !n.cut && |n.dispatched| < |n.sent|
    ensures var n := g.conns[g.at[g.srv.client[i]]];
            var r := ReadingRound(n.fd, n.out, chance);
            && Deliverable(g, r.bytes, r.ends) && n.fd == g.srv.client[i] && n.fd in g.srv.wire
            && ReadingIs(g.srv, n.fd, n.out, chance, Image(n.sent[|n.dispatched|]))
            && Legal(g.srv, r)
  {
    var n := g.conns[g.at[g.srv.client[i]]];
    assert ConnOk(g, g.at[g.srv.client[i]]);
    NextIsWhole(g.srv.table, n, g.srv.wire[n.fd], n.fd in g.srv.ended);
    ReadingSelects(g.srv, n.fd, n.out, chance);
    ReadingMayBe(g.srv, i, n.out, chance);
  }

  /** The round finds that message to read. */
  ghost predicate ReadingIs(s: Server, fd: int, bytes: seq<byte>, chance: Chance, message: seq<byte>) {
    var t := Selected(s, ReadingRound(fd, bytes, chance));
    fd in t.wire && |t.wire[fd]| >= HEADER_SIZE && Assembled(t.wire[fd], chance.memory) == message
  }

  lemma ReadingMayBe(s: Server, i: nat, bytes: seq<byte>, chance: Chance)
    requires SlotTable(s) && Connected(s, i) && (s.client[i] in s.ended ==> bytes == [])
    requires WholeMessage(s.wire[s.client[i]] + bytes) && Headed(s.table, s.wire[s.client[i]] + bytes)
    ensures Legal(s, ReadingRound(s.client[i], bytes, chance))
  {
    ReadingSelects(s, s.client[i], bytes, chance);
    assert s.client[i] in Live(s.client);
  }

  lemma ReadingReads(s: Server, i: nat, bytes: seq<byte>, chance: Chance, message: seq<byte>)
    requires SlotTable(s) && Connected(s, i) && !s.halted && Legal(s, ReadingRound(s.client[i], bytes, chance))
    requires ReadingIs(s, s.client[i], bytes, chance, message)
    ensures RoundOf(s, ReadingRound(s.client[i], bytes, chance)).log == s.log + [Dispatch(s.nextId, s.client[i], message)]
  {
    var r := ReadingRound(s.client[i], bytes, chance);
    ReadingSelects(s, s.client[i], bytes, chance);
    SelectKeepsSlots(s, r);
    ServingOne(Selected(s, r), i, 0, r);
    VisitLogs(Selected(s, r), i, chance);
  }

  /** In every state that the system reaches with a request sent and not yet read, there is a legal round of
      the loop that dispatches it. */
  lemma LoopCanRead(g: System, i: nat, lockStep: bool, chance: Chance)
    requires Good(g, lockStep) && !g.srv.halted && Slot(g, i)
    requires var n := g.conns[g.at[g.srv.client[i]]]; !n.cut && |n.dispatched| < |n.sent|
    ensures var n := g.conns[g.at[g.srv.client[i]]];
            exists stage ::
              && LegalStage(g, stage, lockStep) && Legal(g.srv, stage.round)
              && RoundOf(g.srv, stage.round).log ==
                 g.srv.log + [Dispatch(g.srv.nextId, n.fd, Image(n.sent[|n.dispatched|]))]
  {
    var n := g.conns[g.at[g.srv.client[i]]];
    var r := ReadingRound(n.fd, n.out, chance);
    ReadingIsLegal(g, i, chance);
    ReadingReads(g.srv, i, n.out, chance, Image(n.sent[|n.dispatched|]));
    var stage := Stage([], r);
    IdleClients(g, stage, lockStep);
    assert LegalStage(g, stage, lockStep) && Legal(g.srv, stage.round);
  }

  lemma IdleClients(g: System, stage: Stage, lockStep: bool)
    requires stage.clients == [] && Deliverable(g, stage.round.bytes, stage.round.ends) && Legal(g.srv, stage.round)
    ensures LegalStage(g, stage, lockStep)
  {
    assert IsRun(g, [], lockStep) && After(g, [], lockStep) == g;
  }

  lemma VisitLogs(s: Server, i: nat, chance: Chance)
    requires Connected(s, i) && Readable(s, s.client[i]) && s.wire[s.client[i]] != []
    ensures Visit(s, i, chance).log ==
            s.log + [Dispatch(s.nextId, s.client[i], Assembled(s.wire[s.client[i]], chance.memory))]
  {
  }

  /** The round in which a client connects and nobody does anything else. */
  ghost function ConnectingRound(listener: int, fd: int, chance: Chance): Round {
    Round(map[], {}, {listener}, fd, (i: int) => {}, (i: int) => chance)
  }

  lemma {:induction false} AfterNoAnswers(g: System, k: nat)
    requires Inv(g) && !g.srv.halted && k <= |g.srv.list|
    ensures AfterAnswers(g, {}, k) == g
  {
    if k > 0 {
      AfterNoAnswers(g, k - 1);
    }
  }

  lemma {:induction false} AfterServingNobody(g: System, i: nat, r: Round)
    requires Inv(g) && i <= |g.srv.client| && ReadyFrom(g.srv, i, r.ready)
    requires forall j :: i <= j < |g.srv.client| && g.srv.client[j] >= 0 ==> g.srv.client[j] !in r.ready
    ensures AfterServing(g, i, r) == g
    decreases |g.srv.client| - i
  {
    if i < |g.srv.client| && !g.srv.halted {
      ServingSkips(g.srv, i, r);
      AfterServingNobody(g, i + 1, r);
    }
  }

  lemma NothingArrives(g: System)
    requires Inv(g) && !g.srv.halted
    ensures Enabled(g, Arrive(map[], {})) && Next(g, Arrive(map[], {})) == g
  {
    assert Extended(g.srv.wire, map[]) == g.srv.wire && g.srv.ended + {} == g.srv.ended;
    assert forall c :: 0 <= c < |g.conns| ==> Delivered(g.conns[c], map[]) == g.conns[c];
    assert Next(g, Arrive(map[], {})).conns == g.conns;
  }

  lemma ConnectingIsLegal(s: Server, fd: int, chance: Chance)
    requires SlotTable(s) && fd >= 0 && fd != s.listener && fd !in s.wire
    ensures var r := ConnectingRound(s.listener, fd, chance); Legal(s, r) && Selected(s, r) == s
  {
    NoAnswers(s.list);
    assert Extended(s.wire, map[]) == s.wire && s.ended + {} == s.ended;
  }

  lemma ConnectingSelects(g: System, fd: int, chance: Chance)
    requires Inv(g) && !g.srv.halted && fd >= 0 && fd != g.srv.listener && fd !in g.srv.wire
    ensures var r := ConnectingRound(g.srv.listener, fd, chance);
            Deliverable(g, r.bytes, r.ends) && AfterSelect(g, r) == g
  {
    NothingArrives(g);
    AfterNoAnswers(g, |g.srv.list|);
  }

  lemma ConnectingReports(g: System, r: Round)
    requires Inv(g) && !g.srv.halted && Reported(g.srv, r) && r.ready == {g.srv.listener}
    ensures Enabled(g, Connect(r.accepted)) && AfterReport(g, r) == Next(g, Connect(r.accepted))
  {
    var h := Next(g, Connect(r.accepted));
    StepFollows(g, Connect(r.accepted));
    AcceptKeepsReady(g.srv, r);
    forall j | 0 <= j < |h.srv.client| && h.srv.client[j] >= 0 ensures h.srv.client[j] !in r.ready {
      LiveIsConnected(h.srv, j);
    }
    AfterServingNobody(h, 0, r);
  }

  lemma ConnectingConnects(g: System, fd: int, chance: Chance)
    requires Inv(g) && !g.srv.halted && fd >= 0 && fd != g.srv.listener && fd !in g.srv.wire
    ensures var r := ConnectingRound(g.srv.listener, fd, chance);
            && Deliverable(g, r.bytes, r.ends) && Legal(g.srv, r) && Enabled(g, Connect(fd))
            && AfterRound(g, r) == Next(g, Connect(fd))
  {
    ConnectingIsLegal(g.srv, fd, chance);
    ConnectingSelects(g, fd, chance);
    ConnectingReports(g, ConnectingRound(g.srv.listener, fd, chance));
  }

  lemma StageIsRound(g: System, r: Round, lockStep: bool)
    requires Good(g, lockStep) && !g.srv.halted && Deliverable(g, r.bytes, r.ends) && Legal(g.srv, r)
    ensures LegalStage(g, Stage([], r), lockStep) && AfterStage(g, Stage([], r), lockStep) == AfterRound(g, r)
  {
    IdleClients(g, Stage([], r), lockStep);
    assert After(g, [], lockStep) == g;
  }

  /** A new connection, behind a slot and watched. */
  ghost predicate Joined(g: System, h: System, fd: int) {
    && !h.srv.halted && |h.conns| == |g.conns| + 1 && fd in h.at && h.at[fd] == |g.conns|
    && h.conns[|g.conns|] == Conn(fd, [], [], [], 0, false, false, false, false, true)
    && (exists i :: 0 <= i < |h.srv.client| && h.srv.client[i] == fd) && fd in h.srv.watched
  }

  lemma ConnectJoins(g: System, fd: int, j: nat)
    requires Enabled(g, Connect(fd)) && j < |g.srv.client| && g.srv.client[j] < 0
    ensures Joined(g, Next(g, Connect(fd)), fd)
  {
    var i := FirstFree(g.srv.client);
    assert Next(g, Connect(fd)).srv.client[i] == fd;
  }

  /** As long as a slot is free, the loop can accept a client: in every state that the system reaches, a legal
      stage leads to one more connection, open on any descriptor that is not in use. */
  lemma LoopCanAccept(g: System, fd: int, lockStep: bool, j: nat, chance: Chance)
    requires Good(g, lockStep) && !g.srv.halted && fd >= 0 && fd != g.srv.listener && fd !in g.srv.wire
    requires j < |g.srv.client| && g.srv.client[j] < 0
    ensures exists stage :: LegalStage(g, stage, lockStep) && Joined(g, AfterStage(g, stage, lockStep), fd)
  {
    var r := ConnectingRound(g.srv.listener, fd, chance);
    ConnectingConnects(g, fd, chance);
    StageIsRound(g, r, lockStep);
    ConnectJoins(g, fd, j);
  }

  lemma StagesFirst(g: System, stages: seq<Stage>, lockStep: bool)
    requires Good(g, lockStep) && LegalStages(g, stages, lockStep) && stages != [] && !g.srv.isShutdown && !g.srv.halted
    ensures LegalStage(g, stages[0], lockStep)
    ensures var h := AfterStage(g, stages[0], lockStep);
            LegalStages(h, stages[1..], lockStep) && Looped(g, stages, lockStep) == Looped(h, stages[1..], lockStep)
  {
  }

  lemma StagesBehind(g: System, stages: seq<Stage>, k: System, lockStep: bool)
    requires Good(g, lockStep) && !g.srv.isShutdown && !g.srv.halted && stages != [] && LegalStage(g, stages[0], lockStep)
    requires k == AfterStage(g, stages[0], lockStep) && LegalStages(k, stages[1..], lockStep)
    ensures LegalStages(g, stages, lockStep) && Looped(g, stages, lockStep) == Looped(k, stages[1..], lockStep)
  {
  }

  lemma NoStage(g: System, stages: seq<Stage>, lockStep: bool)
    requires Good(g, lockStep) && stages == []
    ensures LegalStages(g, stages, lockStep) && Looped(g, stages, lockStep) == g
  {
  }

  lemma LongerTail<T>(s: seq<T>, more: seq<T>)
    requires |more| == |s| + 1 && more[..|s|] == s
    ensures s == [] ==> more[1..] == []
    ensures s != [] ==> more[0] == s[0] && |more[1..]| == |s[1..]| + 1 && more[1..][..|s[1..]|] == s[1..] &&
                        more[1..][|s[1..]|] == more[|s|]
  {
  }

  /** A loop that has not ended goes on with any further stage that is legal where it stands. */
  lemma {:induction false} LoopGoesOn(g: System, stages: seq<Stage>, h: System, more: seq<Stage>, lockStep: bool)
    requires Good(g, lockStep) && LegalStages(g, stages, lockStep) && h == Looped(g, stages, lockStep)
    requires |more| == |stages| + 1 && more[..|stages|] == stages
    requires !h.srv.isShutdown && !h.srv.halted && LegalStage(h, more[|stages|], lockStep)
    ensures LegalStages(g, more, lockStep)
    ensures Looped(g, more, lockStep) == AfterStage(h, more[|stages|], lockStep)
    decreases |stages|
  {
    LongerTail(stages, more);
    if stages == [] {
      NoStage(g, stages, lockStep);
      NoStage(AfterStage(g, more[0], lockStep), more[1..], lockStep);
      StagesBehind(g, more, AfterStage(g, more[0], lockStep), lockStep);
    } else {
      assert !g.srv.isShutdown && !g.srv.halted;
      StagesFirst(g, stages, lockStep);
      var k := AfterStage(g, stages[0], lockStep);
      LoopGoesOn(k, stages[1..], h, more[1..], lockStep);
      StagesBehind(g, more, k, lockStep);
    }
  }

  /** Wherever a session stands, the loop goes on to read a request that has been sent: `RunOf` over one more
      round dispatches it. */
  lemma LoopReadsOn(table: Table, listener: int, stages: seq<Stage>, lockStep: bool, i: nat, chance: Chance)
    requires Session(table, listener, stages, lockStep)
    requires var h := LoopState(table, listener, stages, lockStep);
             && !h.srv.halted && !h.srv.isShutdown && Slot(h, i)
             && var n := h.conns[h.at[h.srv.client[i]]]; !n.cut && |n.dispatched| < |n.sent|
    ensures var h := LoopState(table, listener, stages, lockStep);
            var n := h.conns[h.at[h.srv.client[i]]];
            exists stage ::
              && Session(table, listener, stages + [stage], lockStep)
              && LoopState(table, listener, stages + [stage], lockStep).srv.log ==
                 h.srv.log + [Dispatch(h.srv.nextId, n.fd, Image(n.sent[|n.dispatched|]))]
  {
    StartGood(table, listener, lockStep);
    var h := LoopState(table, listener, stages, lockStep);
    ReachableGood(h, lockStep);
    LoopCanRead(h, i, lockStep, chance);
    var n := h.conns[h.at[h.srv.client[i]]];
    var stage :| LegalStage(h, stage, lockStep) && Legal(h.srv, stage.round) &&
                 RoundOf(h.srv, stage.round).log ==
                 h.srv.log + [Dispatch(h.srv.nextId, n.fd, Image(n.sent[|n.dispatched|]))];
    LoopGoesOn(Start(table, listener), stages, h, stages + [stage], lockStep);
    assert Session(table, listener, stages + [stage], lockStep);
    assert LoopState(table, listener, stages + [stage], lockStep) == AfterStage(h, stage, lockStep);
  }

  // ----- Bytes that arrive later

  ghost function MoreOn(s: Server, fd: int, more: seq<byte>): Server
    requires fd in s.wire
  {
    s.(wire := s.wire[fd := s.wire[fd] + more])
  }

  lemma DispatchedElsewhere(s: Server, verdict: Verdict, delivered: bool, wire: map<int, seq<byte>>)
    requires s.list != []
    ensures Dispatched(s, verdict, delivered).wire == s.wire
    ensures Dispatched(s.(wire := wire), verdict, delivered) == Dispatched(s, verdict, delivered).(wire := wire)
  {
  }

  lemma TakenIgnoresLaterBytes(s: Server, x: int, memory: nat -> byte, fd: int, more: seq<byte>)
    requires x in s.wire && fd in s.wire && |s.wire[x]| >= HEADER_SIZE && (x == fd ==> WholeMessage(s.wire[x]))
    ensures var later := MoreOn(s, fd, more);
            && |later.wire[x]| >= HEADER_SIZE && fd in Taken(s, x, s.wire[x], memory).wire
            && Assembled(later.wire[x], memory) == Assembled(s.wire[x], memory)
            && Taken(later, x, later.wire[x], memory) == MoreOn(Taken(s, x, s.wire[x], memory), fd, more)
  {
    var stream := s.wire[x];
    var rest := Rest(stream);
    if fd == x {
      DecodePrefix(stream, more);
      LaterBytes(stream, more);
      assert s.wire[fd := stream + more][fd := rest + more] == s.wire[fd := rest][fd := rest + more];
    } else {
      assert s.wire[fd := s.wire[fd] + more][x := rest] == s.wire[x := rest][fd := s.wire[fd] + more];
    }
  }

  /** Bytes that arrive later change nothing about a visit that reads a message. */
  lemma TakeIgnoresLaterBytes(s: Server, i: nat, chance: Chance, fd: int, more: seq<byte>)
    requires Connected(s, i) && Readable(s, s.client[i]) && s.wire[s.client[i]] != [] && fd in s.wire && fd !in s.ended
    ensures var later := MoreOn(s, fd, more);
            && Connected(later, i) && Readable(later, s.client[i])
            && fd in Visit(s, i, chance).wire && Visit(later, i, chance) == MoreOn(Visit(s, i, chance), fd, more)
  {
    var x := s.client[i];
    var later := MoreOn(s, fd, more);
    MoreIsReadable(s, fd, more, x);
    TakenIgnoresLaterBytes(Swept(s), x, chance.memory, fd, more);
    assert Swept(later) == MoreOn(Swept(s), fd, more);
    var r := Received(Swept(s), i, chance.memory);
    DispatchedElsewhere(r, Judge(s.table, Assembled(s.wire[x], chance.memory)), chance.delivered, MoreOn(r, fd, more).wire);
  }

  lemma MoreIsReadable(s: Server, fd: int, more: seq<byte>, x: int)
    requires fd in s.wire && fd !in s.ended && Readable(s, x)
    ensures Readable(MoreOn(s, fd, more), x)
  {
    if x == fd {
      DecodePrefix(s.wire[fd], more);
      LaterBytes(s.wire[fd], more);
    }
  }

  lemma MoreIsReady(s: Server, i: nat, fd: int, more: seq<byte>, ready: set<int>)
    requires SlotTable(s) && ReadyFrom(s, i, ready) && fd in s.wire && fd !in s.ended
    ensures SlotTable(MoreOn(s, fd, more)) && ReadyFrom(MoreOn(s, fd, more), i, ready)
  {
    SameSlots(s, MoreOn(s, fd, more));
    forall j | i <= j < |s.client| && s.client[j] >= 0 && s.client[j] in ready
      ensures Readable(MoreOn(s, fd, more), s.client[j])
    {
      MoreIsReadable(s, fd, more, s.client[j]);
    }
  }

  lemma DropIgnoresLaterBytes(s: Server, i: nat, chance: Chance, fd: int, more: seq<byte>)
    requires Connected(s, i) && Readable(s, s.client[i]) && s.wire[s.client[i]] == [] && fd in s.wire && fd != s.client[i]
    ensures fd in Visit(s, i, chance).wire && Visit(MoreOn(s, fd, more), i, chance) == MoreOn(Visit(s, i, chance), fd, more)
  {
    var x := s.client[i];
    assert s.wire[fd := s.wire[fd] + more] - {x} == (s.wire - {x})[fd := (s.wire - {x})[fd] + more];
  }

  lemma VisitIgnoresLaterBytes(s: Server, i: nat, chance: Chance, fd: int, more: seq<byte>)
    requires Connected(s, i) && Readable(s, s.client[i]) && fd in s.wire && fd !in s.ended
    ensures var later := MoreOn(s, fd, more);
            && Connected(later, i) && Readable(later, s.client[i])
            && fd in Visit(s, i, chance).wire && fd !in Visit(s, i, chance).ended
            && Visit(later, i, chance) == MoreOn(Visit(s, i, chance), fd, more)
  {
    MoreIsReadable(s, fd, more, s.client[i]);
    if s.wire[s.client[i]] == [] {
      DropIgnoresLaterBytes(s, i, chance, fd, more);
    } else {
      TakeIgnoresLaterBytes(s, i, chance, fd, more);
    }
  }

  lemma {:induction false} ServingIgnoresLaterBytes(s: Server, i: nat, r: Round, fd: int, more: seq<byte>)
    requires i <= |s.client| && SlotTable(s) && ReadyFrom(s, i, r.ready) && fd in s.wire && fd !in s.ended
    ensures var later := MoreOn(s, fd, more);
            && SlotTable(later) && ReadyFrom(later, i, r.ready) && fd in ServeFrom(s, i, r).wire
            && ServeFrom(later, i, r) == MoreOn(ServeFrom(s, i, r), fd, more)
    decreases |s.client| - i
  {
    MoreIsReady(s, i, fd, more, r.ready);
    if i < |s.client| && !s.halted {
      if s.client[i] >= 0 && s.client[i] in r.ready {
        var t := AnswerAll(s, r.answers(i));
        ServingTurns(s, i, r);
        ServingTurns(MoreOn(s, fd, more), i, r);
        VisitIgnoresLaterBytes(t, i, r.chance(i), fd, more);
        assert AnswerAll(MoreOn(s, fd, more), r.answers(i)) == MoreOn(t, fd, more);
        ServingIgnoresLaterBytes(Visit(t, i, r.chance(i)), i + 1, r, fd, more);
      } else {
        ServingSkips(s, i, r);
        ServingSkips(MoreOn(s, fd, more), i, r);
        ServingIgnoresLaterBytes(s, i + 1, r, fd, more);
      }
    }
  }

  lemma AcceptIgnoresLaterBytes(s: Server, accepted: int, fd: int, more: seq<byte>)
    requires fd in s.wire && fd !in s.ended && accepted !in s.wire
    ensures fd in Accepted(s, accepted).wire && fd !in Accepted(s, accepted).ended
    ensures Accepted(MoreOn(s, fd, more), accepted) == MoreOn(Accepted(s, accepted), fd, more)
  {
    assert s.wire[fd := s.wire[fd] + more][accepted := []] == s.wire[accepted := []][fd := s.wire[fd] + more];
  }

  lemma ReportIgnoresLaterBytes(s: Server, r: Round, fd: int, more: seq<byte>)
    requires SlotTable(s) && Reported(s, r) && fd in s.wire && fd !in s.ended
    ensures var later := MoreOn(s, fd, more);
            && SlotTable(later) && Reported(later, r) && fd in ReportOf(s, r).wire
            && ReportOf(later, r) == MoreOn(ReportOf(s, r), fd, more)
  {
    SameSlots(s, MoreOn(s, fd, more));
    forall x | x in r.ready && x != s.listener ensures Readable(MoreOn(s, fd, more), x) {
      MoreIsReadable(s, fd, more, x);
    }
    if s.listener in r.ready {
      AcceptKeepsSlots(s, r.accepted);
      AcceptKeepsReady(s, r);
      AcceptIgnoresLaterBytes(s, r.accepted, fd, more);
      ServingIgnoresLaterBytes(Accepted(s, r.accepted), 0, r, fd, more);
    } else {
      ServingIgnoresLaterBytes(s, 0, r, fd, more);
    }
  }

  /** The round in which `more` arrives on `fd` besides. */
  ghost function WithMore(r: Round, fd: int, more: seq<byte>): Round {
    r.(bytes := r.bytes[fd := (if fd in r.bytes then r.bytes[fd] else []) + more])
  }

  /** Whether bytes behind the messages a round reads arrive before its visits, between them or after them
      makes no difference: a read that waits for the rest of a message may be counted with a `select` that
      has waited for it. */
  lemma RoundIgnoresLaterBytes(s: Server, r: Round, fd: int, more: seq<byte>)
    requires SlotTable(s) && Legal(s, r) && fd in s.wire && fd !in s.ended + r.ends
    ensures Legal(s, WithMore(r, fd, more)) && fd in RoundOf(s, r).wire
    ensures RoundOf(s, WithMore(r, fd, more)) == MoreOn(RoundOf(s, r), fd, more)
  {
    SelectKeepsSlots(s, r);
    SelectedIgnoresLaterBytes(s, r, fd, more);
    ReportIgnoresLaterBytes(Selected(s, r), r, fd, more);
    SameReport(MoreOn(Selected(s, r), fd, more), r, WithMore(r, fd, more));
  }

  lemma SelectedIgnoresLaterBytes(s: Server, r: Round, fd: int, more: seq<byte>)
    requires fd in s.wire
    ensures fd in Selected(s, r).wire && Selected(s, WithMore(r, fd, more)) == MoreOn(Selected(s, r), fd, more)
  {
    var early := if fd in r.bytes then r.bytes[fd] else [];
    assert s.wire[fd] + (early + more) == s.wire[fd] + early + more;
    var before, after := Extended(s.wire, r.bytes), Extended(s.wire, WithMore(r, fd, more).bytes);
    assert before[fd] == s.wire[fd] + early && after[fd] == before[fd] + more;
    assert forall x <- s.wire :: x != fd ==> after[x] == before[x];
    assert after == before[fd := before[fd] + more];
  }

  /** What arrived is not looked at again after `select`. */
  lemma SameReport(s: Server, r: Round, q: Round)
    requires SlotTable(s) && Reported(s, r) && q == r.(bytes := q.bytes)
    ensures Reported(s, q) && ReportOf(s, q) == ReportOf(s, r)
  {
    if s.listener in r.ready {
      AcceptKeepsSlots(s, r.accepted);
      AcceptKeepsReady(s, r);
      SameServing(Accepted(s, r.accepted), 0, r, q);
    } else {
      SameServing(s, 0, r, q);
    }
  }

  lemma {:induction false} SameServing(s: Server, i: nat, r: Round, q: Round)
    requires SlotTable(s) && i <= |s.client| && ReadyFrom(s, i, r.ready) && q == r.(bytes := q.bytes)
    ensures ServeFrom(s, i, q) == ServeFrom(s, i, r)
    decreases |s.client| - i
  {
    if i < |s.client| && !s.halted {
      if s.client[i] >= 0 && s.client[i] in r.ready {
        ServingTurns(s, i, r);
        SameServing(Visit(AnswerAll(s, r.answers(i)), i, r.chance(i)), i + 1, r, q);
      } else {
        ServingSkips(s, i, r);
        SameServing(s, i + 1, r, q);
      }
    }
  }
}
