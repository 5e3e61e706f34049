/** What a round of the select loop does, told by the fields of the server before and after it. */
module LocalRounds {
  import opened Bytes
  import opened Headers
  import opened Transfer
  import opened Bindings
  import opened ServiceTable
  import opened LocalServer

  /** The messages dispatched for a descriptor. */
  function MessagesOn(log: seq<Dispatch>, fd: int): seq<seq<byte>> {
    if log == [] then []
    else MessagesOn(log[..|log| - 1], fd) + if log[|log| - 1].fd == fd then [log[|log| - 1].message] else []
  }

  lemma MessagesSnoc(log: seq<Dispatch>, d: Dispatch, fd: int)
    ensures MessagesOn(log + [d], fd) == MessagesOn(log, fd) + if d.fd == fd then [d.message] else []
  {
    assert (log + [d])[..|log|] == log;
  }

  // ----- One visit

  /** A visit to a client whose stream is not at its end: what was answered is freed, and one message is read,
      enters the list and is dispatched. */
  lemma VisitReads(s: Server, i: nat, chance: Chance)
    requires Connected(s, i) && Readable(s, s.client[i]) && s.wire[s.client[i]] != []
    ensures var fd := s.client[i];
            var message := Assembled(s.wire[fd], chance.memory);
            var t := Visit(s, i, chance);
            && t.log == s.log + [Dispatch(s.nextId, fd, message)] && t.nextId == s.nextId + 1
            && t.wire == s.wire[fd := s.wire[fd][Min(|message|, |s.wire[fd]|)..]] && t.ended == s.ended
            && t.list == [Binding(s.nextId, fd, !GivesUp(s.table, message, chance.delivered))] + Kept(s.list, s.isShutdown)
            && t.freed == s.freed + Dropped(s.list, s.isShutdown)
            && t.client == s.client && t.watched == s.watched && t.table == s.table && t.listener == s.listener
            && (t.halted <==> s.halted || Refused(s.table, message))
            && (t.isShutdown <==> s.isShutdown || Stops(message))
  {
  }

  /** A visit to a client that has gone: slot, descriptor and busy flag are given up, and what was answered
      is freed. */
  lemma VisitDrops(s: Server, i: nat, chance: Chance)
    requires Connected(s, i) && Readable(s, s.client[i]) && s.wire[s.client[i]] == []
    ensures var fd := s.client[i];
            var t := Visit(s, i, chance);
            && t.client == s.client[i := -1] && t.watched == s.watched - {fd} && t.wire == s.wire - {fd}
            && t.ended == s.ended - {fd} && t.list == Unmarked(Kept(s.list, s.isShutdown), fd)
            && t.freed == s.freed + Dropped(s.list, s.isShutdown)
            && t.log == s.log && t.nextId == s.nextId && t.table == s.table && t.listener == s.listener
            && t.halted == s.halted && t.isShutdown == s.isShutdown
  {
  }

  // ----- One scan

  /** The same bytes to read, the same messages dispatched, and watched as before. */
  ghost predicate Untouched(s: Server, t: Server, fd: int) {
    && (fd in t.wire <==> fd in s.wire) && (fd in s.wire ==> t.wire[fd] == s.wire[fd])
    && MessagesOn(t.log, fd) == MessagesOn(s.log, fd) && (fd in t.watched <==> fd in s.watched)
  }

  lemma VisitSpares(s: Server, i: nat, chance: Chance, fd: int)
    requires Connected(s, i) && Readable(s, s.client[i]) && fd != s.client[i]
    ensures Untouched(s, Visit(s, i, chance), fd)
  {
    if s.wire[s.client[i]] == [] {
      VisitDrops(s, i, chance);
    } else {
      VisitReads(s, i, chance);
      MessagesSnoc(s.log, Dispatch(s.nextId, s.client[i], Assembled(s.wire[s.client[i]], chance.memory)), fd);
    }
  }

  /** Answers and a visit, as they follow each other in a scan. */
  lemma ServingTurns(s: Server, i: nat, r: Round)
    requires SlotTable(s) && i < |s.client| && s.client[i] >= 0 && ReadyFrom(s, i, r.ready)
    requires !s.halted && s.client[i] in r.ready
    ensures var a := AnswerAll(s, r.answers(i));
            && Connected(a, i) && Readable(a, a.client[i]) && a.wire == s.wire && a.log == s.log && a.client == s.client
            && var t := Visit(a, i, r.chance(i));
               && SlotTable(t) && ReadyFrom(t, i + 1, r.ready) && |t.client| == |s.client| && t.table == s.table
               && (forall j :: 0 <= j < |s.client| && j != i ==> t.client[j] == s.client[j])
               && ServeFrom(s, i, r) == ServeFrom(t, i + 1, r)
  {
    var a := AnswerAll(s, r.answers(i));
    AnswersKeepSlots(s, r.answers(i), i, r.ready);
    LiveIsConnected(a, i);
    VisitKeepsSlots(a, i, r.chance(i));
    VisitKeepsReady(a, i, r.chance(i), r.ready);
    VisitKeepsWire(a, i, r.chance(i), s.listener);
  }

  lemma ServingSkips(s: Server, i: nat, r: Round)
    requires SlotTable(s) && i < |s.client| && ReadyFrom(s, i, r.ready)
    requires !s.halted && !(s.client[i] >= 0 && s.client[i] in r.ready)
    ensures ReadyFrom(s, i + 1, r.ready) && ServeFrom(s, i, r) == ServeFrom(s, i + 1, r)
  {
  }

  lemma UntouchedOn(s: Server, t: Server, u: Server, fd: int)
    requires Untouched(s, t, fd) && Untouched(t, u, fd)
    ensures Untouched(s, u, fd)
  {
  }

  /** A scan does not touch what the slots it visits do not hold. */
  lemma {:induction false} ServingSpares(s: Server, i: nat, r: Round, fd: int)
    requires SlotTable(s) && i <= |s.client| && ReadyFrom(s, i, r.ready)
    requires forall j :: i <= j < |s.client| && s.client[j] in r.ready ==> s.client[j] != fd
    ensures Untouched(s, ServeFrom(s, i, r), fd)
    decreases |s.client| - i
  {
    if i < |s.client| && !s.halted {
      if s.client[i] >= 0 && s.client[i] in r.ready {
        ServingTurns(s, i, r);
        var v := Visit(AnswerAll(s, r.answers(i)), i, r.chance(i));
        TurnSpares(s, i, r, fd);
        ServingSpares(v, i + 1, r, fd);
        UntouchedOn(s, v, ServeFrom(v, i + 1, r), fd);
      } else {
        ServingSkips(s, i, r);
        ServingSpares(s, i + 1, r, fd);
      }
    }
  }

  lemma TurnSpares(s: Server, i: nat, r: Round, fd: int)
    requires SlotTable(s) && i < |s.client| && s.client[i] >= 0 && ReadyFrom(s, i, r.ready)
    requires !s.halted && s.client[i] in r.ready && fd != s.client[i]
    ensures var a := AnswerAll(s, r.answers(i));
            Connected(a, i) && Readable(a, a.client[i]) && Untouched(s, Visit(a, i, r.chance(i)), fd)
  {
    ServingTurns(s, i, r);
    VisitSpares(AnswerAll(s, r.answers(i)), i, r.chance(i), fd);
  }

  /** Nor does it change the slots it has passed and those that are not ready. */
  lemma {:induction false} ServingKeepsSlots(s: Server, i: nat, r: Round)
    requires SlotTable(s) && i <= |s.client| && ReadyFrom(s, i, r.ready)
    ensures |ServeFrom(s, i, r).client| == |s.client|
    ensures forall k :: 0 <= k < |s.client| && (k < i || s.client[k] !in r.ready) ==>
              ServeFrom(s, i, r).client[k] == s.client[k]
    decreases |s.client| - i
  {
    if i < |s.client| && !s.halted {
      if s.client[i] >= 0 && s.client[i] in r.ready {
        ServingTurns(s, i, r);
        ServingKeepsSlots(Visit(AnswerAll(s, r.answers(i)), i, r.chance(i)), i + 1, r);
      } else {
        ServingSkips(s, i, r);
        ServingKeepsSlots(s, i + 1, r);
      }
    }
  }

  /** What a scan makes of the client in slot `i`: if its descriptor is ready, it is served, once. */
  ghost predicate Served(s: Server, t: Server, i: nat, ready: set<int>, memory: nat -> byte)
    requires i < |s.client| == |t.client| && s.client[i] >= 0 && s.client[i] in s.wire
    requires s.client[i] in ready ==> Readable(s, s.client[i])
  {
    var fd := s.client[i];
    if fd !in ready then t.client[i] == fd && Untouched(s, t, fd)
    else if s.wire[fd] == [] then
      t.client[i] == -1 && fd !in t.wire && fd !in t.watched && MessagesOn(t.log, fd) == MessagesOn(s.log, fd)
    else
      var message := Assembled(s.wire[fd], memory);
      && t.client[i] == fd && fd in t.wire && t.wire[fd] == s.wire[fd][Min(|message|, |s.wire[fd]|)..]
      && (fd in t.watched <==> fd in s.watched)
      && MessagesOn(t.log, fd) == MessagesOn(s.log, fd) + [message]
  }

  lemma {:induction false} ServingServes(s: Server, i: nat, r: Round, k: nat)
    requires SlotTable(s) && i <= k < |s.client| && ReadyFrom(s, i, r.ready) && s.client[k] >= 0
    requires !ServeFrom(s, i, r).halted
    ensures |ServeFrom(s, i, r).client| == |s.client| && s.client[k] in s.wire
    ensures Served(s, ServeFrom(s, i, r), k, r.ready, r.chance(k).memory)
    decreases |s.client| - i
  {
    LiveIsConnected(s, k);
    if s.client[k] !in r.ready {
      ServingSpares(s, i, r, s.client[k]);
      ServingKeepsSlots(s, i, r);
    } else if i == k {
      ServingServesOne(s, i, r);
    } else if s.client[i] >= 0 && s.client[i] in r.ready {
      ServingTurns(s, i, r);
      var a := AnswerAll(s, r.answers(i));
      VisitSpares(a, i, r.chance(i), s.client[k]);
      ServingServes(Visit(a, i, r.chance(i)), i + 1, r, k);
    } else {
      ServingSkips(s, i, r);
      ServingServes(s, i + 1, r, k);
    }
  }

  lemma ServingServesOne(s: Server, i: nat, r: Round)
    requires SlotTable(s) && i < |s.client| && ReadyFrom(s, i, r.ready) && s.client[i] >= 0 && s.client[i] in r.ready
    requires !ServeFrom(s, i, r).halted
    ensures |ServeFrom(s, i, r).client| == |s.client| && s.client[i] in s.wire
    ensures Served(s, ServeFrom(s, i, r), i, r.ready, r.chance(i).memory)
  {
    var fd := s.client[i];
    LiveIsConnected(s, i);
    ServingTurns(s, i, r);
    var a := AnswerAll(s, r.answers(i));
    var t := Visit(a, i, r.chance(i));
    if a.wire[fd] == [] {
      VisitDrops(a, i, r.chance(i));
    } else {
      VisitReads(a, i, r.chance(i));
      MessagesSnoc(s.log, Dispatch(s.nextId, fd, Assembled(s.wire[fd], r.chance(i).memory)), fd);
    }
    ServingSpares(t, i + 1, r, fd);
    ServingKeepsSlots(t, i + 1, r);
  }

  // ----- One round

  /** What can be read from a descriptor when `select` returns. */
  function Ahead(s: Server, r: Round, fd: int): seq<byte>
    requires fd in s.wire
  {
    if fd in r.bytes then s.wire[fd] + r.bytes[fd] else s.wire[fd]
  }

  lemma SelectedAhead(s: Server, r: Round)
    ensures var t := Selected(s, r);
            && t.client == s.client && t.watched == s.watched && t.log == s.log && t.table == s.table
            && t.listener == s.listener && t.wire.Keys == s.wire.Keys && t.isShutdown == s.isShutdown && t.halted == s.halted
            && (forall fd <- s.wire :: t.wire[fd] == Ahead(s, r, fd))
            && t.freed == s.freed && t.nextId == s.nextId
  {
  }

  /** If the listener is ready, the new connection takes the first free slot, is watched and has nothing to
      read yet. */
  lemma RoundAccepts(s: Server, r: Round, i: nat)
    requires SlotTable(s) && Legal(s, r) && !s.halted && s.listener in r.ready
    requires i < |s.client| && s.client[i] < 0 && forall j :: 0 <= j < i ==> s.client[j] >= 0
    ensures var t := RoundOf(s, r);
            && i < |t.client| && t.client[i] == r.accepted && r.accepted in t.watched
            && r.accepted in t.wire && t.wire[r.accepted] == [] && r.accepted !in t.ended
  {
    AcceptTakes(s, r, i);
    var a := BeforeScan(s, r);
    ServingSpares(a, 0, r, r.accepted);
    ServingKeepsSlots(a, 0, r);
    ServingSparesEnds(a, 0, r, r.accepted);
  }

  lemma AcceptTakes(s: Server, r: Round, i: nat)
    requires SlotTable(s) && Legal(s, r) && !s.halted && s.listener in r.ready
    requires i < |s.client| && s.client[i] < 0 && forall j :: 0 <= j < i ==> s.client[j] >= 0
    ensures var a := BeforeScan(s, r);
            && i < |a.client| && a.client[i] == r.accepted && r.accepted in a.watched && r.accepted !in r.ready
            && r.accepted in a.wire && a.wire[r.accepted] == [] && r.accepted !in a.ended
  {
    SelectedAhead(s, r);
    SelectKeepsSlots(s, r);
    assert FirstFree(s.client) == i;
    assert r.accepted !in s.watched;
  }

  lemma {:induction false} ServingSparesEnds(s: Server, i: nat, r: Round, fd: int)
    requires SlotTable(s) && i <= |s.client| && ReadyFrom(s, i, r.ready) && fd !in s.ended
    ensures fd !in ServeFrom(s, i, r).ended
    decreases |s.client| - i
  {
    if i < |s.client| && !s.halted {
      if s.client[i] >= 0 && s.client[i] in r.ready {
        ServingTurns(s, i, r);
        var a := AnswerAll(s, r.answers(i));
        if a.wire[a.client[i]] == [] {
          VisitDrops(a, i, r.chance(i));
        } else {
          VisitReads(a, i, r.chance(i));
        }
        ServingSparesEnds(Visit(a, i, r.chance(i)), i + 1, r, fd);
      } else {
        ServingSkips(s, i, r);
        ServingSparesEnds(s, i + 1, r, fd);
      }
    }
  }

  /** Without a free slot the connection halts the server, and no client is served. */
  lemma RoundIsFull(s: Server, r: Round)
    requires SlotTable(s) && Legal(s, r) && !s.halted && s.listener in r.ready
    requires forall j :: 0 <= j < |s.client| ==> s.client[j] >= 0
    ensures RoundOf(s, r).halted && RoundOf(s, r).log == s.log && RoundOf(s, r).client == s.client
  {
    SelectedAhead(s, r);
    SelectKeepsSlots(s, r);
    AcceptKeepsSlots(Selected(s, r), r.accepted);
    AcceptKeepsReady(Selected(s, r), r);
    assert FirstFree(s.client) == |s.client|;
  }

  /** The server before the scan of a round. */
  ghost function BeforeScan(s: Server, r: Round): (t: Server)
    requires SlotTable(s) && Legal(s, r)
    ensures SlotTable(t) && ReadyFrom(t, 0, r.ready) && RoundOf(s, r) == ServeFrom(t, 0, r)
  {
    SelectedAhead(s, r);
    SelectKeepsSlots(s, r);
    if s.listener in r.ready then
      AcceptKeepsSlots(Selected(s, r), r.accepted);
      AcceptKeepsReady(Selected(s, r), r);
      Accepted(Selected(s, r), r.accepted)
    else Selected(s, r)
  }

  /** In a round that does not halt, each client whose descriptor is ready is served, once: its next message is
      dispatched, or its slot is given up. Nobody else is. */
  lemma RoundServes(s: Server, r: Round, i: nat)
    requires SlotTable(s) && Legal(s, r) && !s.halted && !RoundOf(s, r).halted && i < |s.client| && s.client[i] >= 0
    ensures |RoundOf(s, r).client| == |s.client| && s.client[i] in s.wire
    ensures var fd := s.client[i];
            var stream := Ahead(s, r, fd);
            var t := RoundOf(s, r);
            if fd !in r.ready then
              t.client[i] == fd && fd in t.wire && t.wire[fd] == stream && MessagesOn(t.log, fd) == MessagesOn(s.log, fd)
            else if stream == [] then
              t.client[i] == -1 && fd !in t.wire && fd !in t.watched && MessagesOn(t.log, fd) == MessagesOn(s.log, fd)
            else
              |stream| >= HEADER_SIZE &&
              var message := Assembled(stream, r.chance(i).memory);
              && t.client[i] == fd && fd in t.wire && t.wire[fd] == stream[Min(|message|, |stream|)..]
              && MessagesOn(t.log, fd) == MessagesOn(s.log, fd) + [message]
  {
    LiveIsConnected(s, i);
    ScanFinds(s, r, i);
    ServingServes(BeforeScan(s, r), 0, r, i);
  }

  lemma ScanFinds(s: Server, r: Round, i: nat)
    requires SlotTable(s) && Legal(s, r) && i < |s.client| && s.client[i] >= 0 && s.client[i] in s.wire
    ensures var p := BeforeScan(s, r);
            && |p.client| == |s.client| && p.client[i] == s.client[i] && p.log == s.log
            && s.client[i] in p.wire && p.wire[s.client[i]] == Ahead(s, r, s.client[i])
            && (s.client[i] in r.ready ==> Readable(p, s.client[i]))
  {
    SelectedAhead(s, r);
    if s.listener in r.ready {
      AcceptSpares(Selected(s, r), r.accepted, i);
    }
  }

  lemma AcceptSpares(s: Server, fd: int, i: nat)
    requires i < |s.client| && s.client[i] >= 0 && s.client[i] in s.wire && fd !in s.wire
    ensures var t := Accepted(s, fd);
            && |t.client| == |s.client| && t.client[i] == s.client[i] && t.log == s.log
            && s.client[i] in t.wire && t.wire[s.client[i]] == s.wire[s.client[i]]
  {
  }

  // ----- How a round ends

  ghost predicate SomeRefused(table: Table, log: seq<Dispatch>, n: nat) {
    exists k :: n <= k < |log| && |log[k].message| >= HEADER_SIZE && Refused(table, log[k].message)
  }

  ghost predicate SomeStops(log: seq<Dispatch>, n: nat) {
    exists k :: n <= k < |log| && |log[k].message| >= HEADER_SIZE && Stops(log[k].message)
  }

  lemma {:induction false} ServingEnds(s: Server, i: nat, r: Round)
    requires SlotTable(s) && i <= |s.client| && ReadyFrom(s, i, r.ready) && !s.halted
    ensures var t := ServeFrom(s, i, r);
            && s.log <= t.log
            && (t.halted <==> SomeRefused(s.table, t.log, |s.log|))
            && (t.isShutdown <==> s.isShutdown || SomeStops(t.log, |s.log|))
    decreases |s.client| - i
  {
    if i < |s.client| {
      if s.client[i] >= 0 && s.client[i] in r.ready {
        ServingEndsOne(s, i, r);
      } else {
        ServingSkips(s, i, r);
        ServingEnds(s, i + 1, r);
      }
    }
  }

  lemma {:induction false} ServingEndsOne(s: Server, i: nat, r: Round)
    requires SlotTable(s) && i < |s.client| && ReadyFrom(s, i, r.ready) && !s.halted
    requires s.client[i] >= 0 && s.client[i] in r.ready
    ensures var t := ServeFrom(s, i, r);
            && s.log <= t.log
            && (t.halted <==> SomeRefused(s.table, t.log, |s.log|))
            && (t.isShutdown <==> s.isShutdown || SomeStops(t.log, |s.log|))
    decreases |s.client| - i, 0
  {
    ServingTurns(s, i, r);
    var a := AnswerAll(s, r.answers(i));
    var v := Visit(a, i, r.chance(i));
    VisitEnds(a, i, r.chance(i));
    var t := ServeFrom(v, i + 1, r);
    if v.halted {
      assert t == v;
    } else {
      ServingEnds(v, i + 1, r);
    }
    if |v.log| == |s.log| + 1 {
      EndsAfter(s, v, t, v.log[|s.log|].message);
    }
  }

  lemma VisitEnds(s: Server, i: nat, chance: Chance)
    requires Connected(s, i) && Readable(s, s.client[i]) && !s.halted
    ensures var v := Visit(s, i, chance);
            && v.table == s.table
            && if s.wire[s.client[i]] == [] then v.log == s.log && !v.halted && v.isShutdown == s.isShutdown
               else |v.log| == |s.log| + 1 && s.log <= v.log && |v.log[|s.log|].message| >= HEADER_SIZE &&
                    (v.halted <==> Refused(s.table, v.log[|s.log|].message)) &&
                    (v.isShutdown <==> s.isShutdown || Stops(v.log[|s.log|].message))
  {
    if s.wire[s.client[i]] == [] {
      VisitDrops(s, i, chance);
    } else {
      VisitReads(s, i, chance);
    }
  }

  /** From what one visit does to what a scan does. */
  lemma EndsAfter(s: Server, v: Server, t: Server, message: seq<byte>)
    requires !s.halted && |message| >= HEADER_SIZE
    requires |v.log| == |s.log| + 1 && s.log <= v.log && v.log[|s.log|].message == message
    requires (v.halted <==> Refused(s.table, message)) && (v.isShutdown <==> s.isShutdown || Stops(message))
    requires if v.halted then t == v
             else v.log <= t.log && (t.halted <==> SomeRefused(s.table, t.log, |v.log|)) &&
                  (t.isShutdown <==> v.isShutdown || SomeStops(t.log, |v.log|))
    ensures s.log <= t.log
    ensures t.halted <==> SomeRefused(s.table, t.log, |s.log|)
    ensures t.isShutdown <==> s.isShutdown || SomeStops(t.log, |s.log|)
  {
    assert t.log[|s.log|].message == message;
    OneMore(s.table, t.log, |s.log|);
  }

  lemma OneMore(table: Table, log: seq<Dispatch>, n: nat)
    requires n < |log| && |log[n].message| >= HEADER_SIZE
    ensures SomeRefused(table, log, n) <==> Refused(table, log[n].message) || SomeRefused(table, log, n + 1)
    ensures SomeStops(log, n) <==> Stops(log[n].message) || SomeStops(log, n + 1)
  {
  }

  /** A round halts the server if and only if a client comes for whom there is no slot, or a message it
      dispatches is refused; it raises the shutdown flag if and only if one of them is a shutdown request. */
  lemma RoundEnds(s: Server, r: Round)
    requires SlotTable(s) && Legal(s, r) && !s.halted
    ensures var t := RoundOf(s, r);
            && s.log <= t.log
            && (t.halted <==>
                  (s.listener in r.ready && forall j :: 0 <= j < |s.client| ==> s.client[j] >= 0) ||
                  SomeRefused(s.table, t.log, |s.log|))
            && (t.isShutdown <==> s.isShutdown || SomeStops(t.log, |s.log|))
  {
    SelectedAhead(s, r);
    var p := BeforeScan(s, r);
    if p.halted {
      assert RoundOf(s, r) == p && p.log == s.log;
    } else {
      ServingEnds(p, 0, r);
    }
  }

  // ----- What a round frees

  lemma {:induction false} DroppedIdle(list: seq<Binding>, isShutdown: bool, b: Binding)
    requires b in list && Done(b, isShutdown)
    ensures b.id in Dropped(list, isShutdown)
  {
    if list[0] != b {
      assert list == [list[0]] + list[1..];
      DroppedIdle(list[1..], isShutdown, b);
    }
  }

  lemma VisitFrees(s: Server, i: nat, chance: Chance, id: nat)
    requires Connected(s, i) && Readable(s, s.client[i])
    requires id in s.freed || exists b :: b in s.list && b.id == id && Done(b, s.isShutdown)
    ensures id in Visit(s, i, chance).freed
  {
    if s.wire[s.client[i]] == [] {
      VisitDrops(s, i, chance);
    } else {
      VisitReads(s, i, chance);
    }
    if id !in s.freed {
      var b :| b in s.list && b.id == id && Done(b, s.isShutdown);
      DroppedIdle(s.list, s.isShutdown, b);
    }
  }

  lemma StillDone(list: seq<Binding>, ids: set<nat>, isShutdown: bool, b: Binding)
    requires b in list && (Done(b, isShutdown) || b.id in ids)
    ensures exists a :: a in Answered(list, ids) && a.id == b.id && Done(a, isShutdown)
  {
    var k :| 0 <= k < |list| && list[k] == b;
    assert Answered(list, ids)[k] in Answered(list, ids);
  }

  lemma {:induction false} ServingFrees(s: Server, i: nat, r: Round, id: nat, j: nat)
    requires SlotTable(s) && i <= |s.client| && ReadyFrom(s, i, r.ready) && !s.halted
    requires id in s.freed || ((exists b :: b in s.list && b.id == id && Done(b, s.isShutdown)) &&
                               i <= j < |s.client| && s.client[j] >= 0 && s.client[j] in r.ready)
    ensures id in ServeFrom(s, i, r).freed
    decreases |s.client| - i
  {
    if i < |s.client| {
      if s.client[i] >= 0 && s.client[i] in r.ready {
        ServingTurns(s, i, r);
        var a := AnswerAll(s, r.answers(i));
        if id !in s.freed {
          var b :| b in s.list && b.id == id && Done(b, s.isShutdown);
          StillDone(s.list, r.answers(i), s.isShutdown, b);
        }
        VisitFrees(a, i, r.chance(i), id);
        var v := Visit(a, i, r.chance(i));
        if !v.halted {
          ServingFrees(v, i + 1, r, id, j);
        }
      } else {
        ServingSkips(s, i, r);
        ServingFrees(s, i + 1, r, id, j);
      }
    }
  }

  /** A round in which any client is visited frees every request that was answered before it or while `select`
      waited. */
  lemma RoundFrees(s: Server, r: Round, i: nat, b: Binding)
    requires SlotTable(s) && Legal(s, r) && !s.halted && i < |s.client| && s.client[i] >= 0 && s.client[i] in r.ready
    requires !(s.listener in r.ready && forall j :: 0 <= j < |s.client| ==> s.client[j] >= 0)
    requires b in s.list && (!b.busy || b.id in r.answers(-1))
    ensures b.id in RoundOf(s, r).freed
  {
    SelectedAhead(s, r);
    var p := BeforeScan(s, r);
    assert p.list == Answered(s.list, r.answers(-1));
    StillDone(s.list, r.answers(-1), s.isShutdown, b);
    ServingFrees(p, 0, r, b.id, i);
  }

  // ----- Whole runs of the loop

  /** The loop makes one round after the other until one of them ends it. */
  lemma {:induction false} RunOfSnoc(s: Server, rounds: seq<Round>, r: Round)
    requires SlotTable(s) && LegalRun(s, rounds)
    requires var t := RunOf(s, rounds); !t.isShutdown && !t.halted ==> Legal(t, r)
    ensures LegalRun(s, rounds + [r]) && RunOf(s, []) == s
    ensures var t := RunOf(s, rounds);
            RunOf(s, rounds + [r]) == if t.isShutdown || t.halted then t else RoundOf(t, r)
    decreases |rounds|
  {
    if rounds == [] {
      assert rounds + [r] == [r] && [r][1..] == [];
    } else if !s.isShutdown && !s.halted {
      assert (rounds + [r])[0] == rounds[0] && (rounds + [r])[1..] == rounds[1..] + [r];
      RunOfSnoc(RoundOf(s, rounds[0]), rounds[1..], r);
    }
  }
}
