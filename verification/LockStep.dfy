/** What holds of the system besides when its clients work in lock-step. */
module LockStep {
  import opened Bindings
  import opened ServiceTable
  import opened LocalServer
  import opened LocalSystem

  /** At most one request of a connection is unread, unanswered, or answered and not yet received. */
  ghost predicate LockStepOk(n: Conn) {
    |n.sent| - |n.dispatched| + n.replies <= if n.waiting then 1 else 0
  }

  /** The server has read the request that the client waits for, and not yet answered it. */
  ghost predicate Pending(n: Conn) {
    n.open && n.waiting && |n.sent| == |n.dispatched| && n.replies == 0
  }

  /** No busy request has a newer one of the same descriptor in front of it. */
  ghost predicate NewestFirst(list: seq<Binding>) {
    forall fd :: BusyComesFirst(list, fd)
  }

  ghost predicate BusyFor(g: System, b: Binding, c: nat) {
    b in g.srv.list && b.busy && b.id < |g.origin| && g.origin[b.id] == c
  }

  /** A busy request belongs to a connection that waits for this very answer, and while the server is up,
      each connection that waits for one has a busy request. */
  ghost predicate InStep(g: System) {
    && (forall c :: 0 <= c < |g.conns| ==> LockStepOk(g.conns[c]))
    && (forall b <- g.srv.list :: b.busy ==> Traced(g, b) && Pending(g.conns[g.origin[b.id]]))
    && NewestFirst(g.srv.list)
    && (!g.srv.isShutdown ==> forall c :: 0 <= c < |g.conns| && Pending(g.conns[c]) ==> exists b :: BusyFor(g, b, c))
  }

  /** An action that leaves the list alone and does not change who waits for an answer. */
  ghost predicate Unconcerned(g: System, h: System) {
    && h.srv.list == g.srv.list && h.srv.isShutdown == g.srv.isShutdown && h.origin == g.origin
    && |h.conns| >= |g.conns|
    && forall c :: 0 <= c < |h.conns| ==>
         && LockStepOk(h.conns[c])
         && (Pending(h.conns[c]) <==> c < |g.conns| && Pending(g.conns[c]))
  }

  lemma UnconcernedInStep(g: System, h: System)
    requires InStep(g) && Unconcerned(g, h)
    ensures InStep(h)
  {
    forall c | !h.srv.isShutdown && 0 <= c < |h.conns| && Pending(h.conns[c]) ensures exists b :: BusyFor(h, b, c) {
      var b :| BusyFor(g, b, c);
      assert BusyFor(h, b, c);
    }
  }

  lemma OutsideKeepsStep(g: System, a: Action, c: nat)
    requires Conns(g) && InStep(g) && Enabled(g, a) && Courteous(g, a) && c < |Next(g, a).conns|
    requires a.Connect? || a.Send? || a.Receive? || a.Close? || a.Arrive?
    ensures LockStepOk(Next(g, a).conns[c])
    ensures Pending(Next(g, a).conns[c]) <==> c < |g.conns| && Pending(g.conns[c])
  {
    if c < |g.conns| {
      var n := g.conns[c];
      assert ConnOk(g, c) && LockStepOk(n);
      if a.Arrive? {
        assert Next(g, a).conns[c] == Delivered(n, a.bytes);
      } else {
        assert Next(g, a).conns[c] == n || (!a.Connect? && a.c == c);
      }
    }
  }

  lemma OutsideInStep(g: System, a: Action)
    requires Inv(g) && InStep(g) && Enabled(g, a) && Courteous(g, a)
    requires a.Connect? || a.Send? || a.Receive? || a.Close? || a.Arrive?
    ensures InStep(Next(g, a))
  {
    var h := Next(g, a);
    forall c | 0 <= c < |h.conns|
      ensures LockStepOk(h.conns[c]) && (Pending(h.conns[c]) <==> c < |g.conns| && Pending(g.conns[c]))
    {
      OutsideKeepsStep(g, a, c);
    }
    UnconcernedInStep(g, h);
  }

  /** Two busy requests never belong to the same connection. */
  lemma BusyIsUnique(g: System, a: Binding, b: Binding)
    requires Inv(g) && InStep(g) && a in g.srv.list && b in g.srv.list && a.busy && b.busy
    requires a.fd == b.fd || g.origin[a.id] == g.origin[b.id]
    ensures a == b
  {
    assert RequestOk(g, a) && RequestOk(g, b);
    var j :| 0 <= j < |g.srv.list| && g.srv.list[j] == a;
    var k :| 0 <= k < |g.srv.list| && g.srv.list[k] == b;
    assert BusyComesFirst(g.srv.list, a.fd);
  }

  lemma RepliedKeepsPending(g: System, k: nat)
    requires Inv(g) && InStep(g) && k < |g.srv.list| && g.srv.list[k].busy && Traced(g, g.srv.list[k])
    ensures var h := Replied(g, k);
            forall b <- h.srv.list :: b.busy ==> Traced(h, b) && Pending(h.conns[h.origin[b.id]])
  {
    var h := Replied(g, k);
    var r := g.srv.list[k];
    ReleasedFrom(g.srv.list, k, g.srv.nextId);
    forall b | b in h.srv.list && b.busy ensures Traced(h, b) && Pending(h.conns[h.origin[b.id]]) {
      if g.origin[b.id] == g.origin[r.id] {
        BusyIsUnique(g, b, r);
      }
    }
  }

  lemma RepliedInStep(g: System, k: nat)
    requires Inv(g) && InStep(g) && k < |g.srv.list| && g.srv.list[k].busy && Traced(g, g.srv.list[k])
    ensures InStep(Replied(g, k))
  {
    var h := Replied(g, k);
    var r := g.srv.list[k];
    ReleaseKeepsOrder(g.srv.list, k, g.srv.nextId);
    RepliedKeepsPending(g, k);
    assert LockStepOk(g.conns[g.origin[r.id]]);
    forall c | !h.srv.isShutdown && 0 <= c < |h.conns| && Pending(h.conns[c]) ensures exists b :: BusyFor(h, b, c) {
      var b :| BusyFor(g, b, c);
      StillListed(g.srv.list, k, b);
      assert BusyFor(h, b, c);
    }
  }

  lemma StillListed(list: seq<Binding>, k: nat, b: Binding)
    requires k < |list| && b in list && b != list[k]
    ensures b in Release(list, k)
  {
    var j :| 0 <= j < |list| && list[j] == b;
    assert Release(list, k)[j] == b;
  }

  lemma SweepInStep(g: System)
    requires Inv(g) && InStep(g)
    ensures InStep(Cleared(g))
  {
    var h := Cleared(g);
    SweepKeepsOrder(g.srv.list, g.srv.nextId, g.srv.isShutdown);
    SweepKeeps(g.srv.list, g.srv.isShutdown);
    forall c | !h.srv.isShutdown && 0 <= c < |h.conns| && Pending(h.conns[c]) ensures exists b :: BusyFor(h, b, c) {
      var b :| BusyFor(g, b, c);
      assert BusyFor(h, b, c);
    }
  }

  /** The scan finds the request of a lost connection, if it has one. */
  lemma DropFindsBusy(g: System, i: nat, b: Binding)
    requires Inv(g) && InStep(g) && Enabled(g, Drop(i))
    ensures b in Next(g, Drop(i)).srv.list && b.busy ==> b in g.srv.list && b.fd != g.srv.client[i]
  {
    var fd := g.srv.client[i];
    UnmarkKeepsOrder(g.srv.list, fd, g.srv.nextId);
    UnmarkCleansIff(g.srv.list, fd);
    assert BusyComesFirst(g.srv.list, fd);
  }

  lemma DropSparesOthers(list: seq<Binding>, fd: int, b: Binding)
    requires b in list && b.fd != fd
    ensures b in Unmarked(list, fd)
  {
    if list[0] != b && list[0].fd != fd {
      assert list == [list[0]] + list[1..];
      DropSparesOthers(list[1..], fd, b);
    }
  }

  lemma DropKeepsPending(g: System, i: nat)
    requires Inv(g) && InStep(g) && Enabled(g, Drop(i))
    ensures var h := Next(g, Drop(i));
            forall b <- h.srv.list :: b.busy ==> Traced(h, b) && Pending(h.conns[h.origin[b.id]])
  {
    var h := Next(g, Drop(i));
    DropFacts(g, i);
    forall b | b in h.srv.list && b.busy ensures Traced(h, b) && Pending(h.conns[h.origin[b.id]]) {
      DropFindsBusy(g, i, b);
      assert RequestOk(g, b);
    }
  }

  lemma DropKeepsLockStep(g: System, i: nat)
    requires Inv(g) && InStep(g) && Enabled(g, Drop(i))
    ensures var h := Next(g, Drop(i));
            NewestFirst(h.srv.list) && forall c :: 0 <= c < |h.conns| ==> LockStepOk(h.conns[c])
  {
    UnmarkKeepsOrder(g.srv.list, g.srv.client[i], g.srv.nextId);
  }

  lemma DropKeepsAwaited(g: System, i: nat, c: nat)
    requires Inv(g) && InStep(g) && Enabled(g, Drop(i)) && !g.srv.isShutdown
    requires c < |g.conns| && Pending(Next(g, Drop(i)).conns[c])
    ensures exists b :: BusyFor(Next(g, Drop(i)), b, c)
  {
    DropFacts(g, i);
    var b :| BusyFor(g, b, c);
    assert RequestOk(g, b) && ConnOk(g, c);
    DropSparesOthers(g.srv.list, g.srv.client[i], b);
    assert BusyFor(Next(g, Drop(i)), b, c);
  }

  lemma DropInStep(g: System, i: nat)
    requires Inv(g) && InStep(g) && Enabled(g, Drop(i))
    ensures InStep(Next(g, Drop(i)))
  {
    var h := Next(g, Drop(i));
    DropKeepsLockStep(g, i);
    DropKeepsPending(g, i);
    forall c | !h.srv.isShutdown && 0 <= c < |h.conns| && Pending(h.conns[c]) ensures exists b :: BusyFor(h, b, c) {
      DropKeepsAwaited(g, i, c);
    }
  }

  /** The connection of a new request has no busy request yet. */
  lemma TakeFindsIdle(g: System, i: nat)
    requires Inv(g) && InStep(g) && Slot(g, i) && Readable(g.srv, g.srv.client[i]) && g.srv.wire[g.srv.client[i]] != []
    ensures !BusyOn(g.srv.list, g.srv.client[i])
    ensures var n := g.conns[g.at[g.srv.client[i]]];
            n.open && n.waiting && n.replies == 0 && |n.sent| == |n.dispatched| + 1
  {
    TakeFacts(g, i);
    assert LockStepOk(g.conns[g.at[g.srv.client[i]]]);
    forall b | b in g.srv.list && b.busy ensures b.fd != g.srv.client[i] {
      assert RequestOk(g, b) && ConnOk(g, g.origin[b.id]);
    }
  }

  lemma TakeKeepsPending(g: System, i: nat, chance: Chance)
    requires Inv(g) && InStep(g) && Enabled(g, Take(i, chance))
    ensures var h := TakenFrom(g, i, chance.memory);
            && h.srv.list == [Binding(g.srv.nextId, g.srv.client[i], true)] + g.srv.list
            && (forall b <- h.srv.list :: b.busy ==> Traced(h, b) && Pending(h.conns[h.origin[b.id]]))
  {
    var h := TakenFrom(g, i, chance.memory);
    TakeFindsIdle(g, i);
    forall b | b in g.srv.list && b.busy ensures Traced(h, b) && Pending(h.conns[h.origin[b.id]]) {
      assert RequestOk(g, b) && b.fd != g.srv.client[i];
    }
  }

  lemma TakenInStep(g: System, i: nat, chance: Chance)
    requires Inv(g) && InStep(g) && Enabled(g, Take(i, chance))
    ensures InStep(TakenFrom(g, i, chance.memory))
    ensures var h := TakenFrom(g, i, chance.memory); h.srv.list[0].busy && Traced(h, h.srv.list[0])
  {
    var h := TakenFrom(g, i, chance.memory);
    var entry := Binding(g.srv.nextId, g.srv.client[i], true);
    TakeFindsIdle(g, i);
    TakeKeepsPending(g, i, chance);
    forall fd ensures BusyComesFirst(h.srv.list, fd) {
      BusyTail(entry, g.srv.list, fd);
    }
    forall c | !h.srv.isShutdown && 0 <= c < |h.conns| && Pending(h.conns[c]) ensures exists b :: BusyFor(h, b, c) {
      if c == g.at[g.srv.client[i]] {
        assert BusyFor(h, entry, c);
      } else {
        var b :| BusyFor(g, b, c);
        assert BusyFor(h, b, c);
      }
    }
  }

  lemma StoppedInStep(g: System, h: System)
    requires InStep(g) && g.srv.list != [] && Numbered(g.srv.list, g.srv.nextId)
    requires h.srv.list == Release(g.srv.list, 0) && h.srv.isShutdown && h.conns == g.conns && h.origin == g.origin
    ensures InStep(h)
  {
    ReleaseKeepsOrder(g.srv.list, 0, g.srv.nextId);
    ReleasedFrom(g.srv.list, 0, g.srv.nextId);
  }

  lemma JudgedInStep(g: System, verdict: Verdict, delivered: bool)
    requires Inv(g) && InStep(g) && g.srv.list != [] && g.srv.list[0].busy && Traced(g, g.srv.list[0])
    ensures InStep(Judged(g, verdict, delivered))
  {
    var h := Judged(g, verdict, delivered);
    if verdict == Registered && delivered {
      RepliedInStep(g, 0);
    } else if verdict == ShutDown {
      StoppedInStep(g, h);
    } else {
      UnconcernedInStep(g, h);
    }
  }

  lemma NextInStep(g: System, a: Action)
    requires Inv(g) && InStep(g) && Enabled(g, a) && Courteous(g, a)
    ensures InStep(Next(g, a))
  {
    match a
    case Answer(k) => RepliedInStep(g, k);
    case Sweep => SweepInStep(g);
    case Teardown => SweepInStep(g);
    case Drop(i) => DropInStep(g, i);
    case Take(i, chance) =>
      TakenInStep(g, i, chance);
      TakeKeepsConns(g, i, chance.memory);
      TakeKeepsList(g, i, chance);
      TakeKeepsTold(g, i, chance);
      JudgedInStep(TakenFrom(g, i, chance.memory),
                   Judge(g.srv.table, Assembled(g.srv.wire[g.srv.client[i]], chance.memory)), chance.delivered);
    case _ => OutsideInStep(g, a);
  }
}
