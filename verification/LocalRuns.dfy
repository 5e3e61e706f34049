/** Whole runs of the local server and its clients: with any clients, and with clients in lock-step. */
module LocalRuns {
  import opened Bytes
  import opened Headers
  import opened Framing
  import opened Bindings
  import opened LocalServer
  import opened LocalSystem
  import opened LockStep

  /** In a run in lock-step no client sends again before it has received. */
  ghost predicate IsRun(g: System, actions: seq<Action>, lockStep: bool)
    decreases |actions|
  {
    actions != [] ==>
      Enabled(g, actions[0]) && (lockStep ==> Courteous(g, actions[0])) && IsRun(Next(g, actions[0]), actions[1..], lockStep)
  }

  ghost function After(g: System, actions: seq<Action>, lockStep: bool): System
    requires IsRun(g, actions, lockStep)
    decreases |actions|
  {
    if actions == [] then g else After(Next(g, actions[0]), actions[1..], lockStep)
  }

  ghost predicate Good(g: System, lockStep: bool) {
    Inv(g) && (lockStep ==> InStep(g))
  }

  lemma {:induction false} RunKeeps(g: System, actions: seq<Action>, lockStep: bool)
    requires Good(g, lockStep) && IsRun(g, actions, lockStep)
    ensures Good(After(g, actions, lockStep), lockStep)
    decreases |actions|
  {
    if actions != [] {
      NextKeeps(g, actions[0]);
      if lockStep {
        NextInStep(g, actions[0]);
      }
      RunKeeps(Next(g, actions[0]), actions[1..], lockStep);
    }
  }

  ghost predicate Reaches(g: System, h: System, lockStep: bool) {
    exists actions :: IsRun(g, actions, lockStep) && After(g, actions, lockStep) == h
  }

  /** What some run leads to, or some run in lock-step. */
  ghost predicate Reachable(g: System, lockStep: bool) {
    exists table, listener :: listener > 0 && Reaches(Start(table, listener), g, lockStep)
  }

  lemma ReachableGood(g: System, lockStep: bool)
    requires Reachable(g, lockStep)
    ensures Good(g, lockStep)
  {
    var table, listener :| listener > 0 && Reaches(Start(table, listener), g, lockStep);
    var s := Start(table, listener);
    var actions :| IsRun(s, actions, lockStep) && After(s, actions, lockStep) == g;
    StartInv(table, listener);
    assert InStep(s);
    RunKeeps(s, actions, lockStep);
  }

  lemma RunUnfolds(g: System, a: seq<Action>, lockStep: bool)
    requires a != [] && IsRun(g, a, lockStep)
    ensures Enabled(g, a[0]) && (lockStep ==> Courteous(g, a[0])) && IsRun(Next(g, a[0]), a[1..], lockStep)
    ensures After(g, a, lockStep) == After(Next(g, a[0]), a[1..], lockStep)
  {
  }

  lemma {:induction false} RunAppend(g: System, a: seq<Action>, b: seq<Action>, lockStep: bool)
    requires IsRun(g, a, lockStep) && IsRun(After(g, a, lockStep), b, lockStep)
    ensures IsRun(g, a + b, lockStep) && After(g, a + b, lockStep) == After(After(g, a, lockStep), b, lockStep)
    decreases |a|
  {
    if a == [] {
      assert a + b == b;
    } else {
      assert (a + b)[0] == a[0] && (a + b)[1..] == a[1..] + b;
      RunUnfolds(g, a, lockStep);
      RunAppend(Next(g, a[0]), a[1..], b, lockStep);
    }
  }

  lemma ReachesSelf(g: System, lockStep: bool)
    ensures Reaches(g, g, lockStep)
  {
    assert IsRun(g, [], lockStep) && After(g, [], lockStep) == g;
  }

  lemma ReachesNext(g: System, a: Action, lockStep: bool)
    requires Enabled(g, a) && (lockStep ==> Courteous(g, a))
    ensures Reaches(g, Next(g, a), lockStep)
  {
    var h := Next(g, a);
    assert IsRun(h, [], lockStep) && After(h, [], lockStep) == h;
    assert [a][1..] == [];
    assert IsRun(g, [a], lockStep) && After(g, [a], lockStep) == h;
  }

  lemma ReachesOn(g: System, h: System, k: System, lockStep: bool)
    requires Reaches(g, h, lockStep) && Reaches(h, k, lockStep)
    ensures Reaches(g, k, lockStep)
  {
    var a :| IsRun(g, a, lockStep) && After(g, a, lockStep) == h;
    var b :| IsRun(h, b, lockStep) && After(h, b, lockStep) == k;
    RunAppend(g, a, b, lockStep);
  }

  lemma ReachableOn(g: System, h: System, lockStep: bool)
    requires Reachable(g, lockStep) && Reaches(g, h, lockStep)
    ensures Reachable(h, lockStep)
  {
    var table, listener :| listener > 0 && Reaches(Start(table, listener), g, lockStep);
    ReachesOn(Start(table, listener), g, h, lockStep);
  }

  lemma ReachableNext(g: System, a: Action, lockStep: bool)
    requires Reachable(g, lockStep) && Enabled(g, a) && (lockStep ==> Courteous(g, a))
    ensures Reachable(Next(g, a), lockStep)
  {
    ReachesNext(g, a, lockStep);
    ReachableOn(g, Next(g, a), lockStep);
  }

  lemma ImagesPrefix(qs: seq<Request>, n: nat)
    requires n <= |qs|
    ensures Images(qs[..n]) == Images(qs)[..n]
  {
  }

  /** In every run, pipelined or not, the messages that the log holds for a connection are a prefix, in order
      and byte for byte, of the requests its client sent, except for a last one that the client did not
      finish; without such a cut, they are all of them once the server sees the connection end. */
  lemma DispatchedInOrder(g: System, lockStep: bool, c: nat)
    requires Reachable(g, lockStep) && c < |g.conns|
    ensures var n := g.conns[c];
            && |g.srv.log| <= |g.origin| && n.dispatched == MessagesOf(g.srv.log, g.origin, c)
            && WholePart(n) <= Images(n.sent)
            && (!n.torn ==> n.dispatched <= Images(n.sent))
            && (n.torn ==> n.cut && 0 < |n.dispatched| <= |n.sent| &&
                           Resembles(n.dispatched[|n.dispatched| - 1], n.sent[|n.dispatched| - 1]))
            && (!n.open && !n.cut ==> n.dispatched == Images(n.sent))
  {
    ReachableGood(g, lockStep);
    assert ConnOk(g, c);
    ImagesPrefix(g.conns[c].sent, |WholePart(g.conns[c])|);
    assert g.conns[c].sent[..|g.conns[c].sent|] == g.conns[c].sent;
  }

  /** A request cut off behind its header is dispatched as its client meant it exactly if the memory that
      was allocated for it happens to hold the missing bytes. */
  lemma TornMessageIff(q: Request, k: nat, memory: nat -> byte)
    requires Framed(q) && HEADER_SIZE <= k < |Image(q)|
    ensures Assembled(Image(q)[..k], memory) == Image(q) <==>
            forall j :: k <= j < |Image(q)| ==> memory(j) == Image(q)[j]
  {
    var part := Image(q)[..k];
    assert part <= Image(q) + [];
    FrontOfStream(q, [], part);
    var m := Assembled(part, memory);
    assert m == part + m[k..];
    assert forall j :: k <= j < |m| ==> m[j] == memory(j);
  }

  /** In every run, each request ever received was dispatched under its number, and is in the list or has
      been freed, exactly once. */
  lemma OwnedOrFreedOnce(g: System, lockStep: bool, id: nat)
    requires Reachable(g, lockStep)
    ensures id < g.srv.nextId ==> id < |g.srv.log| && g.srv.log[id].id == id
    ensures multiset(Ids(g.srv.list))[id] + multiset(g.srv.freed)[id] == if id < g.srv.nextId then 1 else 0
  {
    ReachableGood(g, lockStep);
    AccountedOnce(g.srv.list, g.srv.freed, g.srv.nextId, id);
  }

  /** After shutdown and teardown, everything received has been freed, exactly once. */
  lemma AllFreedAtTheEnd(g: System, lockStep: bool, id: nat)
    requires Reachable(g, lockStep) && Enabled(g, Teardown)
    ensures var s := Next(g, Teardown).srv;
            s.list == [] && multiset(s.freed)[id] == if id < s.nextId then 1 else 0
  {
    ReachableGood(g, lockStep);
    SweepKeepsOwned(g.srv);
    LastSweep(g.srv, id);
    assert Next(g, Teardown).srv == Swept(g.srv);
  }

  lemma LastSweep(s: Server, id: nat)
    requires Owned(Swept(s)) && s.isShutdown
    ensures Swept(s).list == [] && multiset(Swept(s).freed)[id] == if id < s.nextId then 1 else 0
  {
    ShutdownSweepsAll(s.list);
    AccountedOnce(Swept(s).list, Swept(s).freed, s.nextId, id);
  }

  /** In every run, while the server is not shutting down, a request is freed only after it was answered
      or its client had gone. */
  lemma NothingFreedEarly(g: System, lockStep: bool, id: nat)
    requires Reachable(g, lockStep) && !g.srv.isShutdown && id in g.srv.freed
    ensures id < |g.origin| && g.origin[id] < |g.conns| && (id in g.answered || !g.conns[g.origin[id]].open)
  {
    ReachableGood(g, lockStep);
    assert Settled(g, id) || id in g.lost;
    assert g.lost == {} && g.stops == {};
  }

  /** In every run in lock-step, a busy request belongs to the connection now behind its descriptor: after a
      disconnect no busy request is left for a later client that is given the same descriptor. */
  lemma BusyBelongsToItsClient(g: System, b: Binding)
    requires Reachable(g, true) && b in g.srv.list && b.busy
    ensures b.fd in g.at && b.id < |g.origin| && g.at[b.fd] == g.origin[b.id] < |g.conns|
    ensures g.conns[g.at[b.fd]].open && g.conns[g.at[b.fd]].waiting
    ensures forall a :: a in g.srv.list && a.busy && a.fd == b.fd ==> a == b
  {
    ReachableGood(g, true);
    assert RequestOk(g, b) && ConnOk(g, g.origin[b.id]);
    forall a | a in g.srv.list && a.busy && a.fd == b.fd ensures a == b {
      BusyIsUnique(g, a, b);
    }
  }
}
