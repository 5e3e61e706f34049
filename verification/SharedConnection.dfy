/** Several threads on one access point: `send` locks, `receive` unlocks, and every thread gets the reply
    to its own request. */
module SharedConnection {
  import opened Options
  import opened Bytes
  import opened Headers
  import opened Replies

  /** Between `send` and `receive` a thread holds the lock: first to write, then to wait for the reply. */
  datatype Pc = Idle | Writing | Awaiting

  datatype Reply = Reply(data: seq<byte>, buffer: seq<byte>)

  /** What the caller of `receive` passes: the object to fill, the room for attached data, and which of the
      two forms it calls. */
  datatype Want = Want(reply: seq<byte>, cap: nat, withBuffer: bool)

  datatype Got = Got(thread: nat, request: nat, receipt: Receipt)

  /** One connection; requests are named by serial numbers. */
  datatype World = World(
    registered: set<word>,      // the codes in the client's table
    holder: Option<nat>,
    pc: seq<Pc>,
    asked: seq<nat>,            // the last request of each thread
    wants: seq<Want>,           // what the sender of each request expects
    toServer: set<nat>,         // not yet answered
    answers: map<nat, Reply>,
    stream: seq<byte>,          // reply bytes not yet read
    history: seq<Got>)

  datatype Step =
    | Call(t: nat, asks: Option<word>)  // `send` locks and looks up its code; system requests have none
    | Write(t: nat, want: Want)
    | Serve(request: nat, reply: Reply)
    | Read(t: nat)
    | Register(code: word)              // `add_service` and `delete_service` change the table at any time
    | Forget(code: word)

  function Start(threads: nat, registered: set<word>): World {
    World(registered, None, seq(threads, _ => Idle), seq(threads, _ => 0), [], {}, map[], [], [])
  }

  /** The reply has the size its receiver expects, and it takes the attached data if there is any. */
  ghost predicate Fits(reply: Reply, want: Want) {
    && HEADER_SIZE <= |reply.data| == |want.reply| < WORD_LIMIT && |reply.buffer| < WORD_LIMIT
    && (reply.buffer == [] || (want.withBuffer && |reply.buffer| <= want.cap))
  }

  ghost predicate Sane(w: World, t: nat) {
    t < |w.pc| == |w.asked|
  }

  /** The server answers each request once, with a reply that fits, in any order. */
  ghost predicate Enabled(w: World, a: Step) {
    match a
    case Call(t, asks) => Sane(w, t) && w.pc[t] == Idle && w.holder == None
    case Write(t, want) => Sane(w, t) && w.pc[t] == Writing && HEADER_SIZE <= |want.reply| < WORD_LIMIT
    case Serve(request, reply) => request in w.toServer && request < |w.wants| && Fits(reply, w.wants[request])
    case Read(t) =>
      Sane(w, t) && w.pc[t] == Awaiting && w.asked[t] < |w.wants| &&
      |w.wants[w.asked[t]].reply| >= HEADER_SIZE && w.stream != []
    case Register(_) => true
    case Forget(_) => true
  }

  /** The lookup of `send` fails: it throws, with the lock in hand. */
  predicate Throws(w: World, a: Step) {
    a.Call? && a.asks.Some? && a.asks.value !in w.registered
  }

  ghost function Next(w: World, a: Step): World
    requires Enabled(w, a)
  {
    match a
    case Call(t, asks) =>
      if Throws(w, a) then w.(holder := Some(t)) else w.(holder := Some(t), pc := w.pc[t := Writing])
    case Write(t, want) =>
      w.(pc := w.pc[t := Awaiting], asked := w.asked[t := |w.wants|], wants := w.wants + [want],
         toServer := w.toServer + {|w.wants|})
    case Serve(request, reply) =>
      w.(toServer := w.toServer - {request}, answers := w.answers[request := reply],
         stream := w.stream + ReplyImage(reply.data, reply.buffer))
    case Read(t) =>
      var want := w.wants[w.asked[t]];
      var r := Receives(w.stream, want.reply, want.cap, want.withBuffer);
      var read := w.(stream := r.rest, history := w.history + [Got(t, w.asked[t], r)]);
      if r.outcome == Aborted then read else read.(holder := None, pc := w.pc[t := Idle])
    case Register(code) => w.(registered := w.registered + {code})
    case Forget(code) => w.(registered := w.registered - {code})
  }

  ghost predicate Quiet(w: World) {
    w.toServer == {} && w.stream == []
  }

  /** While a thread waits, its request is on the way to the server or its reply on the way back. */
  ghost predicate Underway(w: World, t: nat) {
    Sane(w, t) && w.asked[t] < |w.wants| && HEADER_SIZE <= |w.wants[w.asked[t]].reply| < WORD_LIMIT &&
    if w.toServer != {} then w.toServer == {w.asked[t]} && w.stream == [] && w.asked[t] !in w.answers
    else w.asked[t] in w.answers && Fits(w.answers[w.asked[t]], w.wants[w.asked[t]]) &&
         w.stream == ReplyImage(w.answers[w.asked[t]].data, w.answers[w.asked[t]].buffer)
  }

  ghost predicate Inv(w: World) {
    && |w.pc| == |w.asked|
    && (forall r <- w.answers :: r < |w.wants|)
    && match w.holder
       case None => Quiet(w) && forall u :: 0 <= u < |w.pc| ==> w.pc[u] == Idle
       case Some(t) =>
         && t < |w.pc| && (forall u :: 0 <= u < |w.pc| && u != t ==> w.pc[u] == Idle)
         && (if w.pc[t] == Awaiting then Underway(w, t) else Quiet(w))
  }

  lemma ServeKeeps(w: World, request: nat, reply: Reply)
    requires Inv(w) && Enabled(w, Serve(request, reply))
    ensures Inv(Next(w, Serve(request, reply)))
  {
    var v := Next(w, Serve(request, reply));
    assert v.stream == ReplyImage(reply.data, reply.buffer);
  }

  lemma ReplyIsOwn(reply: Reply, want: Want)
    requires Fits(reply, want)
    ensures var r := Receives(ReplyImage(reply.data, reply.buffer), want.reply, want.cap, want.withBuffer);
            && r.outcome == Ok && r.body == Sized(reply.data, |reply.buffer|) && r.extra == reply.buffer && r.rest == []
  {
    assert ReplyImage(reply.data, reply.buffer) + [] == ReplyImage(reply.data, reply.buffer);
    if want.withBuffer {
      ReceiveRoundTripIff(reply.data, reply.buffer, [], want.reply, want.cap);
    } else {
      ReceiveWithoutBufferIff(reply.data, reply.buffer, [], want.reply);
    }
  }

  lemma ReadKeeps(w: World, t: nat)
    requires Inv(w) && Enabled(w, Read(t))
    ensures Inv(Next(w, Read(t)))
  {
    ReplyIsOwn(w.answers[w.asked[t]], w.wants[w.asked[t]]);
  }

  lemma NextKeeps(w: World, a: Step)
    requires Inv(w) && Enabled(w, a)
    ensures Inv(Next(w, a))
  {
    match a
    case Serve(request, reply) => ServeKeeps(w, request, reply);
    case Read(t) => ReadKeeps(w, t);
    case _ =>
  }

  ghost predicate LegalRun(w: World, steps: seq<Step>)
    decreases |steps|
  {
    steps != [] ==> Enabled(w, steps[0]) && LegalRun(Next(w, steps[0]), steps[1..])
  }

  ghost function Run(w: World, steps: seq<Step>): World
    requires LegalRun(w, steps)
    decreases |steps|
  {
    if steps == [] then w else Run(Next(w, steps[0]), steps[1..])
  }

  /** Some `send` of the run asked for a code that was not registered. */
  ghost predicate AskedUnregistered(w: World, steps: seq<Step>)
    requires LegalRun(w, steps)
    decreases |steps|
  {
    steps != [] && (Throws(w, steps[0]) || AskedUnregistered(Next(w, steps[0]), steps[1..]))
  }

  /** A thread that has left `send` by the exception has taken the lock with it. */
  ghost predicate LockLost(w: World) {
    w.holder.Some? && w.holder.value < |w.pc| && w.pc[w.holder.value] == Idle
  }

  lemma LossStep(w: World, a: Step)
    requires Inv(w) && Enabled(w, a)
    ensures LockLost(Next(w, a)) <==> LockLost(w) || Throws(w, a)
  {
    if a.Read? {
      ReplyIsOwn(w.answers[w.asked[a.t]], w.wants[w.asked[a.t]]);
    }
  }

  lemma {:induction false} RunKeeps(w: World, steps: seq<Step>)
    requires Inv(w) && LegalRun(w, steps)
    ensures Inv(Run(w, steps)) && |Run(w, steps).pc| == |w.pc|
    ensures LockLost(Run(w, steps)) <==> LockLost(w) || AskedUnregistered(w, steps)
    decreases |steps|
  {
    if steps != [] {
      NextKeeps(w, steps[0]);
      LossStep(w, steps[0]);
      RunKeeps(Next(w, steps[0]), steps[1..]);
    }
  }

  // ----- Pairing, over the steps of a run

  /** How many requests have been written, and how many receives have been made, in these steps. */
  function Writes(steps: seq<Step>): nat {
    if steps == [] then 0 else Writes(steps[..|steps| - 1]) + if steps[|steps| - 1].Write? then 1 else 0
  }

  function Reads(steps: seq<Step>): nat {
    if steps == [] then 0 else Reads(steps[..|steps| - 1]) + if steps[|steps| - 1].Read? then 1 else 0
  }

  /** Step `i` is the last `send` of thread `t` in these steps. */
  ghost predicate LastSend(steps: seq<Step>, t: nat, i: nat) {
    i < |steps| && steps[i].Write? && steps[i].t == t &&
    forall k :: i < k < |steps| && steps[k].Write? ==> steps[k].t != t
  }

  /** Step `m` is where the server answers the given request. */
  ghost predicate AnsweredAt(steps: seq<Step>, request: nat, reply: Reply, m: nat) {
    m < |steps| && steps[m] == Serve(request, reply)
  }

  ghost predicate IsReply(r: Receipt, reply: Reply) {
    && HEADER_SIZE <= |reply.data| < WORD_LIMIT && |reply.buffer| < WORD_LIMIT
    && r.outcome == Ok && r.body == Sized(reply.data, |reply.buffer|) && r.extra == reply.buffer
  }

  /** What thread `t` received when these were the steps so far: the whole reply that the server gave to the
      last request the same thread had sent. */
  ghost predicate Deserved(steps: seq<Step>, t: nat, g: Got) {
    g.thread == t &&
    exists i: nat, m: nat, reply ::
      LastSend(steps, t, i) && g.request == Writes(steps[..i]) && i < m && AnsweredAt(steps, g.request, reply, m) &&
      IsReply(g.receipt, reply)
  }

  ghost predicate SentAt(w: World, steps: seq<Step>, t: nat, i: nat) {
    LastSend(steps, t, i) && t < |w.asked| && w.asked[t] == Writes(steps[..i])
  }

  /** What the state remembers of the steps that led to it. */
  ghost predicate Remembers(w: World, steps: seq<Step>) {
    && |w.wants| == Writes(steps) && |w.history| == Reads(steps)
    && (forall t :: 0 <= t < |w.pc| && w.pc[t] == Awaiting ==> exists i: nat :: SentAt(w, steps, t, i))
    && (forall r <- w.answers :: exists m: nat :: AnsweredAt(steps, r, w.answers[r], m) && r < Writes(steps[..m]))
    && (forall j :: 0 <= j < |steps| && steps[j].Read? ==>
          Reads(steps[..j]) < |w.history| && Deserved(steps[..j], steps[j].t, w.history[Reads(steps[..j])]))
  }

  /** A reply comes after its request. */
  lemma {:induction false} WritesGrow(steps: seq<Step>, i: nat, j: nat)
    requires i <= j <= |steps|
    ensures Writes(steps[..i]) <= Writes(steps[..j])
    decreases j
  {
    if i < j {
      WritesGrow(steps, i, j - 1);
      assert steps[..j][..j - 1] == steps[..j - 1];
    }
  }

  lemma StillSent(w: World, v: World, steps: seq<Step>, a: Step, t: nat)
    requires t < |w.pc| == |w.asked| == |v.asked| && v.asked[t] == w.asked[t] && !(a.Write? && a.t == t)
    requires exists i: nat :: SentAt(w, steps, t, i)
    ensures exists i: nat :: SentAt(v, steps + [a], t, i)
  {
    var i: nat :| SentAt(w, steps, t, i);
    assert (steps + [a])[..i] == steps[..i];
    assert SentAt(v, steps + [a], t, i);
  }

  lemma SentNow(w: World, steps: seq<Step>, t: nat, want: Want)
    requires Inv(w) && Enabled(w, Write(t, want)) && |w.wants| == Writes(steps)
    ensures SentAt(Next(w, Write(t, want)), steps + [Write(t, want)], t, |steps|)
  {
    assert (steps + [Write(t, want)])[..|steps|] == steps;
  }

  lemma RemembersSends(w: World, steps: seq<Step>, a: Step, t: nat)
    requires Inv(w) && Remembers(w, steps) && Enabled(w, a)
    requires t < |Next(w, a).pc| && Next(w, a).pc[t] == Awaiting
    ensures exists i: nat :: SentAt(Next(w, a), steps + [a], t, i)
  {
    if a.Write? && a.t == t {
      SentNow(w, steps, t, a.want);
    } else {
      StillSent(w, Next(w, a), steps, a, t);
    }
  }

  lemma RemembersAnswers(w: World, steps: seq<Step>, a: Step, r: nat)
    requires Inv(w) && Remembers(w, steps) && Enabled(w, a) && r in Next(w, a).answers
    ensures exists m: nat :: AnsweredAt(steps + [a], r, Next(w, a).answers[r], m) && r < Writes((steps + [a])[..m])
  {
    var more := steps + [a];
    if a.Serve? && a.request == r {
      assert more[..|steps|] == steps;
      assert AnsweredAt(more, r, Next(w, a).answers[r], |steps|);
    } else {
      var m: nat :| AnsweredAt(steps, r, w.answers[r], m) && r < Writes(steps[..m]);
      assert more[..m] == steps[..m];
      assert AnsweredAt(more, r, Next(w, a).answers[r], m);
    }
  }

  /** A `receive` gets what it deserves. */
  lemma ReadDeserves(w: World, steps: seq<Step>, t: nat)
    requires Inv(w) && Remembers(w, steps) && Enabled(w, Read(t))
    ensures Next(w, Read(t)).history[..|w.history|] == w.history && |Next(w, Read(t)).history| == |w.history| + 1
    ensures Deserved(steps, t, Next(w, Read(t)).history[|w.history|])
  {
    var request := w.asked[t];
    var reply := w.answers[request];
    ReplyIsOwn(reply, w.wants[request]);
    var g := Next(w, Read(t)).history[|w.history|];
    var i: nat :| SentAt(w, steps, t, i);
    var m: nat :| AnsweredAt(steps, request, reply, m) && request < Writes(steps[..m]);
    if m <= i {
      WritesGrow(steps, m, i);
      assert false;
    }
    assert LastSend(steps, t, i) && g.request == Writes(steps[..i]) && AnsweredAt(steps, g.request, reply, m);
    assert IsReply(g.receipt, reply);
  }

  lemma RemembersReceipts(w: World, steps: seq<Step>, a: Step, j: nat)
    requires Inv(w) && Remembers(w, steps) && Enabled(w, a) && j <= |steps| && (steps + [a])[j].Read?
    ensures var more, h := steps + [a], Next(w, a).history;
            Reads(more[..j]) < |h| && Deserved(more[..j], more[j].t, h[Reads(more[..j])])
  {
    assert (steps + [a])[..j] == steps[..j];
    if a.Read? {
      ReadDeserves(w, steps, a.t);
    }
    if j == |steps| {
      assert steps[..j] == steps;
    } else {
      assert (steps + [a])[j] == steps[j];
    }
  }

  lemma RemembersNext(w: World, steps: seq<Step>, a: Step)
    requires Inv(w) && Remembers(w, steps) && Enabled(w, a)
    ensures Remembers(Next(w, a), steps + [a])
  {
    var v, more := Next(w, a), steps + [a];
    assert more[..|more| - 1] == steps;
    forall t | 0 <= t < |v.pc| && v.pc[t] == Awaiting ensures exists i: nat :: SentAt(v, more, t, i) {
      RemembersSends(w, steps, a, t);
    }
    forall r | r in v.answers
      ensures exists m: nat :: AnsweredAt(more, r, v.answers[r], m) && r < Writes(more[..m])
    {
      RemembersAnswers(w, steps, a, r);
    }
    forall j | 0 <= j < |more| && more[j].Read?
      ensures Reads(more[..j]) < |v.history| && Deserved(more[..j], more[j].t, v.history[Reads(more[..j])])
    {
      RemembersReceipts(w, steps, a, j);
    }
    if a.Read? {
      ReadDeserves(w, steps, a.t);
    }
  }

  lemma {:induction false} RunRemembers(w: World, sofar: seq<Step>, steps: seq<Step>)
    requires Inv(w) && Remembers(w, sofar) && LegalRun(w, steps)
    ensures Remembers(Run(w, steps), sofar + steps)
    decreases |steps|
  {
    if steps == [] {
      assert sofar + steps == sofar;
    } else {
      NextKeeps(w, steps[0]);
      RemembersNext(w, sofar, steps[0]);
      RunRemembers(Next(w, steps[0]), sofar + [steps[0]], steps[1..]);
      assert sofar + [steps[0]] + steps[1..] == sofar + steps;
    }
  }

  /** In every interleaving, a `receive` adds one entry to the history, and none is added otherwise: the
      thread that calls it gets the whole reply that the server has given to the last request the same
      thread had sent. */
  lemma EveryReceiveGetsItsReply(threads: nat, registered: set<word>, steps: seq<Step>, j: nat)
    requires LegalRun(Start(threads, registered), steps) && j < |steps| && steps[j].Read?
    ensures var h := Run(Start(threads, registered), steps).history;
            && |h| == Reads(steps) && Reads(steps[..j]) < |h|
            && Deserved(steps[..j], steps[j].t, h[Reads(steps[..j])])
  {
    RunRemembers(Start(threads, registered), [], steps);
    assert [] + steps == steps;
  }

  /** Nobody can do anything with the connection; the table is another matter. */
  ghost predicate Stuck(w: World) {
    forall a :: Enabled(w, a) ==> a.Register? || a.Forget?
  }

  lemma StuckIsLoss(w: World)
    requires Inv(w) && |w.pc| > 0
    ensures Stuck(w) <==> LockLost(w)
  {
    if !LockLost(w) {
      match w.holder
      case None => assert Enabled(w, Call(0, None));
      case Some(t) =>
        if w.pc[t] == Writing {
          assert Enabled(w, Write(t, Want(seq(HEADER_SIZE, _ => 0), 0, false)));
        } else if w.toServer != {} {
          var reply := Reply(seq(|w.wants[w.asked[t]].reply|, _ => 0), []);
          assert Enabled(w, Serve(w.asked[t], reply));
        } else {
          assert Enabled(w, Read(t));
        }
    }
  }

  /** The connection is stuck if and only if some `send` has asked for a service that was not registered: its
      exception left the lock behind. */
  lemma StuckIff(threads: nat, registered: set<word>, steps: seq<Step>)
    requires threads > 0 && LegalRun(Start(threads, registered), steps)
    ensures Stuck(Run(Start(threads, registered), steps)) <==> AskedUnregistered(Start(threads, registered), steps)
  {
    RunKeeps(Start(threads, registered), steps);
    StuckIsLoss(Run(Start(threads, registered), steps));
  }

  /** One such `send`: the code has just been deleted. */
  lemma ForgottenServiceSticks(threads: nat, code: word)
    requires threads > 0
    ensures var steps := [Forget(code), Call(0, Some(code))];
            && LegalRun(Start(threads, {code}), steps) && Stuck(Run(Start(threads, {code}), steps))
  {
    var steps := [Forget(code), Call(0, Some(code))];
    var w := Start(threads, {code});
    var v := Next(w, steps[0]);
    assert steps[1..] == [steps[1]] && steps[1..][1..] == [];
    assert LegalRun(v, steps[1..]) && Throws(v, steps[1]);
    assert AskedUnregistered(v, steps[1..]);
    StuckIff(threads, {code}, steps);
  }

  /** Once `send` has thrown, the lock it kept stops the connection for good: whatever happens next happens to
      the table only, even if the service is registered again. */
  lemma {:induction false} ThrowStopsTheConnection(w: World, steps: seq<Step>)
    requires Inv(w) && LockLost(w) && LegalRun(w, steps)
    ensures forall a <- steps :: a.Register? || a.Forget?
    ensures Run(w, steps) == w.(registered := Run(w, steps).registered)
    decreases |steps|
  {
    if steps != [] {
      StuckIsLoss(w);
      NextKeeps(w, steps[0]);
      LossStep(w, steps[0]);
      ThrowStopsTheConnection(Next(w, steps[0]), steps[1..]);
      assert steps == [steps[0]] + steps[1..];
    }
  }
}
