/** `Local_Reception_Point`: the event loop over a slot table, a watched set and three counters. */
module LocalReceptionPoints {
  import opened Bytes
  import opened Headers
  import opened Transfer
  import opened Framing
  import opened Bindings
  import opened ServiceTable
  import opened SinglyLinkedList
  import opened ReceptionPoints
  import opened LocalServer

  class LocalReceptionPoint {
    const base: ReceptionPoint
    const kernel: Kernel
    const listenDescriptor: int
    const client: array<int>
    const entryMsg: array<byte>
    var allset: set<int>
    var maxi: int
    var maxfd: int
    ghost var log: seq<Dispatch>

    /** The server as a value. */
    ghost function Abs(): Server
      reads this, base, base.table, base.bindingList, kernel, client
    {
      Server(base.Services(), listenDescriptor, client[..], allset, kernel.wire, kernel.ended,
             base.bindingList.contents, base.bindingList.nextId, base.bindingList.freedNodes, log, base.isShutdown, base.halted)
    }

    /** The objects do not overlap and no system call of the schedule fails. */
    ghost predicate Separate()
      reads this, base, base.table, base.bindingList, base.bindingList.Repr, kernel
    {
      && base.Valid()
      && {this, base, base.table, kernel, client, entryMsg} !! base.bindingList.Repr
      && entryMsg.Length == HEADER_SIZE
      && NoFailures(kernel.script)
    }

    /** The invariant at the head of the loop. */
    ghost predicate Valid()
      reads this, base, base.table, base.bindingList, base.bindingList.Repr, kernel, client
    {
      && Separate()
      && SlotTable(Abs())
      && Marks()
    }

    /** The two high-water marks. */
    ghost predicate Marks()
      reads `maxi, `maxfd, `allset, client
    {
      && -1 <= maxi < client.Length
      && (forall j :: maxi < j < client.Length ==> client[j] < 0)
      && (forall fd <- allset :: fd <= maxfd)
    }

    constructor (base: ReceptionPoint, kernel: Kernel, listenDescriptor: int)
      requires base.Valid() && base.bindingList.contents == [] && base.bindingList.freedNodes == []
      requires base.bindingList.nextId == 0 && !base.isShutdown && !base.halted
      requires kernel !in base.bindingList.Repr && base !in base.bindingList.Repr
      requires NoFailures(kernel.script) && kernel.wire == map[] && kernel.ended == {} && listenDescriptor > 0
      ensures Valid() && Abs() == Initial(base.Services(), listenDescriptor)
      ensures this.base == base && this.kernel == kernel
    {
      this.base, this.kernel, this.listenDescriptor := base, kernel, listenDescriptor;
      client := new int[FD_SETSIZE](_ => -1);
      entryMsg := new byte[HEADER_SIZE](_ => 0);
      allset := {listenDescriptor};
      maxi, maxfd := -1, listenDescriptor;
      log := [];
      new;
      assert client[..] == Initial(base.Services(), listenDescriptor).client;
      assert Live(client[..]) == {};
    }

    /** Reads a header, or finds the end of the stream. */
    method ReadHeader(sockfd: int) returns (r: int)
      requires Separate() && sockfd in kernel.wire
      requires kernel.wire[sockfd] == [] || |kernel.wire[sockfd]| >= HEADER_SIZE
      modifies kernel`wire, kernel`script, kernel`errno, entryMsg
      ensures Separate()
      ensures var stream := old(kernel.wire)[sockfd];
              if stream == [] then r == 0 && kernel.wire == old(kernel.wire)
              else r == HEADER_SIZE && sockfd in kernel.wire && stream == entryMsg[..] + kernel.wire[sockfd] &&
                   kernel.wire == old(kernel.wire)[sockfd := kernel.wire[sockfd]]
    {
      ghost var moved, used;
      r, moved, used := Readn(kernel, sockfd, entryMsg, 0, HEADER_SIZE);
      ghost var stream := old(kernel.wire)[sockfd];
      if stream != [] {
        assert moved == HEADER_SIZE == |entryMsg[..]|;
        assert entryMsg[..] == stream[..moved];
        assert stream == stream[..moved] + stream[moved..];
      }
    }

    /** The next `n` bytes of a stream, as far as it goes, follow the `off` bytes of it that the message
        should hold already; the rest of the message stays as it was allocated. */
    method Fill(sockfd: int, message: array<byte>, off: nat, n: nat, ghost stream: seq<byte>, ghost memory: nat -> byte)
      requires Separate() && sockfd in kernel.wire && message !in base.bindingList.Repr + {entryMsg}
      requires off + n <= message.Length && Fills(message[..], stream, memory, off)
      requires kernel.wire[sockfd] == stream[Min(off, |stream|)..]
      modifies kernel`wire, kernel`script, kernel`errno, message
      ensures Separate() && Fills(message[..], stream, memory, off + n)
      ensures kernel.wire == old(kernel.wire)[sockfd := stream[Min(off + n, |stream|)..]]
    {
      ghost var image, left := message[..], kernel.wire[sockfd];
      if n != 0 {
        var r, moved, used := Readn(kernel, sockfd, message, off, n);
        FillsMore(image, stream, memory, off, n, moved);
        assert left[moved..] == stream[Min(off + n, |stream|)..];
      } else {
        assert kernel.wire == kernel.wire[sockfd := left];
      }
    }

    /** Puts a message together: the header already read, then parameters and attached buffer. */
    method ReadBody(sockfd: int, message: array<byte>, ghost stream: seq<byte>, ghost memory: nat -> byte)
      requires Separate() && sockfd in kernel.wire && message !in base.bindingList.Repr + {entryMsg}
      requires stream == entryMsg[..] + kernel.wire[sockfd]
      requires message.Length == MessageSize(stream) && forall j :: 0 <= j < message.Length ==> message[j] == memory(j)
      modifies kernel`wire, kernel`script, kernel`errno, message
      ensures Separate() && message[..] == Assembled(stream, memory)
      ensures kernel.wire == old(kernel.wire)[sockfd := Rest(stream)]
    {
      DecodePrefix(entryMsg[..], kernel.wire[sockfd]);
      var h := DecodeEntry(entryMsg[..]);
      Memcpy(message, 0, entryMsg[..]);
      Fill(sockfd, message, HEADER_SIZE, h.parametersSize, stream, memory);
      Fill(sockfd, message, HEADER_SIZE + h.parametersSize, h.invocationSize, stream, memory);
      FilledIsAssembled(message[..], stream, memory);
    }

    /** The client has closed its end. */
    method Disconnect(i: nat)
      requires Separate() && i < client.Length && Connected(Abs(), i)
      modifies this`allset, kernel, client, base.bindingList.Repr
      ensures old(Marks()) ==> Marks()
      ensures Separate() && base.bindingList.Repr == old(base.bindingList.Repr)
      ensures Abs() == Disconnected(old(Abs()), i)
    {
      var sockfd := client[i];
      kernel.Close(sockfd);
      allset := allset - {sockfd};
      client[i] := -1;
      base.bindingList.Unmark(sockfd);
    }

    /** Memory for a message, and its request at the front of the list. */
    method Enlist(sockfd: int, size: nat, memory: nat -> byte) returns (clientBind: BindingPoint, message: array<byte>)
      requires Separate()
      modifies base.bindingList.Repr
      ensures Separate() && fresh(base.bindingList.Repr - old(base.bindingList.Repr))
      ensures fresh(message) && message !in base.bindingList.Repr + {entryMsg}
      ensures message.Length == size && forall j :: 0 <= j < size ==> message[j] == memory(j)
      ensures base.bindingList.nodes != [] && base.bindingList.nodes[0].bindingPoint == clientBind
      ensures clientBind.id == old(base.bindingList.nextId)
      ensures var s := old(Abs()); Abs() == s.(list := [Binding(s.nextId, sockfd, true)] + s.list, nextId := s.nextId + 1)
    {
      message := new byte[size](j requires 0 <= j => memory(j));
      clientBind := base.bindingList.InsertNext(sockfd, message);
    }

    /** A header has been read: allocate, insert, and read the rest. */
    method TakeMessage(sockfd: int, memory: nat -> byte, ghost stream: seq<byte>)
      returns (clientBind: BindingPoint, message: array<byte>)
      requires Separate() && sockfd in kernel.wire && stream == entryMsg[..] + kernel.wire[sockfd]
      modifies kernel`wire, kernel`script, kernel`errno, base.bindingList.Repr
      ensures Separate() && fresh(base.bindingList.Repr - old(base.bindingList.Repr))
      ensures message[..] == Assembled(stream, memory)
      ensures base.bindingList.nodes != [] && base.bindingList.nodes[0].bindingPoint == clientBind
      ensures clientBind.id == old(base.bindingList.nextId)
      ensures Abs() == Taken(old(Abs()), sockfd, stream, memory).(log := log)
    {
      DecodePrefix(entryMsg[..], kernel.wire[sockfd]);
      var h := DecodeEntry(entryMsg[..]);
      clientBind, message := Enlist(sockfd, HEADER_SIZE + h.parametersSize + h.invocationSize, memory);
      ReadBody(sockfd, message, stream, memory);
    }

    /** The dispatcher on the newest request of the list. */
    method DispatchNewest(clientBind: BindingPoint, message: array<byte>, delivered: bool)
      requires Separate() && Addressed(base.Services(), message[..])
      requires base.bindingList.nodes != [] && base.bindingList.nodes[0].bindingPoint == clientBind
      modifies base, base.bindingList`contents, clientBind
      ensures Separate() && base.bindingList.Repr == old(base.bindingList.Repr)
      ensures Abs() == Dispatched(old(Abs()), Judge(old(Abs()).table, message[..]), delivered)
    {
      assert base.bindingList.Describes(0);
      var verdict := base.Dispatcher(clientBind, message, delivered);
    }

    /** The rest of a visit once a header has been read. */
    method ServeMessage(sockfd: int, chance: Chance, ghost stream: seq<byte>)
      requires Separate() && sockfd in kernel.wire && stream == entryMsg[..] + kernel.wire[sockfd]
      requires Addressed(base.Services(), stream)
      modifies this`log, kernel`wire, kernel`script, kernel`errno, base, base.bindingList.Repr
      ensures Separate() && fresh(base.bindingList.Repr - old(base.bindingList.Repr))
      ensures Abs() == Dispatched(Taken(old(Abs()), sockfd, stream, chance.memory),
                                  Judge(old(Abs()).table, Assembled(stream, chance.memory)), chance.delivered)
    {
      var clientBind, message := TakeMessage(sockfd, chance.memory, stream);
      log := log + [Dispatch(clientBind.id, sockfd, message[..])];
      assert base.bindingList.Describes(0);
      DispatchNewest(clientBind, message, chance.delivered);
    }

    method SweepList()
      requires Separate()
      modifies base.bindingList.Repr
      ensures Separate() && base.bindingList.Repr == old(base.bindingList.Repr) && Abs() == Swept(old(Abs()))
    {
      base.bindingList.Sweep(base.isShutdown);
    }

    /** One visit to a ready client. */
    method ServeSlot(i: nat, chance: Chance) returns (served: bool)
      requires Separate() && Connected(Abs(), i) && Readable(Abs(), client[i])
      modifies this`log, this`allset, kernel, client, entryMsg, base, base.bindingList.Repr
      ensures old(Marks()) ==> Marks()
      ensures Separate() && fresh(base.bindingList.Repr - old(base.bindingList.Repr))
      ensures Abs() == Visit(old(Abs()), i, chance)
      ensures served == (old(kernel.wire)[old(client[i])] != [])
    {
      ghost var s := Abs();
      var sockfd := client[i];
      ghost var stream := kernel.wire[sockfd];
      SweepList();
      var r := ReadHeader(sockfd);
      if r == 0 {
        Disconnect(i);
        served := false;
      } else {
        TakenOverwrites(Swept(s), sockfd, stream, chance.memory, kernel.wire[sockfd]);
        ServeMessage(sockfd, chance, stream);
        served := true;
      }
    }

    method FindFreeSlot() returns (i: nat)
      requires client.Length == FD_SETSIZE
      ensures i == FirstFree(client[..])
    {
      i := 0;
      while i < FD_SETSIZE && client[i] >= 0
        invariant i <= FD_SETSIZE && forall j :: 0 <= j < i ==> client[j] >= 0
      {
        i := i + 1;
      }
      assert forall j :: 0 <= j < i ==> client[..][j] >= 0;
    }

    method TakeSlot(i: nat, connfd: int)
      requires Separate() && Marks() && i < client.Length
      modifies this`allset, this`maxi, this`maxfd, kernel, client
      ensures Separate() && Marks() && base.bindingList.Repr == old(base.bindingList.Repr)
      ensures var s := old(Abs());
              Abs() == s.(client := s.client[i := connfd], watched := s.watched + {connfd},
                          wire := s.wire[connfd := []], ended := s.ended - {connfd})
    {
      client[i] := connfd;
      kernel.Open(connfd);
      allset := allset + {connfd};
      if connfd > maxfd {
        maxfd := connfd;
      }
      if i > maxi {
        maxi := i;
      }
    }

    /** A connection enters the first free slot; without one an assertion fails. */
    method AcceptClient(connfd: int)
      requires Valid() && connfd >= 0 && connfd != listenDescriptor && connfd !in kernel.wire
      modifies this`allset, this`maxi, this`maxfd, kernel, client, base`halted
      ensures Valid() && base.bindingList.Repr == old(base.bindingList.Repr)
      ensures Abs() == Accepted(old(Abs()), connfd)
    {
      AcceptKeepsSlots(Abs(), connfd);
      var i := FindFreeSlot();
      if i == FD_SETSIZE {
        base.halted := true;
      } else {
        TakeSlot(i, connfd);
      }
    }

    /** Other threads answer requests; then the loop visits a ready client. */
    method VisitSlot(i: nat, ids: set<nat>, chance: Chance) returns (served: bool)
      requires Separate() && Marks()
      requires Connected(AnswerAll(Abs(), ids), i) && Readable(AnswerAll(Abs(), ids), client[i])
      modifies this`log, this`allset, kernel, client, entryMsg, base, base.bindingList.Repr
      ensures Separate() && Marks() && fresh(base.bindingList.Repr - old(base.bindingList.Repr))
      ensures Abs() == Visit(AnswerAll(old(Abs()), ids), i, chance)
    {
      base.bindingList.Answer(ids);
      served := ServeSlot(i, chance);
    }

    /** One turn of the scan; it leaves the loop once the last ready descriptor has been served. */
    method ScanSlot(i: nat, ready: int, r: Round, ghost s: Server) returns (nready: int, leave: bool)
      requires Separate() && Marks() && !base.halted && i < client.Length && Scanning(s, Abs(), i, ready, r)
      modifies this`log, this`allset, kernel, client, entryMsg, base, base.bindingList.Repr
      ensures Separate() && Marks() && fresh(base.bindingList.Repr - old(base.bindingList.Repr))
      ensures Scanning(s, Abs(), i + 1, nready, r) && (leave ==> nready <= 0)
    {
      nready, leave := ready, false;
      if client[i] >= 0 && client[i] in r.ready {
        ScanVisit(s, Abs(), i, nready, r);
        var served := VisitSlot(i, r.answers(i), r.chance(i));
        if served {
          nready := nready - 1;
          leave := nready <= 0;
        }
      } else {
        ScanSkip(s, Abs(), i, nready, r);
      }
    }

    /** The scan over the slots serves every ready client once, although it stops at the high-water mark
        and as soon as `nready` says that nobody is waiting any more. */
    method ServeReady(ready: int, r: Round)
      requires Valid() && !base.halted && ReadyFrom(Abs(), 0, r.ready)
      requires ready >= Unvisited(Abs().client, 0, r.ready)
      modifies this`log, this`allset, kernel, client, entryMsg, base, base.bindingList.Repr
      ensures Valid() && fresh(base.bindingList.Repr - old(base.bindingList.Repr))
      ensures Abs() == ServeFrom(old(Abs()), 0, r)
    {
      ghost var s := Abs();
      var nready, i, leave := ready, 0, false;
      while i <= maxi && !base.halted && !leave
        invariant Separate() && Marks() && fresh(base.bindingList.Repr - old(base.bindingList.Repr))
        invariant 0 <= i <= maxi + 1 && Scanning(s, Abs(), i, nready, r) && (leave ==> nready <= 0)
        decreases maxi + 1 - i
      {
        nready, leave := ScanSlot(i, nready, r, s);
        i := i + 1;
      }
      ScanEnds(s, Abs(), i, nready, r);
    }

    /** What happens while `select` waits. */
    method Select(r: Round) returns (nready: nat)
      requires Valid() && Legal(Abs(), r)
      modifies kernel`wire, kernel`ended, base.bindingList.Repr
      ensures Valid() && base.bindingList.Repr == old(base.bindingList.Repr)
      ensures Abs() == Selected(old(Abs()), r) && nready == |r.ready|
    {
      SelectKeepsSlots(Abs(), r);
      kernel.Deliver(r.bytes, r.ends);
      base.bindingList.Answer(r.answers(-1));
      nready := |r.ready|;
    }

    /** The body of the main loop. */
    method ServeRound(r: Round)
      requires Valid() && Legal(Abs(), r) && !base.isShutdown && !base.halted
      modifies this, kernel, client, entryMsg, base, base.bindingList.Repr
      ensures Valid() && fresh(base.bindingList.Repr - old(base.bindingList.Repr))
      ensures Abs() == RoundOf(old(Abs()), r)
    {
      var nready := Select(r);
      ServeReport(nready, r);
    }

    /** The rest of a round after `select` has reported the set `r.ready`. */
    method ServeReport(reported: nat, r: Round)
      requires Valid() && Reported(Abs(), r) && !base.halted && reported == |r.ready|
      modifies this, kernel, client, entryMsg, base, base.bindingList.Repr
      ensures Valid() && fresh(base.bindingList.Repr - old(base.bindingList.Repr))
      ensures Abs() == ReportOf(old(Abs()), r)
    {
      ghost var s := Abs();
      var nready: int := reported;
      if listenDescriptor in r.ready {
        AcceptCovers(s, r);
        AcceptClient(r.accepted);
        nready := nready - 1;
        ScanStarts(Abs(), nready, r);
        if base.halted || nready <= 0 {
          ScanEnds(Abs(), Abs(), 0, nready, r);
          return;
        }
      } else {
        NoAcceptCovers(s, r);
      }
      ServeReady(nready, r);
    }

    /** `deamon_engine` over the rounds the environment presents. */
    method DeamonEngine(rounds: seq<Round>)
      requires Valid() && LegalRun(Abs(), rounds)
      modifies this, kernel, client, entryMsg, base, base.bindingList.Repr
      ensures Separate() && Marks() && fresh(base.bindingList.Repr - old(base.bindingList.Repr))
      ensures var t := RunOf(old(Abs()), rounds);
              Abs() == if t.isShutdown && !t.halted then t.(wire := map[], ended := {}) else t
    {
      ghost var s := Abs();
      var k := 0;
      while k < |rounds| && !base.isShutdown && !base.halted
        invariant Valid() && fresh(base.bindingList.Repr - old(base.bindingList.Repr)) && 0 <= k <= |rounds|
        invariant LegalRun(Abs(), rounds[k..]) && RunOf(Abs(), rounds[k..]) == RunOf(s, rounds)
        decreases |rounds| - k
      {
        assert rounds[k..][0] == rounds[k] && rounds[k..][1..] == rounds[k + 1..];
        ServeRound(rounds[k]);
        k := k + 1;
      }
      if base.isShutdown && !base.halted {
        CloseAll();
      }
    }

    /** Closes the connections of all clients. */
    method CloseAll()
      requires Valid()
      modifies kernel
      ensures Separate() && Marks() && Abs() == old(Abs()).(wire := map[], ended := {})
    {
      ghost var wire := kernel.wire;
      for i := 0 to maxi + 1
        invariant Separate() && Marks()
        invariant kernel.wire.Keys <= wire.Keys && kernel.ended <= kernel.wire.Keys && forall j :: 0 <= j < i ==> client[j] !in kernel.wire
      {
        if client[i] >= 0 {
          kernel.Close(client[i]);
        }
      }
      forall fd | fd in wire ensures fd !in kernel.wire {
        assert fd in Live(client[..]);
        var j :| 0 <= j < client.Length && client[j] == fd && fd >= 0;
      }
      assert kernel.wire.Keys == {};
    }
  }

  /** A message in memory that holds the first `n` bytes of a stream, as far as it goes, and otherwise what
      the memory held. */
  ghost predicate Fills(image: seq<byte>, stream: seq<byte>, memory: nat -> byte, n: nat) {
    n <= |image| && forall j :: 0 <= j < |image| ==> image[j] == if j < n && j < |stream| then stream[j] else memory(j)
  }

  lemma FillsMore(image: seq<byte>, stream: seq<byte>, memory: nat -> byte, off: nat, n: nat, moved: nat)
    requires Fills(image, stream, memory, off) && off + n <= |image|
    requires moved == Min(n, |stream| - Min(off, |stream|))
    ensures Fills(Splice(image, off, stream[Min(off, |stream|)..][..moved]), stream, memory, off + n)
  {
  }

  lemma FilledIsAssembled(image: seq<byte>, stream: seq<byte>, memory: nat -> byte)
    requires |stream| >= HEADER_SIZE && |image| == MessageSize(stream)
    requires Fills(image, stream, memory, |image|)
    ensures image == Assembled(stream, memory)
  {
  }
}
