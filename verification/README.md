# Verification of the request/reply servers

A Dafny model of a C++ library in which clients send requests to servers over local sockets or an IPC
library, and proofs about it. Everything is checked by `dafny verify dfyconfig.toml`; nothing was executed.

## What is modelled

| file | what it holds |
|---|---|
| `Bytes.dfy` | 4-byte words, entry and exit headers as bytes, size arithmetic of the header constructor |
| `Transfer.dfy` | a kernel that moves bytes as it pleases; the loops `readn` and `writen` over it |
| `Framing.dfy` | requests on the wire and how a stream is cut into messages again |
| `Bindings.dfy` | the list of requests being served, as a value: sweep, disconnect, ownership |
| `SinglyLinkedList.dfy`, `DoublyLinkedList.dfy` | the two linked rings that hold that list, as heap objects, with their in-place sweeps |
| `ServiceTable.dfy`, `ReceptionPoint.dfy` | the table of services, registration, deletion, the dispatcher, the teardown |
| `LocalServer.dfy`, `LocalReceptionPoint.dfy` | the select loop: a reference in which every ready client is visited once, and the object with slots, high-water marks and ready counter that refines it |
| `LocalRounds.dfy` | what a visit, a round and a run of that reference do, told by the fields of the server alone |
| `LocalSystem.dfy` | the local server, its clients and the network as a state machine, and what every action keeps |
| `LockStep.dfy` | what every action keeps besides when clients do not send again before they receive |
| `LocalRuns.dfy` | whole runs: order of dispatch, ownership, disconnects |
| `LocalShutdown.dfy` | what becomes of pending requests when the server is shut down |
| `LocalRefinement.dfy` | the select loop over all its rounds is a run of that machine |
| `RemoteReceptionPoint.dfy` | the loop that sweeps between a request's entry and its dispatch |
| `Replies.dfy`, `AccessPoint.dfy` | `respond`, the two `send`s and the two `receive`s, the lock between them |
| `SharedConnection.dfy` | threads that share one access point, in every interleaving |
| `Registration.dfy` | registration of services by clients and what keeps the two tables in agreement |
| `Multiserver.dfy` | synchronous and asynchronous services, the receiving loop, several peers |
| `Handshake.dfy` | the shutdown handshake of the multiserver, in every interleaving |
| `PackedRecords.dfy` | records packed into raw bytes by stride arithmetic |

How to read it. The source's objects are classes whose methods do what the source's methods do. Each class has
a function `Abs` (or a ghost field `contents`, `records`) that gives its value, and its methods are proved to
do to that value what a specification function says. The whole-run results are lemmas about these functions:

1. `LocalReceptionPoint.DeamonEngine` does `RunOf`, a sequence of rounds `RoundOf`. Each round says which bytes
   and ends of streams arrive while `select` waits, in whatever pieces.
2. `LoopIsRun`: whatever clients do between the rounds, `RunOf` from a fresh server leads where a run of the
   system's machine leads (`LoopState`), and `LoopCanRead`: a request that has been sent can always be read.
3. Every state such a run reaches satisfies the theorems of `LocalRuns.dfy`; `LoopDispatchesInOrder`,
   `LoopOwnsOrFreed` and `LoopKeepsClientsApart` say so for `RunOf` itself.

## Assumptions

* `ERROR` and a failed `ASSERT` stop the process (`halted`); both macros are external to the model.
* `select` succeeds and returns the size of the ready set; a descriptor is reported only when a whole message
  or the end of its stream can be read, possibly after waiting, as the source's blocking reads do. A read that
  waits is counted with a `select` that has waited for it; `RoundIgnoresLaterBytes` proves that this makes no
  difference. `accept` returns a descriptor that is not open.
* `Slink` and `Dlink` are circular lists with a header node, as their use implies.
* Words and pointers have four bytes: headers have 16 bytes, and `size_t` wraps around at 2^32.
* In the whole-system machine a reply is one step. `Replies.Respond` is the non-atomic method. Whether `respond`
  can deliver the reply to a registration is up to the environment (`Chance.delivered`), and so is what newly
  allocated memory holds (`Chance.memory`).
* Clients declare the size of the buffer they attach and ask for codes inside the table; `UnframedIsMiscut` says
  what happens otherwise. They may send again before they receive, and may go away at any time, even in the
  middle of a message, but not inside the 16 bytes of a header. What holds of clients in lock-step only (no second
  `send` before the `receive` of the first) is stated for runs in lock-step: `Reachable(g, true)`.
* On a shared connection the server answers each request once, with a reply of the size its receiver expects
  and with attached data only if the receiver takes them (`Fits`). `ReceiveLeavesNothingIff` says which replies
  spoil the next `receive`.
* The loop runs over a finite list of rounds (or messages), because the environment decides how long it goes
  on. Serial numbers of requests, the log, and the lists of freed numbers are bookkeeping of the model. One
  number stands for message, binding and node; the classes free the three separately, and their `Valid`
  keeps the lists of freed messages, bindings and nodes equal.
* The IPC library delivers each message once, in any order, and tags it by the call that sent it.
* Base classes are fields (`LocalReceptionPoint.base`), because the model has no inheritance.

## Where the code does less than its documentation says

The model follows the code.

* `send` attaches a buffer but does not set `invocation_size` (`include/access_point.C:45-85`). A message is cut
  at its end if and only if the caller has set it (`CutIffFramed`, `UnframedIsMiscut`).
* `send` throws NotFound while it holds the lock (`include/access_point.C:20-28`). The connection is stuck if and
  only if some `send` asked for a code that was not registered (`StuckIff`, `ForgottenServiceSticks`), and for
  good (`ThrowStopsTheConnection`).
* A `receive` is documented to block until the answer is completely there (`include/access_point.H:138`). A reply
  cut off by the end of the stream is taken for a complete one if its size is right and it has no attached data
  (`TruncatedReplyIff`). Likewise the server dispatches a request whose client left in the middle of it, with
  whatever the allocated memory held in place of the rest (`TornMessageIff`).
* The scan after a disconnect stops at the first match (`include/local_reception_point.C:69-74`). It leaves no
  busy binding exactly if the busy one comes first (`UnmarkCleansIff`); a client that pipelines two requests
  defeats it (`PipelinedClientStaysBusy`), lock-step clients never do (`BusyBelongsToItsClient`).
* `delete_service` does not lower `registered_services` (`include/reception_point.C:38-48`). The dispatcher's
  check means what it says exactly without deletions (`CheckMeansFullIff`), and putting another service in the
  place of a deleted one halts a full server (`ReplaceIff`, `ReplacingInAFullTableHalts`).
* Both answers to a registration carry response code 0, which is the field the client tests
  (`include/base_message_header.H:366-371`). Agreement of the tables rests on the server's halt
  (`EveryResponseIsAccepted`, `WithoutTheHaltIff`) and is lost by one kind of step only, the deletion of a
  service a client uses (`StepKeepsAgreementIff`).
* `include/reception_point.H:149-150` promises that pending requests are completed before a server disappears. That
  is not so: `PendingRequestIsLost` is a run in which the teardown frees a request whose service was invoked,
  while its client waits. A sweep of a server in shutdown, of the teardown or of a later visit, loses a request
  if and only if a busy one is listed (`SweepLosesIff`); in lock-step, the sweep after the shutdown request does if
  and only if some client waits for the answer to a request already read (`StopLosesIff`). Nothing is lost in any
  continuation if, when the shutdown is asked for, nobody else waits, and nobody sends afterwards
  (`QuietStopLosesNothing`).
* `ASSERT(parameters_size >= 0)` tests an unsigned number; the default message size of 0 declares almost four
  gigabytes (`SendHeaderCoversMessage`).
* The constructor of `Ping_Reply_For_N_Objects` leaves its record slots out of the declared size
  (`ReplyCoversSlotsIff`); the one of `Ping_N_Objects_Request` includes them (`RequestCoversSlotsIff`).

## Model

| member | source | states |
|---|---|---|
| Transfer.Readn | include/local_readwrite.C:9-39 | for every schedule of short reads, interrupts, failures and end of file, a prefix of the stream moves into the buffer and nothing else of it changes; without error it is the longest one of at most n bytes; -1 exactly after a failure that is no interrupt; termination on (bytes left, calls left) |
| Transfer.Writen | include/local_readwrite.C:69-95 | a prefix of the data is emitted in order; without error all of it; -1 only after a failed call, or one that moved nothing while `errno` did not say interrupted |
| Headers.DecodeEncodeEntry | include/base_message_header.H:163-205 | an entry header is read back from its bytes, whatever follows them |
| Headers.DecodeEncodeExit | include/base_message_header.H:274-317 | the same for exit headers |
| Headers.SendHeaderCoversMessage | include/base_message_header.H:196-205 | the header built for a message covers it exactly if the size passed is at least the header's; the default size wraps around |
| Framing.CutIffFramed | include/local_reception_point.C:146-199 | the size the server computes from a header is the size of what was sent if and only if the header declares the attached buffer |
| Framing.UnframedIsMiscut | include/access_point.C:45-85 | if the caller leaves `invocation_size` at 0 the server cuts the message before the buffer |
| Framing.CutsArePrefix | include/local_reception_point.C:146-199 | for framed requests, at whatever byte the arrivals stand, the messages cut are a prefix of the requests sent, in order and byte for byte, and all of them in the end |
| Framing.LaterBytes | include/local_reception_point.C:146-199 | the first message of a stream does not depend on what arrives behind it |
| Bindings.SweepKeeps | include/reception_point.C:152-173 | a sweep keeps exactly the bindings that are busy while the server is up |
| Bindings.SweepConserves | include/reception_point.C:152-173 | what was listed before a sweep is listed or freed after it, once |
| Bindings.ShutdownSweepsAll | include/reception_point.C:132-149 | after shutdown a sweep frees all bindings in list order, answered or not |
| Bindings.SweepKeepsOrder | include/reception_point.C:152-173 | bindings keep their order, and no busy binding comes to stand behind another of its descriptor |
| Bindings.UnmarkCleansIff | include/local_reception_point.C:53-77 | the scan that stops at the first match leaves no busy binding of the descriptor if and only if all bindings of it behind the first are answered |
| Bindings.UnmarkKeepsOrder | include/local_reception_point.C:53-77 | the scan changes no other binding, no numbering and no order |
| Bindings.PipelinedClientStaysBusy | include/local_reception_point.C:69-74 | two outstanding requests of one client defeat the scan |
| Bindings.AccountedOnce | include/reception_point.C:152-173 | each serial number given is listed or freed, exactly once, and no other ever appears |
| SinglyLinkedList.BindingList.InsertNext | include/local_reception_point.C:170-174 | fresh binding point and node enter behind the header; the ring stays well formed |
| SinglyLinkedList.BindingList.FreeNext | include/reception_point.C:161-169 | message, binding point and node of the request behind the cursor are freed; the rest of the ring stays as it was |
| SinglyLinkedList.BindingList.Sweep | include/reception_point.C:152-173 | the cursor loop terminates, leaves exactly the bindings that are not done in their order and frees the others once, in order; a first node that is not done stays the first |
| SinglyLinkedList.BindingList.Unmark | include/local_reception_point.C:53-77 | the scan over the ring clears the busy flag of the first binding of the descriptor and nothing else |
| SinglyLinkedList.BindingList.ClearBusy | include/binding_point.H:67-70 | the busy flag of one binding is cleared through a pointer to it; ring and other bindings stay |
| DoublyLinkedList.BindingList.Append | include/remote_multiserver_point.H:224-229 | fresh binding point and node enter before the header; both directions of the ring stay well formed |
| DoublyLinkedList.BindingList.RemovePrev | include/remote_multiserver_point.H:376-380 | unlinks the node behind the cursor, also when the cursor has come to the header |
| DoublyLinkedList.BindingList.FreeAndAdvance | include/remote_multiserver_point.H:373-380 | binding point first, then cursor, then node: the same request is freed in both halves |
| DoublyLinkedList.BindingList.Sweep | include/remote_multiserver_point.H:366-385 | advancing first and removing the predecessor computes the same filter as the singly linked sweep |
| ServiceTable.CounterCounts | include/reception_point.C:14-48 | over any run of additions and deletions, the counter is the number of filled slots plus that of successful deletions |
| ServiceTable.CheckMeansFullIff | include/reception_point.C:93-107 | when the dispatcher's equality check passes, every code has a service if and only if nothing was ever deleted |
| ServiceTable.ReplaceIff | include/reception_point.C:14-48 | a free slot can be filled if and only if filled slots and deletions together are fewer than the slots |
| ServiceTable.ReplacingInAFullTableHalts | include/reception_point.C:14-48 | a full table that loses a service halts on its replacement |
| ServiceTable.TableHolds | include/reception_point.C:14-48 | after any run of additions and deletions, each slot holds the name of the last addition for its code that succeeded and was not deleted since; the counter counts the additions that succeeded |
| ServiceTable.HoldsIff | include/reception_point.C:14-48 | that name is the one of a particular operation: an addition to a free code before any halt, with no effective deletion behind it |
| ServiceTable.JudgeTells | include/reception_point.C:51-129 | for every message, from the operations: which service is invoked, when a request or a registration is an error, and that only a shutdown request shuts down |
| ReceptionPoints.ReceptionPoint.AddService | include/reception_point.C:14-35 | outcome and new table are those of the specification: Duplicated leaves it, a full counter halts |
| ReceptionPoints.ReceptionPoint.DeleteService | include/reception_point.C:38-48 | outcome and new table; the counter stays |
| ReceptionPoints.ReceptionPoint.Dispatcher | include/reception_point.C:51-129 | the verdict of the table, with the service invoked (`JudgeTells`); the binding of a shutdown request is given up at once, that of a registration if its reply could be delivered, services keep theirs busy; errors halt, only a shutdown raises the flag |
| ReceptionPoints.ReceptionPoint.BaseShutdown | include/reception_point.C:132-149 | the table is emptied; with the flag up every remaining request is freed |
| LocalServer.UnvisitedCounts | include/local_reception_point.C:138-209 | live slots hold different descriptors, so unvisited ready slots and their descriptors are equally many |
| LocalServer.AcceptCovers | include/local_reception_point.C:109-136 | after an acceptance the decremented ready counter still covers the ready slots, and the table stays sound |
| LocalServer.ScanVisit | include/local_reception_point.C:138-209 | the counter covers the slots to come whether or not a visit lowers it |
| LocalServer.ScanEnds | include/local_reception_point.C:206-207 | both early exits are sound: when the counter is used up or the mark is passed, every ready client has been served |
| LocalServer.Assembled | include/local_reception_point.C:169-197 | the message put together from a stream is its first message if all of it is there, and agrees with the stream as far as that goes |
| LocalRounds.VisitReads | include/local_reception_point.C:143-204 | all a visit to a client with something to read changes: what was answered is freed, one message is read, enters the list in front and is dispatched; when that halts, shuts down or gives the request up |
| LocalRounds.VisitDrops | include/local_reception_point.C:143-162 | all a visit to a client that has gone changes |
| LocalRounds.RoundAccepts | include/local_reception_point.C:109-132 | if the listener is ready, the new descriptor is in the first free slot after the round, watched and with nothing to read |
| LocalRounds.RoundIsFull | include/local_reception_point.C:118-126 | without a free slot the server halts and serves nobody |
| LocalRounds.RoundServes | include/local_reception_point.C:104-210 | in a round that does not halt each ready client is served, once: exactly its next message is dispatched and leaves its stream, or its slot, descriptor and watch are given up; no other client is |
| LocalRounds.RoundEnds | include/local_reception_point.C:104-210 | a round halts if and only if a client comes without a slot for it or a message it dispatched is refused; it raises the flag if and only if one of them is a shutdown request |
| LocalRounds.RoundFrees | include/local_reception_point.C:146-146 | a round that visits any client frees all requests answered before it or while `select` waited |
| LocalRounds.RunOfSnoc | include/local_reception_point.C:104-210 | the loop makes one round after the other until one ends it |
| LocalServer.AcceptKeepsSlots | include/local_reception_point.C:118-132 | accepting keeps the loop invariant of slots, watched set and open descriptors |
| LocalServer.VisitKeepsSlots | include/local_reception_point.C:143-209 | a visit keeps it, disconnect included |
| LocalServer.VisitKeepsWire | include/local_reception_point.C:146-199 | a visit touches no other client's stream and no other slot |
| LocalReceptionPoints.LocalReceptionPoint.constructor | include/local_reception_point.C:79-102 | the loop starts with an empty slot table that watches the listener only |
| LocalReceptionPoints.LocalReceptionPoint.ReadBody | include/local_reception_point.C:176-197 | header, parameters and buffer come together to the first message of the stream; where the stream ends early, allocated memory is left as it was |
| LocalReceptionPoints.LocalReceptionPoint.TakeMessage | include/local_reception_point.C:167-199 | the message leaves the stream, and its request enters the list in front |
| LocalReceptionPoints.LocalReceptionPoint.Disconnect | include/local_reception_point.C:153-162 | descriptor closed and unwatched, slot freed, binding unmarked |
| LocalReceptionPoints.LocalReceptionPoint.ServeSlot | include/local_reception_point.C:143-208 | sweep, then read and dispatch or disconnect: exactly one visit of the specification |
| LocalReceptionPoints.LocalReceptionPoint.AcceptClient | include/local_reception_point.C:109-132 | the first free slot is taken, both marks are raised, a full table halts |
| LocalReceptionPoints.LocalReceptionPoint.ServeReady | include/local_reception_point.C:138-209 | the scan bounded by `maxi` and `nready` does what visiting every ready slot once does |
| LocalReceptionPoints.LocalReceptionPoint.Select | include/local_reception_point.C:106-107 | bytes and ends that arrive, and answers given, while `select` waits |
| LocalReceptionPoints.LocalReceptionPoint.ServeRound | include/local_reception_point.C:104-210 | one round does what the reference round does (`RoundAccepts`, `RoundServes`, `RoundEnds`), and the loop invariant (watched set, distinct live slots up to `maxi`, descriptors up to `maxfd`) holds again |
| LocalReceptionPoints.LocalReceptionPoint.DeamonEngine | include/local_reception_point.C:79-220 | over all rounds the loop does what the reference does, and a shutdown, but not a halt, leaves no connection open |
| LocalReceptionPoints.LocalReceptionPoint.CloseAll | include/local_reception_point.C:211-218 | no connection is left open |
| LocalSystem.NextKeeps | include/local_reception_point.C:53-220 | every action of server, network, clients and answering threads keeps the system invariant, with clients that pipeline or break off |
| LocalSystem.TakeFacts | include/local_reception_point.C:146-199 | what can be read next is the front of the next request sent, for every chunking |
| LocalSystem.TakeTorn | include/local_reception_point.C:146-199 | a request cut off behind its header is dispatched with its size and header |
| LocalSystem.SweepKeepsFreed | include/reception_point.C:152-173 | what a sweep frees had been answered, had lost its client, or is counted as lost to a shutdown |
| LockStep.NextInStep | include/local_reception_point.C:53-220 | in lock-step, every action keeps: a busy request belongs to a connection that waits for it, and, before shutdown, each connection whose request was read and not answered has a busy one |
| LockStep.DropInStep | include/local_reception_point.C:153-162 | a disconnect leaves no busy request without a waiting client |
| LockStep.TakeFindsIdle | include/local_reception_point.C:166-174 | a connection whose message is read has no busy binding yet |
| LocalRuns.DispatchedInOrder | include/local_reception_point.C:104-210 | in every run, with any clients, the messages in the log for a connection are a prefix, in order and byte for byte, of what its client sent, except for a last one that was cut off; without a cut, all of it once the server saw the connection end |
| LocalRuns.TornMessageIff | include/local_reception_point.C:179-197 | a request cut off behind its header is dispatched as it was meant if and only if the allocated memory happens to hold the rest |
| LocalRuns.OwnedOrFreedOnce | include/local_reception_point.C:166-174 | in every run, with any clients, each request received was dispatched under its number and is in the list or freed, exactly once |
| LocalRuns.AllFreedAtTheEnd | include/reception_point.C:132-173 | after shutdown and teardown every request received has been freed exactly once |
| LocalRuns.NothingFreedEarly | include/reception_point.C:152-173 | in every run, before shutdown, what was freed was answered or had lost its client |
| LocalRuns.BusyBelongsToItsClient | include/local_reception_point.C:146-162 | in every run in lock-step a busy binding belongs to the open connection behind its descriptor, which waits for it, and is the only one: no later client inherits it |
| LocalShutdown.SweepLosesIff | include/reception_point.C:152-173 | in every run a sweep loses an unanswered request if and only if the flag is up and the list holds a busy one |
| LocalShutdown.EveryRequestHasItsFate | include/reception_point.C:132-173 | after the teardown every request was answered, had lost its client, was one to shut down, or is lost, and no lost one was answered |
| LocalShutdown.StopLosesIff | include/reception_point.C:112-122 | in lock-step, the sweep after a shutdown request is read loses a request if and only if some client waits for the answer to a request already read |
| LocalShutdown.QuietStopLosesNothing | include/reception_point.C:132-149 | if nobody else waits when the shutdown is asked for and nobody sends afterwards, nothing is ever lost |
| LocalShutdown.PendingRequestIsLost | include/reception_point.C:132-173 | a run of the system whose teardown frees an invoked request while its client waits |
| LocalRefinement.VisitIsTake | include/local_reception_point.C:143-204 | a visit that finds a message is a sweep and a reading action of the machine |
| LocalRefinement.VisitIsDrop | include/local_reception_point.C:143-162 | a visit that finds the end is a sweep and a disconnect action |
| LocalRefinement.AfterServing | include/local_reception_point.C:138-209 | serving all ready clients is a run of the machine in which no client acts |
| LocalRefinement.AfterRound | include/local_reception_point.C:104-210 | so is a round |
| LocalRefinement.LoopIsRun | include/local_reception_point.C:104-210 | over any number of rounds, with any legal actions of clients in between, the reference loop leads where a run of the machine leads |
| LocalRefinement.LoopCanRead | include/local_reception_point.C:143-204 | wherever a request has been sent and not read, a legal round dispatches it next |
| LocalRefinement.LoopCanAccept | include/local_reception_point.C:109-132 | wherever a slot is free, a legal stage leads to one more connection, behind a slot and watched, on any descriptor not in use |
| LocalRefinement.LoopReadsOn | include/local_reception_point.C:104-210 | wherever a session stands with a request unread, it goes on with a stage after which the loop's log holds it |
| LocalRefinement.LoopDispatchesInOrder | include/local_reception_point.C:104-210 | the log of the loop after all rounds holds for each connection a prefix of what its client sent, as above |
| LocalRefinement.LoopOwnsOrFreed | include/local_reception_point.C:166-174 | after all rounds each request of the loop is listed or freed, exactly once |
| LocalRefinement.LoopKeepsClientsApart | include/local_reception_point.C:146-162 | after all rounds with clients in lock-step, busy requests have different descriptors and waiting clients behind them |
| LocalRefinement.RoundIgnoresLaterBytes | include/local_reception_point.C:104-210 | a round does the same whether bytes behind what it reads arrive before, between or after its visits |
| RemoteServer.NewestSurvivesIff | include/remote_reception_point.C:116-125 | the sweep between entry and dispatch spares the new request if and only if the server is not shut down |
| RemoteServer.TurnLeaves | include/remote_reception_point.C:85-126 | after a turn the list holds the new request, busy unless the dispatcher is done with it, and the unanswered ones before it; the others are freed |
| RemoteServer.TurnsKeep | include/remote_reception_point.C:85-126 | in every run each request was listed and unanswered at its own dispatch, is listed or freed once, and none was freed that had not been answered |
| RemoteServer.AllFreedAtTheEnd | include/reception_point.C:132-173 | after a run that ends in a shutdown, the last sweep has freed every request of it exactly once |
| RemoteServer.DispatchedInOrder | include/remote_reception_point.C:85-126 | messages are dispatched in order of arrival without gaps; the last one alone decides whether the loop halts (it is refused) or shuts down; the one reply of the loop itself goes to the shutdown request it ends with |
| RemoteReceptionPoints.RemoteReceptionPoint.EnterAndSweep | include/remote_reception_point.C:106-121 | after insertion and sweep the new node is still the first of the ring |
| RemoteReceptionPoints.RemoteReceptionPoint.TakeTurn | include/remote_reception_point.C:85-126 | one turn does what the specification says |
| RemoteReceptionPoints.RemoteReceptionPoint.DeamonEngine | include/remote_reception_point.C:68-128 | so does the loop over all messages |
| Replies.Respond | include/local_binding.C:15-64 | sizes are set, body and buffer are written in order; the outcome tells exactly how much was; the binding stops being busy exactly if all of it was, which fails only with a system call that fails or moves nothing |
| Replies.ReceiveOutcomes | include/access_point.C:89-162 | for every stream and object, by the bytes alone: NotFound exactly at the end of the stream, the exact conditions of success, SizeFault with its number and failed assertion, and what is taken from the stream |
| Replies.ReceiveRoundTripIff | include/access_point.C:111-162 | a whole reply is read back whole, leaving what follows, if and only if the expected size matches and the buffer has room |
| Replies.ReceiveWithoutBufferIff | include/access_point.C:89-109 | the first form succeeds on a whole reply if and only if the size matches, and leaves attached data in the stream |
| Replies.TruncatedReplyIff | include/access_point.C:89-162 | a reply cut off behind its header is accepted if and only if the size matches and no attached data is to be read; the rest is what the caller's object held |
| Replies.ReceiveLeavesNothingIff | include/access_point.C:89-162 | a `receive` that expects no more than came leaves nothing for the next one if and only if the size matches and it takes the attached data |
| AccessPoints.AccessPoint.Send | include/access_point.C:17-85 | header, parameters and buffer go out in one piece; an unregistered code throws and writes nothing; the lock is taken in every case |
| AccessPoints.AccessPoint.Receive | include/access_point.C:89-162 | for every stream, ended early or not: outcome, contents of the reply object, attached data and what stays in the stream, by the bytes alone; every return and exception frees the lock |
| SharedConnection.EveryReceiveGetsItsReply | include/access_point.C:17-162 | in every interleaving, over the steps of the run: each `receive` of a thread, and nothing else, adds one receipt; it is the whole reply that the server gave to the last request the same thread had sent |
| SharedConnection.NextKeeps | include/access_point.C:17-162 | at most one request or reply is under way on a connection, that of the thread that holds the lock |
| SharedConnection.StuckIff | include/access_point.C:20-28 | the connection is stuck if and only if some `send` of the run asked for a code that was not registered |
| SharedConnection.ForgottenServiceSticks | include/access_point.C:20-28 | one such run: the code has just been deleted |
| SharedConnection.ThrowStopsTheConnection | include/access_point.C:20-28 | once that exception has been thrown only the table can still change, in any continuation |
| Registration.RegistrationIsJudged | include/reception_point.C:58-91 | the server finds in a registration message exactly the code and name put there, and accepts it exactly if its table has them |
| Registration.EveryResponseIsAccepted | include/base_message_header.H:366-371 | either response, as the client receives its bytes, reads as acceptance |
| Registration.AddService | include/access_point.C:166-189 | the registration message goes out, the lock is free after every return and exception, and the table changes exactly on a complete response with code 0; the process stops only if a write fails or the code is unknown |
| Registration.StepKeepsAgreementIff | include/reception_point.C:58-91 | a step keeps the tables in agreement if and only if it is not the server's deletion of a service the client uses |
| Registration.RegistersIff | include/access_point.C:166-189 | a registration enters the service in the client's table if and only if the server has it under that name; otherwise the server halts |
| Registration.AgreementHolds | include/access_point.C:166-189 | without server-side deletions every entry of a client's table is in the server's under the same name, in every run |
| Registration.WithoutTheHaltIff | include/reception_point.C:62-80 | if `ERROR` returned, agreement would survive a registration exactly if the service exists |
| Multiserver.DispatchedWhileListed | include/remote_multiserver_point.H:222-252 | a request is the last of the list and busy when dispatched, although the sweep came in between; the sweep frees only answered ones |
| Multiserver.TurnServes | include/remote_multiserver_point.H:198-253 | all a turn changes: unanswered requests stay, a request is entered behind them, other messages are not; when the turn halts, fails the assertion, shuts down or invokes |
| Multiserver.TurnsServe | include/remote_multiserver_point.H:198-253 | over any messages: the first one that ends the loop decides how, and up to there each request for a service is dispatched to the service of its code, in order, with a binding exactly if an answer is wanted |
| Multiserver.LeakedAreUnknown | include/remote_multiserver_point.H:120-166 | over any run that does not halt, the messages received and not freed are exactly those with an invalid code |
| Multiserver.TurnsKeepOwned | include/remote_multiserver_point.H:198-253 | over any number of turns each request is listed in order or freed, once |
| Multiserver.AllFreedAtTheEnd | include/remote_multiserver_point.H:777-779 | after a run that ends in a shutdown, the last sweep has freed every request of it exactly once |
| MultiserverPoints.RemoteMultiserverPoint.IncludeService | include/remote_multiserver_point.H:473-496 | outcome and new table; a duplicate leaves it, a code out of range or a full counter fails |
| MultiserverPoints.RemoteMultiserverPoint.Dispatcher | include/remote_multiserver_point.H:120-166 | invocation, halt or shutdown as the specification says, with the assertion of the service kind |
| MultiserverPoints.RemoteMultiserverPoint.TakeTurn | include/remote_multiserver_point.H:198-253 | one turn of the loop, an oversized message included |
| MultiserverPoints.RemoteMultiserverPoint.LocatorDeamonEngine | include/remote_multiserver_point.H:177-256 | the loop over all messages |
| MultiserverPoints.RemoteMultiserverPoint.TearDown | include/remote_multiserver_point.H:764-779 | the table is emptied, and the last sweep frees every request that is left |
| MultiserverNetwork.AgreementExists | include/remote_multiserver_point.H:304-345 | tables that agree pairwise follow one assignment of kinds to codes |
| MultiserverNetwork.NextKeeps | include/remote_multiserver_point.H:498-560 | registrations, deletions, checked sends, replies and deliveries keep every message in flight tagged as its service demands |
| MultiserverNetwork.KindsAreRespected | include/remote_multiserver_point.H:220-345 | for whatever assignment of kinds the peers have agreed on, from empty tables or others, in every run each synchronous service is invoked with a binding, each asynchronous one without, and the assertions never fail |
| MultiserverNetwork.FilledTablesAreRespected | include/remote_multiserver_point.H:220-345 | tables that are filled from the start need only agree pairwise |
| Multiserver.DisagreementIsFatalIff | include/remote_multiserver_point.H:304-345 | over any messages the assertion stops a receiver if and only if the first one to end its loop does not match its table |
| Handshake.TeardownIsSafe | include/remote_multiserver_point.H:741-785 | in every interleaving the waiter passes the wait only with the flag up, and the teardown never overlaps the daemon's use of table or list |
| Handshake.AllWorkIsDone | include/remote_multiserver_point.H:196-253 | in every interleaving the daemon enters, sweeps and handles the messages in order of arrival, each once, and a `shutdown` that has returned has freed the table, destroyed the locks and swept the list, in this order |
| Handshake.FlagEndsTheDaemon | include/remote_multiserver_point.H:143-156 | once the flag is up the daemon never touches table or list again |
| Handshake.StepsApproachTheEnd | include/remote_multiserver_point.H:196-253 | each step of the two threads lowers a measure that arriving messages do not raise |
| Handshake.NeverStuck | include/remote_multiserver_point.H:756-762 | until `shutdown` has returned, one of the two threads can go on: the wake-up is not lost |
| Handshake.ShutdownCompletes | include/remote_multiserver_point.H:741-785 | after the message is sent, every run that cannot go on has completed the shutdown, and there is a bound on its length |
| PackedRecords.SlotsApart | include/remote_message_header.H:191-201 | slots do not overlap |
| PackedRecords.FieldSpared | include/remote_message_header.H:245-265 | writing one field changes no field of another slot and no other field of the same one |
| PackedRecords.RequestCoversSlotsIff | include/remote_message_header.H:177-184 | the declared size covers all locator slots if and only if it does not wrap around |
| PackedRecords.ReplyCoversSlotsIff | include/remote_message_header.H:232-238 | the declared size covers the record slots if and only if there are none |
| PackedRecords.PingNObjectsRequest.AddLocator | include/remote_message_header.H:191-201 | the record is appended, earlier ones and all memory behind the declared slots stay, one too many is refused |
| PackedRecords.PingNObjectsRequest.At | include/remote_message_header.H:208-216 | a position below the number added gives back the record added there; the bound checked is the declared count |
| PackedRecords.PingReplyForNObjects.AddResponse | include/remote_message_header.H:245-265 | the same for records of locator and reply type |
| PackedRecords.PingReplyForNObjects.RecordWritten | include/remote_message_header.H:245-265 | the two copies set both fields of their slot and none of another |
| PackedRecords.PingReplyForNObjects.At | include/remote_message_header.H:267-291 | both getters give back what was added at the position |

## Left out

- Socket creation, `bind`, `listen`, `connect`, `unlink`, paths, signals, port printing: system calls without logic of their own.
- The IPC library, `Port`, `MsgId`, `RawMsg` and the macros of the library the code is built on: not part of the repository.
- `include/local_message_header.H`: field holders; only that callers of `send` set `invocation_size` there matters.
- The copies of the sources under `include/debugger` and `include/unshared`, and the tests: no logic of their own.
- `include/local_access_point.C`: its loops `readn_f` and `writen_f` repeat those of `include/local_readwrite.C`, except that a failed `write` halts inside the loop instead of in `send`.
- `Cache_In_Entries`: the same size arithmetic as `Ping_N_Objects_Request`; `Safe_Memory`, `Local_Locator`, `active_services`, `exists_act_serv`: field holders or never updated.
- Failed `select`, a request's header cut short by the end of its stream (the server would go on with bytes of the header before it), `readn` returning -1 inside the select loop, descriptors beyond the range of `FD_SET`: excluded by assumption. `Transfer.Readn` covers these cases of the transfer itself.
- LocalReceptionPoints.LocalReceptionPoint.DeamonEngine: runs over a finite list of rounds; it does not model a client that leaves inside the 16 bytes of a header.
- ReceptionPoints.ReceptionPoint.Dispatcher: takes the success of `respond` as a parameter; what `respond` writes is `Replies.Respond`.
- AccessPoints.AccessPoint.Receive: a kernel without failures, because the code ignores -1; it does not model the `ASSERT` on the reply header before that header has been read (include/access_point.C:122).
- AccessPoints.AccessPoint.Send: does not say which prefix was written when the write fails, since the process ends there.
- SharedConnection.EveryReceiveGetsItsReply: replies that do not fit what their receiver expects are excluded by assumption; a reply arrives as a whole, and a `receive` that waits in the middle of one reads the same bytes by `Transfer.Readn`.
- The signal that `dispatcher` sends after it has released the mutex may come when `shutdown` has already destroyed the condition variable, and the daemon reads the flag of an object that may be gone: the handshake model lets these steps happen and has no object lifetimes to judge them by. Spurious wake-ups are excluded; with one, the single test of the flag would not be enough.
- MultiserverPoints.RemoteMultiserverPoint.TearDown: empties the table slot by slot but does not release the array itself.
- `rpc_send_to_other_server` and `async_send_to_other_server` check no kind (include/remote_multiserver_point.H:606-716): the sender is responsible, so the network has only the checked sends and replies that carry asynchronous codes.
- MultiserverNetwork.KindsAreRespected: message bodies and ports are not modelled, only tags and codes.
- Services that keep a binding after its client has disconnected: outside the protocol. What pipelined requests do to the disconnect scan is `Bindings.PipelinedClientStaysBusy`.
- Shutdown of `Local_Reception_Point` and `Remote_Reception_Point` as seen by the thread that asks for it (a spinning loop, a join).
- Names longer than their 80 bytes and codes outside the table: the code does not check them; the model takes them as obligations of the caller.
