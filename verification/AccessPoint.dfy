/** The client's end of a connection (`Access_Point`): `send` takes a lock that `receive` gives back. */
module AccessPoints {
  import opened Options
  import opened Bytes
  import opened Headers
  import opened Transfer
  import opened Replies
  import opened ServiceTable

  datatype SendOutcome = Sent | NotRegistered | SendHalted

  class AccessPoint {
    const kernel: Kernel
    const socket: int
    const table: array<Option<Name>>
    var locked: bool

    ghost predicate Valid()
      reads this, kernel
    {
      socket in kernel.wire && socket in kernel.written
    }

    constructor (kernel: Kernel, socket: int, n: nat)
      requires socket in kernel.wire && socket in kernel.written
      ensures Valid() && !locked && this.kernel == kernel && this.socket == socket
      ensures fresh(table) && table.Length == n && forall c :: 0 <= c < n ==> table[c] == None
    {
      this.kernel, this.socket, locked := kernel, socket, false;
      table := new Option<Name>[n](_ => None);
    }

    /** Whether `send` lets a message pass. */
    ghost predicate Accepts(message: seq<byte>)
      requires |message| >= HEADER_SIZE
      reads table
    {
      var h := DecodeEntry(message);
      (h.systemCode == DEMSERV_SEND && h.clientCode < table.Length && table[h.clientCode].Some?) ||
      h.systemCode in {DEMSERV_ADD, DEMSERV_SHUTDOWN}
    }

    /** Both forms of `send`: header, parameters as far as the header says, and the attached buffer go out
        in one piece. An unregistered code throws with the lock still held; any other failure halts. */
    method Send(request: array<byte>, buffer: seq<byte>) returns (outcome: SendOutcome)
      requires Valid() && !locked && request.Length >= HEADER_SIZE
      requires var h := DecodeEntry(request[..]);
               request.Length == HEADER_SIZE + h.parametersSize &&
               (h.systemCode == DEMSERV_SEND ==> h.clientCode < table.Length)
      modifies this`locked, kernel
      ensures Valid() && locked && kernel.wire == old(kernel.wire)
      ensures NoFailures(old(kernel.script)) ==> NoFailures(kernel.script)
      ensures outcome == Sent ==>
                Accepts(request[..]) &&
                kernel.written == old(kernel.written)[socket := old(kernel.written)[socket] + request[..] + buffer]
      ensures outcome == NotRegistered <==>
                DecodeEntry(request[..]).systemCode == DEMSERV_SEND && !Accepts(request[..])
      ensures outcome == NotRegistered ==> kernel.written == old(kernel.written)
      ensures Accepts(request[..]) && outcome == SendHalted ==>
                exists i :: 0 <= i < |old(kernel.script)| && old(kernel.script)[i] in {Failed, Move(0)}
    {
      locked := true;
      var h := DecodeEntry(request[..]);
      if h.systemCode == DEMSERV_SEND {
        if table[h.clientCode].None? {
          return NotRegistered;
        }
      } else if h.systemCode != DEMSERV_ADD && h.systemCode != DEMSERV_SHUTDOWN {
        return SendHalted;
      }
      var message := request[..] + buffer;
      var r;
      ghost var moved, used;
      r, moved, used := Writen(kernel, socket, message);
      if r < 0 {
        return SendHalted;
      }
      assert message[..moved] == message;
      assert old(kernel.written)[socket] + message == old(kernel.written)[socket] + request[..] + buffer;
      outcome := Sent;
    }

    method ReadFront(buf: array<byte>, n: nat) returns (got: nat)
      requires Valid() && NoFailures(kernel.script) && n <= buf.Length
      modifies kernel`wire, kernel`script, kernel`errno, buf
      ensures NoFailures(kernel.script)
      ensures var stream := old(kernel.wire)[socket];
              got == Min(n, |stream|) && buf[..] == stream[..got] + old(buf[..])[got..] &&
              kernel.wire == old(kernel.wire)[socket := stream[got..]]
    {
      var r;
      ghost var moved, used;
      r, moved, used := Readn(kernel, socket, buf, 0, n);
      got := r;
    }

    /** Both forms of `receive`. Whatever it returns or throws, the lock is free again; only a failed
        assertion keeps it. */
    method Receive(reply: array<byte>, buffer: array<byte>, withBuffer: bool) returns (r: ReceiveOutcome, got: nat)
      requires Valid() && reply.Length >= HEADER_SIZE && reply != buffer
      requires NoFailures(kernel.script)
      modifies this`locked, kernel, reply, buffer
      ensures Valid() && kernel.written == old(kernel.written)
      ensures locked == (old(locked) && r == Aborted)
      ensures var rec := Receives(old(kernel.wire)[socket], old(reply[..]), buffer.Length, withBuffer);
              && r == rec.outcome
              && kernel.wire == old(kernel.wire)[socket := rec.rest]
              && reply[..] == rec.body && got == |rec.extra| && buffer[..got] == rec.extra
      ensures OutcomeFits(old(kernel.wire)[socket], old(reply[..]), buffer.Length, withBuffer, reply[..], r)
      ensures TakesFit(old(kernel.wire)[socket], old(reply[..]), buffer.Length, withBuffer, buffer[..got], kernel.wire[socket])
    {
      ReceiveOutcomes(kernel.wire[socket], reply[..], buffer.Length, withBuffer);
      var n := ReadFront(reply, reply.Length);
      if n == 0 {
        locked := false;
        return NoPeer, 0;
      }
      var h := DecodeExit(reply[..]);
      var wanted: nat := if withBuffer then h.invocationSize else 0;
      got := 0;
      if wanted > 0 {
        if wanted > buffer.Length {
          locked := false;
          return SizeFault(wanted), 0;
        }
        got := ReadFront(buffer, wanted);
        if got != wanted {
          return Aborted, got;
        }
      }
      locked := false;
      r := if reply.Length == h.responseSize then Ok else SizeFault(reply.Length);
    }
  }
}
