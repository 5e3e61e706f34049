/** The full-transfer loops `readn` and `writen` over a kernel that moves bytes as it pleases. */
module Transfer {
  import opened Bytes

  /** What the kernel does with one `read` or `write`: it moves up to `limit` bytes, or the call is
      interrupted by a signal, or it fails. */
  datatype Event = Move(limit: nat) | Interrupted | Failed

  datatype Errno = NoError | EINTR | EIO

  /** `rest` is `script` without its first `used` events, none of which failed. */
  ghost predicate Retried(script: seq<Event>, rest: seq<Event>, used: nat) {
    used <= |script| && rest == script[used..] && forall i :: 0 <= i < used ==> script[i] != Failed
  }

  /** `rest` is `script` without its first `used` events, of which only the last one failed. */
  ghost predicate FailedAfter(script: seq<Event>, rest: seq<Event>, used: nat) {
    0 < used <= |script| && rest == script[used..] && script[used - 1] == Failed &&
    forall i :: 0 <= i < used - 1 ==> script[i] != Failed
  }

  ghost predicate NoFailures(script: seq<Event>) {
    forall i :: 0 <= i < |script| ==> script[i] != Failed
  }

  /** The buffer `s` after `data` was copied into it at `off`. */
  ghost function Splice(s: seq<byte>, off: nat, data: seq<byte>): (r: seq<byte>)
    requires off + |data| <= |s|
    ensures |r| == |s|
  {
    s[..off] + data + s[off + |data|..]
  }

  /** A read loop moved the first `moved` bytes of the stream of `fd` to offset `off` of the buffer. */
  ghost predicate Drained(wire0: map<int, seq<byte>>, wire: map<int, seq<byte>>,
                           image0: seq<byte>, image: seq<byte>, fd: int, off: nat, moved: nat)
  {
    fd in wire0 && moved <= |wire0[fd]| && off + moved <= |image0| &&
    wire == wire0[fd := wire0[fd][moved..]] && image == Splice(image0, off, wire0[fd][..moved])
  }

  lemma DrainedMore(wire0: map<int, seq<byte>>, wire: map<int, seq<byte>>,
                     image0: seq<byte>, image: seq<byte>, fd: int, off: nat, moved: nat, r: nat)
    requires Drained(wire0, wire, image0, image, fd, off, moved)
    requires r <= |wire[fd]| && off + moved + r <= |image|
    ensures Drained(wire0, wire[fd := wire[fd][r..]], image0, Splice(image, off + moved, wire[fd][..r]),
                     fd, off, moved + r)
  {
    var stream := wire0[fd];
    assert stream[moved..][r..] == stream[moved + r..];
    assert stream[..moved] + stream[moved..][..r] == stream[..moved + r];
  }

  /** A write loop appended the first `moved` bytes of the data to what `fd` was sent. */
  ghost predicate Emitted(written0: map<int, seq<byte>>, written: map<int, seq<byte>>,
                          fd: int, data: seq<byte>, moved: nat)
  {
    fd in written0 && moved <= |data| && written == written0[fd := written0[fd] + data[..moved]]
  }

  method Memcpy(buf: array<byte>, off: nat, data: seq<byte>)
    requires off + |data| <= buf.Length
    modifies buf
    ensures buf[..] == Splice(old(buf[..]), off, data)
  {
    ghost var image := buf[..];
    forall j | 0 <= j < |data| {
      buf[off + j] := data[j];
    }
    assert buf[..off] == image[..off] && buf[off + |data|..] == image[off + |data|..];
    assert buf[off..off + |data|] == data;
  }

  /** Streams with what has arrived on them since. */
  function Extended(wire: map<int, seq<byte>>, bytes: map<int, seq<byte>>): (later: map<int, seq<byte>>)
    ensures later.Keys == wire.Keys
    ensures forall fd :: fd in wire ==> later[fd] == if fd in bytes then wire[fd] + bytes[fd] else wire[fd]
  {
    map fd | fd in wire :: if fd in bytes then wire[fd] + bytes[fd] else wire[fd]
  }

  function Min(a: nat, b: nat): nat {
    if a < b then a else b
  }

  class Kernel {
    /** For every open descriptor, the bytes that can still be read from it. */
    var wire: map<int, seq<byte>>
    /** The open descriptors behind whose bytes the stream ends. */
    var ended: set<int>
    /** For every open descriptor, the bytes written to it. */
    var written: map<int, seq<byte>>
    /** What happens to the coming system calls; when it runs out, every call moves all it can. */
    var script: seq<Event>
    var errno: Errno

    constructor (script: seq<Event>)
      ensures wire == map[] && ended == {} && written == map[] && this.script == script && errno == NoError
    {
      wire, ended, written, this.script, errno := map[], {}, map[], script, NoError;
    }

    /** A new connection: `accept` returned `fd`, from which nothing has arrived yet. */
    method Open(fd: int)
      modifies this`wire, this`ended, this`written
      ensures wire == old(wire)[fd := []] && ended == old(ended) - {fd} && written == old(written)[fd := []]
    {
      wire, ended, written := wire[fd := []], ended - {fd}, written[fd := []];
    }

    method Close(fd: int)
      modifies this`wire, this`ended, this`written
      ensures wire == old(wire) - {fd} && ended == old(ended) - {fd} && written == old(written) - {fd}
    {
      wire, ended, written := wire - {fd}, ended - {fd}, written - {fd};
    }

    /** The network delivers bytes to some descriptors, and the end of the stream to others. */
    method Deliver(bytes: map<int, seq<byte>>, ends: set<int>)
      modifies this`wire, this`ended
      ensures wire == Extended(old(wire), bytes) && ended == old(ended) + ends
    {
      wire, ended := Extended(wire, bytes), ended + ends;
    }

    method NextEvent(n: nat) returns (e: Event)
      modifies this`script
      ensures old(script) == [] ==> e == Move(n) && script == []
      ensures old(script) != [] ==> e == old(script)[0] && script == old(script)[1..]
    {
      if script == [] {
        e := Move(n);
      } else {
        e, script := script[0], script[1..];
      }
    }

    /** `read(fd, buf + off, n)`: data, or 0 at the end of the stream, or -1 and `errno`. */
    method Read(fd: int, buf: array<byte>, off: nat, n: nat) returns (r: int)
      requires fd in wire && 0 < n && off + n <= buf.Length
      modifies this`wire, this`script, this`errno, buf
      ensures old(script) == [] ==> script == [] && r >= 0
      ensures old(script) != [] ==> script == old(script)[1..] && (r >= 0 <==> old(script)[0].Move?)
      ensures r < 0 ==> wire == old(wire) && buf[..] == old(buf[..]) &&
                        errno == if old(script)[0] == Interrupted then EINTR else EIO
      ensures r >= 0 ==> errno == old(errno) && r <= Min(n, |old(wire)[fd]|) && (r == 0 <==> old(wire)[fd] == [])
      ensures r >= 0 ==> wire == old(wire)[fd := old(wire)[fd][r..]]
      ensures r >= 0 ==> buf[..] == Splice(old(buf[..]), off, old(wire)[fd][..r])
    {
      var e := NextEvent(n);
      match e {
        case Interrupted => r, errno := -1, EINTR;
        case Failed => r, errno := -1, EIO;
        case Move(limit) =>
          var avail := wire[fd];
          r := Min(if limit == 0 then 1 else limit, Min(n, |avail|));
          Memcpy(buf, off, avail[..r]);
          wire := wire[fd := avail[r..]];
      }
    }

    /** `write(fd, ptr, |chunk|)`: the number of bytes taken, which can be 0 without touching `errno`,
        or -1 and `errno`. */
    method Write(fd: int, chunk: seq<byte>) returns (r: int)
      requires fd in written && chunk != []
      modifies this`written, this`script, this`errno
      ensures old(script) == [] ==> script == [] && r == |chunk|
      ensures old(script) != [] ==> script == old(script)[1..] && (r >= 0 <==> old(script)[0].Move?)
      ensures r <= 0 ==> written == old(written)
      ensures r < 0 ==> errno == if old(script)[0] == Interrupted then EINTR else EIO
      ensures r >= 0 ==> errno == old(errno) && (r == 0 ==> old(script) != [] && old(script)[0] == Move(0))
      ensures r >= 0 ==> r <= |chunk| && written == old(written)[fd := old(written)[fd] + chunk[..r]]
    {
      var e := NextEvent(|chunk|);
      match e {
        case Interrupted => r, errno := -1, EINTR;
        case Failed => r, errno := -1, EIO;
        case Move(limit) =>
          r := Min(limit, |chunk|);
          assert r == 0 ==> written[fd] + chunk[..r] == written[fd];
          written := written[fd := written[fd] + chunk[..r]];
      }
    }
  }

  /** `readn`: for every schedule of short reads, interrupts and end of file it moves a prefix of the
      stream to the buffer and nothing else; without error, the longest prefix of at most `n` bytes. */
  method Readn(k: Kernel, fd: int, buf: array<byte>, off: nat, n: nat) returns (r: int, ghost moved: nat, ghost used: nat)
    requires fd in k.wire && off + n <= buf.Length
    modifies k`wire, k`script, k`errno, buf
    ensures Drained(old(k.wire), k.wire, old(buf[..]), buf[..], fd, off, moved)
    ensures r >= 0 ==> r == moved == Min(n, |old(k.wire)[fd]|) && Retried(old(k.script), k.script, used)
    ensures r < 0 ==> r == -1 && moved < n && FailedAfter(old(k.script), k.script, used)
  {
    var nleft, ptr: int := n, off;
    ghost var wire0, script0, image0 := k.wire, k.script, buf[..];
    moved, used := 0, 0;
    while nleft > 0
      invariant 0 <= nleft && moved + nleft == n && ptr == off + moved
      invariant Drained(wire0, k.wire, image0, buf[..], fd, off, moved)
      invariant Retried(script0, k.script, used)
      decreases nleft, |k.script|
    {
      ghost var wire, image := k.wire, buf[..];
      var nread := k.Read(fd, buf, ptr, nleft);
      used := if used < |script0| then used + 1 else used;
      if nread < 0 {
        if k.errno == EINTR {
          nread := 0;
        } else {
          return -1, moved, used;
        }
      } else if nread == 0 {
        break;
      } else {
        DrainedMore(wire0, wire, image0, image, fd, off, moved, nread);
      }
      nleft := nleft - nread;
      ptr := ptr + nread;
      moved := moved + nread;
    }
    return n - nleft, moved, used;
  }

  /** `writen`: it emits a prefix of the data in order; without error, all of it. A `write` that moves
      nothing is retried only while `errno` still says that a call was interrupted. */
  method Writen(k: Kernel, fd: int, data: seq<byte>) returns (r: int, ghost moved: nat, ghost used: nat)
    requires fd in k.written
    modifies k`written, k`script, k`errno
    ensures Emitted(old(k.written), k.written, fd, data, moved)
    ensures r >= 0 ==> r == moved == |data| && Retried(old(k.script), k.script, used)
    ensures r < 0 ==> r == -1 && moved < |data| && k.errno != EINTR &&
                      0 < used <= |old(k.script)| && old(k.script)[used - 1] in {Failed, Move(0)} &&
                      k.script == old(k.script)[used..]
  {
    var nleft, ptr: int := |data|, 0;
    ghost var written0, script0 := k.written, k.script;
    moved, used := 0, 0;
    assert written0[fd] + data[..moved] == written0[fd];
    while nleft > 0
      invariant 0 <= nleft && ptr == moved && moved + nleft == |data|
      invariant Emitted(written0, k.written, fd, data, moved)
      invariant Retried(script0, k.script, used)
      decreases nleft, |k.script|
    {
      var nwritten := k.Write(fd, data[ptr..]);
      used := if used < |script0| then used + 1 else used;
      if nwritten <= 0 {
        if k.errno == EINTR {
          nwritten := 0;
        } else {
          return -1, moved, used;
        }
      }
      assert written0[fd] + data[..moved] + data[moved..][..nwritten] == written0[fd] + data[..moved + nwritten];
      nleft := nleft - nwritten;
      ptr := ptr + nwritten;
      moved := moved + nwritten;
    }
    return |data|, moved, used;
  }
}
