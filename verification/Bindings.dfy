/** The list of requests being served, as a value. Each element stands for the three heap objects that
    belong to one request (message, binding point and list node), named by one serial number. */
module Bindings {

  datatype Binding = Binding(id: nat, fd: int, busy: bool)

  /** A sweep frees what has been answered, and everything once the server is shut down. */
  predicate Done(b: Binding, isShutdown: bool) {
    !b.busy || isShutdown
  }

  ghost predicate NoneDone(list: seq<Binding>, isShutdown: bool) {
    forall i :: 0 <= i < |list| ==> !Done(list[i], isShutdown)
  }

  function Kept(list: seq<Binding>, isShutdown: bool): seq<Binding> {
    if list == [] then []
    else if Done(list[0], isShutdown) then Kept(list[1..], isShutdown)
    else [list[0]] + Kept(list[1..], isShutdown)
  }

  function Dropped(list: seq<Binding>, isShutdown: bool): seq<nat> {
    if list == [] then []
    else if Done(list[0], isShutdown) then [list[0].id] + Dropped(list[1..], isShutdown)
    else Dropped(list[1..], isShutdown)
  }

  function Ids(list: seq<Binding>): (ids: seq<nat>)
    ensures |ids| == |list| && forall i :: 0 <= i < |list| ==> ids[i] == list[i].id
  {
    if list == [] then [] else [list[0].id] + Ids(list[1..])
  }

  /** `Local_Reception_Point` clears the busy flag of the first binding of the closed descriptor only. */
  function Unmarked(list: seq<Binding>, fd: int): (r: seq<Binding>)
    ensures |r| == |list|
  {
    if list == [] then []
    else if list[0].fd == fd then [list[0].(busy := false)] + list[1..]
    else [list[0]] + Unmarked(list[1..], fd)
  }

  lemma {:induction false} UnmarkedAt(list: seq<Binding>, fd: int, k: nat)
    requires k <= |list| && forall j :: 0 <= j < k ==> list[j].fd != fd
    ensures k == |list| ==> Unmarked(list, fd) == list
    ensures k < |list| && list[k].fd == fd ==> Unmarked(list, fd) == list[k := list[k].(busy := false)]
  {
    if k > 0 {
      UnmarkedAt(list[1..], fd, k - 1);
      assert list == [list[0]] + list[1..];
    }
  }

  /** The list after the requests in `ids` have been answered. */
  function Answered(list: seq<Binding>, ids: set<nat>): (r: seq<Binding>)
    ensures |r| == |list|
    ensures forall i :: 0 <= i < |list| ==> r[i] == if list[i].id in ids then list[i].(busy := false) else list[i]
  {
    if list == [] then []
    else [if list[0].id in ids then list[0].(busy := false) else list[0]] + Answered(list[1..], ids)
  }

  lemma {:induction false} AnsweredIds(list: seq<Binding>, ids: set<nat>)
    ensures Ids(Answered(list, ids)) == Ids(list)
  {
    if list != [] {
      AnsweredIds(list[1..], ids);
    }
  }

  lemma {:induction false} SweepSkips(a: seq<Binding>, x: Binding, b: seq<Binding>, isShutdown: bool)
    requires NoneDone(a, isShutdown) && Done(x, isShutdown)
    ensures Kept(a + [x] + b, isShutdown) == Kept(a + b, isShutdown)
    ensures Dropped(a + [x] + b, isShutdown) == [x.id] + Dropped(a + b, isShutdown)
  {
    if a == [] {
      assert a + [x] + b == [x] + b && a + b == b;
    } else {
      SweepSkips(a[1..], x, b, isShutdown);
      assert (a + [x] + b)[1..] == a[1..] + [x] + b && (a + b)[1..] == a[1..] + b;
    }
  }

  lemma {:induction false} SweepIsDone(list: seq<Binding>, isShutdown: bool)
    requires NoneDone(list, isShutdown)
    ensures Kept(list, isShutdown) == list && Dropped(list, isShutdown) == []
  {
    if list != [] {
      SweepIsDone(list[1..], isShutdown);
    }
  }

  /** A sweep in progress: the first `k` bindings stay, and what is still to be kept and freed adds up to
      what a sweep of the original list keeps and frees. */
  ghost predicate Sweeping(list0: seq<Binding>, freed0: seq<nat>, list: seq<Binding>, freed: seq<nat>, k: nat,
                           isShutdown: bool)
  {
    && k <= |list| && NoneDone(list[..k], isShutdown)
    && Kept(list, isShutdown) == Kept(list0, isShutdown)
    && freed + Dropped(list, isShutdown) == freed0 + Dropped(list0, isShutdown)
  }

  lemma SweepingFrees(list0: seq<Binding>, freed0: seq<nat>, list: seq<Binding>, freed: seq<nat>, k: nat,
                      isShutdown: bool)
    requires Sweeping(list0, freed0, list, freed, k, isShutdown)
    requires k < |list| && Done(list[k], isShutdown)
    ensures Sweeping(list0, freed0, list[..k] + list[k + 1..], freed + [list[k].id], k, isShutdown)
  {
    var shorter := list[..k] + list[k + 1..];
    SweepSkips(list[..k], list[k], list[k + 1..], isShutdown);
    assert list == list[..k] + [list[k]] + list[k + 1..];
    assert shorter[..k] == list[..k];
    assert freed + [list[k].id] + Dropped(shorter, isShutdown) == freed + ([list[k].id] + Dropped(shorter, isShutdown));
  }

  lemma SweepingEnds(list0: seq<Binding>, freed0: seq<nat>, list: seq<Binding>, freed: seq<nat>, k: nat,
                     isShutdown: bool)
    requires Sweeping(list0, freed0, list, freed, k, isShutdown) && k == |list|
    ensures list == Kept(list0, isShutdown) && freed == freed0 + Dropped(list0, isShutdown)
  {
    assert list[..k] == list;
    SweepIsDone(list, isShutdown);
  }

  /** A sweep keeps exactly the bindings that are not done. */
  lemma {:induction false} SweepKeeps(list: seq<Binding>, isShutdown: bool)
    ensures forall b :: b in Kept(list, isShutdown) <==> b in list && !Done(b, isShutdown)
  {
    if list != [] {
      SweepKeeps(list[1..], isShutdown);
      assert list == [list[0]] + list[1..];
    }
  }

  lemma MultisetCons(x: nat, s: seq<nat>)
    ensures multiset([x] + s) == multiset{x} + multiset(s)
  {
  }

  lemma IdsCons(x: Binding, tail: seq<Binding>)
    ensures multiset(Ids([x] + tail)) == multiset{x.id} + multiset(Ids(tail))
  {
    assert Ids([x] + tail) == [x.id] + Ids(tail);
    MultisetCons(x.id, Ids(tail));
  }

  /** A sweep loses and invents nothing: what was in the list is kept or freed, once. */
  lemma {:induction false} SweepConserves(list: seq<Binding>, isShutdown: bool)
    ensures multiset(Ids(list)) == multiset(Ids(Kept(list, isShutdown))) + multiset(Dropped(list, isShutdown))
  {
    if list != [] {
      var x, tail := list[0], list[1..];
      SweepConserves(tail, isShutdown);
      IdsCons(x, tail);
      assert list == [x] + tail;
      if Done(x, isShutdown) {
        MultisetCons(x.id, Dropped(tail, isShutdown));
      } else {
        IdsCons(x, Kept(tail, isShutdown));
      }
    }
  }

  /** Once the server is shut down a sweep frees all bindings, answered or not. */
  lemma {:induction false} ShutdownSweepsAll(list: seq<Binding>)
    ensures Kept(list, true) == [] && Dropped(list, true) == Ids(list)
  {
    if list != [] {
      ShutdownSweepsAll(list[1..]);
    }
  }

  lemma DroppedFrom(list: seq<Binding>, isShutdown: bool)
    ensures forall id :: id in Dropped(list, isShutdown) ==> exists b :: b in list && b.id == id && Done(b, isShutdown)
  {
    if list != [] {
      DroppedFrom(list[1..], isShutdown);
      assert list == [list[0]] + list[1..];
    }
  }

  /** New requests enter at the front, with growing serial numbers below `limit`. */
  ghost predicate Numbered(list: seq<Binding>, limit: nat) {
    && (forall i :: 0 <= i < |list| ==> list[i].id < limit)
    && (forall i, j :: 0 <= i < j < |list| ==> list[j].id < list[i].id)
  }

  /** The same for lists that grow at the end. */
  ghost predicate NumberedUp(list: seq<Binding>, limit: nat) {
    && (forall i :: 0 <= i < |list| ==> list[i].id < limit)
    && (forall i, j :: 0 <= i < j < |list| ==> list[i].id < list[j].id)
  }

  lemma NumberedCons(list: seq<Binding>, limit: nat, b: Binding)
    requires Numbered(list, limit) && b.id == limit
    ensures Numbered([b] + list, limit + 1)
  {
  }

  ghost predicate BusyOn(list: seq<Binding>, fd: int) {
    exists b :: b in list && b.busy && b.fd == fd
  }

  /** No busy binding of `fd` has another binding of `fd` before it. */
  ghost predicate BusyComesFirst(list: seq<Binding>, fd: int) {
    forall i, j :: 0 <= i < j < |list| && list[i].fd == fd && list[j].fd == fd ==> !list[j].busy
  }

  lemma BusyTail(x: Binding, tail: seq<Binding>, fd: int)
    ensures BusyComesFirst([x] + tail, fd) <==> BusyComesFirst(tail, fd) && (x.fd == fd ==> !BusyOn(tail, fd))
  {
    var list := [x] + tail;
    if BusyComesFirst(list, fd) {
      forall i, j | 0 <= i < j < |tail| && tail[i].fd == fd && tail[j].fd == fd ensures !tail[j].busy {
        assert list[i + 1] == tail[i] && list[j + 1] == tail[j];
      }
      forall b | b in tail && x.fd == fd && b.fd == fd ensures !b.busy {
        var j :| 0 <= j < |tail| && tail[j] == b;
        assert list[0] == x && list[j + 1] == b;
      }
    }
  }

  lemma IdleComesFirst(list: seq<Binding>, fd: int)
    ensures !BusyOn(list, fd) ==> BusyComesFirst(list, fd)
  {
    forall j | !BusyOn(list, fd) && 0 <= j < |list| && list[j].fd == fd ensures !list[j].busy {
      assert list[j] in list;
    }
  }

  /** The scan that stops at the first match cleans up after a disconnect exactly when every binding of
      the descriptor behind the first one has been answered. */
  lemma {:induction false} UnmarkCleansIff(list: seq<Binding>, fd: int)
    ensures !BusyOn(Unmarked(list, fd), fd) <==> BusyComesFirst(list, fd)
  {
    if list != [] {
      var x, tail := list[0], list[1..];
      assert list == [x] + tail;
      BusyTail(x, tail, fd);
      if x.fd == fd {
        assert Unmarked(list, fd) == [x.(busy := false)] + tail;
        IdleComesFirst(tail, fd);
      } else {
        UnmarkCleansIff(tail, fd);
        assert Unmarked(list, fd) == [x] + Unmarked(tail, fd);
      }
    }
  }

  lemma {:induction false} SweepKeepsOrder(list: seq<Binding>, limit: nat, isShutdown: bool)
    requires Numbered(list, limit)
    ensures Numbered(Kept(list, isShutdown), limit)
    ensures forall fd :: BusyComesFirst(list, fd) ==> BusyComesFirst(Kept(list, isShutdown), fd)
  {
    if list != [] {
      var x, tail := list[0], list[1..];
      var k := Kept(tail, isShutdown);
      SweepKeepsOrder(tail, limit, isShutdown);
      SweepKeeps(tail, isShutdown);
      assert list == [x] + tail;
      if !Done(x, isShutdown) {
        forall b | b in k ensures b.id < x.id {
          assert b in tail;
        }
      }
      forall fd | BusyComesFirst(list, fd) ensures BusyComesFirst(Kept(list, isShutdown), fd) {
        BusyTail(x, tail, fd);
        if !Done(x, isShutdown) {
          BusyTail(x, k, fd);
        }
      }
    }
  }

  function Release(list: seq<Binding>, k: nat): seq<Binding>
    requires k < |list|
  {
    list[k := list[k].(busy := false)]
  }

  lemma ReleaseKeepsOrder(list: seq<Binding>, k: nat, limit: nat)
    requires k < |list| && Numbered(list, limit)
    ensures Numbered(Release(list, k), limit) && Ids(Release(list, k)) == Ids(list)
    ensures forall fd :: BusyComesFirst(list, fd) ==> BusyComesFirst(Release(list, k), fd)
  {
    forall fd | BusyComesFirst(list, fd) ensures BusyComesFirst(Release(list, k), fd) {
      ReleaseKeepsFirst(list, k, fd);
    }
  }

  lemma ReleaseKeepsFirst(list: seq<Binding>, k: nat, fd: int)
    requires k < |list| && BusyComesFirst(list, fd)
    ensures BusyComesFirst(Release(list, k), fd)
  {
    var r := Release(list, k);
    forall i, j | 0 <= i < j < |r| && r[i].fd == fd && r[j].fd == fd ensures !r[j].busy {
      assert list[i].fd == fd && list[j].fd == fd;
    }
  }

  lemma ReleasedFrom(list: seq<Binding>, k: nat, limit: nat)
    requires k < |list| && Numbered(list, limit)
    ensures forall b :: b in Release(list, k) ==> b == list[k].(busy := false) || (b in list && b.id != list[k].id)
  {
    var r := Release(list, k);
    forall b | b in r ensures b == list[k].(busy := false) || (b in list && b.id != list[k].id) {
      var j :| 0 <= j < |r| && r[j] == b;
      assert j != k ==> list[j] in list && list[j].id != list[k].id;
    }
  }

  lemma UnmarkKeepsOrder(list: seq<Binding>, fd: int, limit: nat)
    requires Numbered(list, limit)
    ensures Numbered(Unmarked(list, fd), limit) && Ids(Unmarked(list, fd)) == Ids(list)
    ensures forall x :: BusyComesFirst(list, x) ==> BusyComesFirst(Unmarked(list, fd), x)
    ensures forall b :: b in Unmarked(list, fd) ==> b in list || (exists a :: a in list && a.fd == fd && b == a.(busy := false))
  {
    if k :| 0 <= k < |list| && list[k].fd == fd && forall j :: 0 <= j < k ==> list[j].fd != fd {
      UnmarkedAt(list, fd, k);
      ReleaseKeepsOrder(list, k, limit);
      ReleasedFrom(list, k, limit);
      assert list[k] in list;
    } else {
      NoMatch(list, fd, |list|);
      UnmarkedAt(list, fd, |list|);
    }
  }

  lemma {:induction false} NoMatch(list: seq<Binding>, fd: int, n: nat)
    requires n <= |list|
    requires forall k :: 0 <= k < |list| && list[k].fd == fd ==> exists j :: 0 <= j < k && list[j].fd == fd
    ensures forall j :: 0 <= j < n ==> list[j].fd != fd
  {
    if n > 0 {
      NoMatch(list, fd, n - 1);
    }
  }

  /** A client that pipelines two requests and leaves keeps one busy binding behind. */
  lemma PipelinedClientStaysBusy()
    ensures var list := [Binding(1, 7, true), Binding(0, 7, true)];
            BusyOn(Unmarked(list, 7), 7)
  {
    var list := [Binding(1, 7, true), Binding(0, 7, true)];
    assert Unmarked(list, 7)[1] == Binding(0, 7, true);
  }

  function UpTo(n: nat): (s: seq<nat>)
    ensures |s| == n && forall i :: 0 <= i < n ==> s[i] == i
  {
    if n == 0 then [] else UpTo(n - 1) + [n - 1]
  }

  lemma {:induction false} UpToOnce(n: nat, id: nat)
    ensures multiset(UpTo(n))[id] == if id < n then 1 else 0
  {
    if n > 0 {
      UpToOnce(n - 1, id);
      MultisetSnoc(UpTo(n - 1), n - 1);
      assert multiset{n - 1}[id] == if id == n - 1 then 1 else 0;
    }
  }

  lemma MultisetSnoc(s: seq<nat>, x: nat)
    ensures multiset(s + [x]) == multiset(s) + multiset{x}
  {
  }

  /** Of all serial numbers given so far, each is in the list or has been freed. */
  ghost predicate Accounted(list: seq<Binding>, freed: seq<nat>, limit: nat) {
    multiset(Ids(list)) + multiset(freed) == multiset(UpTo(limit))
  }

  lemma AccountedOnce(list: seq<Binding>, freed: seq<nat>, limit: nat, id: nat)
    requires Accounted(list, freed, limit)
    ensures multiset(Ids(list))[id] + multiset(freed)[id] == if id < limit then 1 else 0
  {
    UpToOnce(limit, id);
    assert (multiset(Ids(list)) + multiset(freed))[id] == multiset(UpTo(limit))[id];
  }

  lemma AccountedCons(list: seq<Binding>, freed: seq<nat>, limit: nat, b: Binding)
    requires Accounted(list, freed, limit) && b.id == limit
    ensures Accounted([b] + list, freed, limit + 1)
  {
    IdsCons(b, list);
    MultisetSnoc(UpTo(limit), limit);
  }

  lemma SweepAccounts(list: seq<Binding>, freed: seq<nat>, limit: nat, isShutdown: bool)
    requires Accounted(list, freed, limit)
    ensures Accounted(Kept(list, isShutdown), freed + Dropped(list, isShutdown), limit)
  {
    SweepConserves(list, isShutdown);
  }
}
