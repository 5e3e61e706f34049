/** The binding list of `Reception_Point`: a singly linked ring with a header node. */
module SinglyLinkedList {
  import opened Bytes
  import opened Bindings

  class BindingPoint {
    const id: nat
    const clientSocket: int
    var stillBusy: bool

    constructor (id: nat, clientSocket: int)
      ensures this.id == id && this.clientSocket == clientSocket && stillBusy
    {
      this.id, this.clientSocket, stillBusy := id, clientSocket, true;
    }

    ghost function Value(): Binding
      reads this
    {
      Binding(id, clientSocket, stillBusy)
    }
  }

  /** `Binding_Node`; the header node of a list carries neither binding point nor message. */
  class BindingNode {
    const bindingPoint: BindingPoint?
    const requestMessage: array?<byte>
    var next: BindingNode

    constructor (bindingPoint: BindingPoint?, requestMessage: array?<byte>)
      ensures this.bindingPoint == bindingPoint && this.requestMessage == requestMessage && next == this
    {
      this.bindingPoint, this.requestMessage, next := bindingPoint, requestMessage, this;
    }
  }

  class BindingList {
    const header: BindingNode
    /** The serial number of the next request. */
    var nextId: nat
    /** The nodes behind the header, in ring order, and what their binding points say. */
    ghost var nodes: seq<BindingNode>
    ghost var contents: seq<Binding>
    /** The serial numbers of the messages, binding points and nodes freed so far. */
    ghost var freedMessages: seq<nat>
    ghost var freedBindings: seq<nat>
    ghost var freedNodes: seq<nat>
    ghost var Repr: set<object>

    /** The node before position `k` of the ring and the one at it; both ends are the header. */
    ghost function Before(k: nat): BindingNode
      requires k <= |nodes|
      reads `nodes
    {
      if k == 0 then header else nodes[k - 1]
    }

    ghost function At(k: nat): BindingNode
      requires k <= |nodes|
      reads `nodes
    {
      if k == |nodes| then header else nodes[k]
    }

    ghost predicate LinkedAt(k: nat)
      requires k <= |nodes|
      reads `nodes, header`next, nodes`next
    {
      Before(k).next == At(k)
    }

    ghost predicate Linked()
      reads `nodes, header`next, nodes`next
    {
      header !in nodes && forall k :: 0 <= k <= |nodes| ==> LinkedAt(k)
    }

    ghost predicate Described()
      reads `nodes, `contents, `Repr, Repr
    {
      |contents| == |nodes| && forall i :: 0 <= i < |nodes| ==> Describes(i)
    }

    ghost predicate Describes(i: nat)
      requires i < |nodes| == |contents|
      reads `nodes, `contents, `Repr, Repr
    {
      var b := nodes[i].bindingPoint;
      b != null && b in Repr && nodes[i] in Repr && contents[i] == b.Value()
    }

    ghost predicate Valid()
      reads this, Repr
    {
      && this in Repr && header in Repr && (forall n <- nodes :: n in Repr)
      && Linked() && Described() && Numbered(contents, nextId)
      && freedMessages == freedBindings == freedNodes
    }

    constructor ()
      ensures Valid() && fresh(Repr) && contents == [] && freedNodes == [] && nextId == 0
    {
      header := new BindingNode(null, null);
      nextId, nodes, contents := 0, [], [];
      freedMessages, freedBindings, freedNodes := [], [], [];
      new;
      Repr := {this, header};
    }

    /** `Slink::insertNext` on the header. */
    method Link(node: BindingNode)
      requires Linked() && node != header && node !in nodes
      modifies this`nodes, header`next, node`next
      ensures Linked() && nodes == [node] + old(nodes)
    {
      assert LinkedAt(0);
      node.next := header.next;
      header.next := node;
      nodes := [node] + nodes;
      forall i | 0 <= i <= |nodes| ensures LinkedAt(i) {
        assert i > 1 ==> old(LinkedAt(i - 1));
      }
    }

    /** A fresh binding point and node enter the list right behind its header. */
    method InsertNext(clientSocket: int, message: array<byte>) returns (b: BindingPoint)
      requires Valid()
      modifies Repr
      ensures Valid() && fresh(Repr - old(Repr)) && fresh(b)
      ensures b.id == old(nextId) && b.clientSocket == clientSocket
      ensures nodes != [] && nodes[0].bindingPoint == b && nodes[0].requestMessage == message
      ensures contents == [Binding(old(nextId), clientSocket, true)] + old(contents)
      ensures nextId == old(nextId) + 1 && freedNodes == old(freedNodes)
    {
      b := new BindingPoint(nextId, clientSocket);
      var node := new BindingNode(b, message);
      NumberedCons(contents, nextId, b.Value());
      Link(node);
      contents := [b.Value()] + contents;
      nextId := nextId + 1;
      Repr := Repr + {b, node};
      assert Described() by {
        forall i | 0 <= i < |nodes| ensures Describes(i) {
          assert i > 0 ==> old(Describes(i - 1));
        }
      }
    }

    /** `Slink::removeNext`: the cursor stands before node `k`. */
    method RemoveNext(cursor: BindingNode, ghost k: nat) returns (removed: BindingNode)
      requires Linked() && k < |nodes| && cursor == Before(k)
      requires forall i, j :: 0 <= i < j < |nodes| ==> nodes[i] != nodes[j]
      modifies this`nodes, cursor`next
      ensures Linked() && removed == old(nodes)[k] && nodes == old(nodes)[..k] + old(nodes)[k + 1..]
    {
      assert LinkedAt(k) && LinkedAt(k + 1);
      removed := cursor.next;
      cursor.next := removed.next;
      nodes := nodes[..k] + nodes[k + 1..];
      forall i | 0 <= i <= |nodes| ensures LinkedAt(i) {
        assert old(LinkedAt(if i <= k then i else i + 1));
      }
    }

    lemma Distinct()
      requires Valid()
      ensures forall i, j :: 0 <= i < j < |nodes| ==> nodes[i] != nodes[j] && nodes[i].bindingPoint != nodes[j].bindingPoint
    {
      forall i, j | 0 <= i < j < |nodes| ensures nodes[i] != nodes[j] && nodes[i].bindingPoint != nodes[j].bindingPoint {
        assert Describes(i) && Describes(j);
      }
    }

    /** Frees message, binding point and node of the request behind the cursor. */
    method FreeNext(cursor: BindingNode, ghost k: nat)
      requires Valid() && k < |nodes| && cursor == Before(k)
      modifies this, cursor`next
      ensures Valid() && Repr == old(Repr) && nextId == old(nextId)
      ensures nodes == old(nodes)[..k] + old(nodes)[k + 1..]
      ensures contents == old(contents)[..k] + old(contents)[k + 1..]
      ensures freedNodes == old(freedNodes) + [old(contents)[k].id]
    {
      assert LinkedAt(k) && Describes(k);
      Distinct();
      freedMessages := freedMessages + [contents[k].id];
      freedBindings := freedBindings + [cursor.next.bindingPoint.id];
      var removed := RemoveNext(cursor, k);
      freedNodes := freedNodes + [removed.bindingPoint.id];
      contents := contents[..k] + contents[k + 1..];
      forall i | 0 <= i < |nodes| ensures Describes(i) {
        assert old(Describes(if i < k then i else i + 1));
      }
    }

    /** `binding_list_freeing_fct`: the cursor moves only past requests that stay. */
    method Sweep(isShutdown: bool)
      requires Valid()
      modifies Repr
      ensures Valid() && Repr == old(Repr) && nextId == old(nextId)
      ensures contents == Kept(old(contents), isShutdown)
      ensures freedNodes == old(freedNodes) + Dropped(old(contents), isShutdown)
      ensures old(nodes) != [] && !Done(old(contents)[0], isShutdown) ==> nodes != [] && nodes[0] == old(nodes)[0]
    {
      var cursor := header;
      ghost var k := 0;
      while cursor.next != header
        invariant Valid() && Repr == old(Repr) && nextId == old(nextId)
        invariant k <= |nodes| && cursor == Before(k) && cursor in Repr
        invariant Sweeping(old(contents), old(freedNodes), contents, freedNodes, k, isShutdown)
        invariant old(nodes) != [] && !Done(old(contents)[0], isShutdown) ==>
                    nodes != [] && nodes[0] == old(nodes)[0] && contents[0] == old(contents)[0]
        decreases |nodes| - k
      {
        assert LinkedAt(k) && Describes(k);
        if !cursor.next.bindingPoint.stillBusy || isShutdown {
          SweepingFrees(old(contents), old(freedNodes), contents, freedNodes, k, isShutdown);
          FreeNext(cursor, k);
        } else {
          cursor := cursor.next;
          k := k + 1;
        }
      }
      assert LinkedAt(k);
      SweepingEnds(old(contents), old(freedNodes), contents, freedNodes, k, isShutdown);
    }

    /** `set_still_busy(false)` on the binding point of request `k`, by whoever holds a pointer to it. */
    method ClearBusy(b: BindingPoint, ghost k: nat)
      requires Valid() && k < |nodes| && nodes[k].bindingPoint == b
      modifies `contents, b
      ensures Valid() && contents == old(contents)[k := old(contents)[k].(busy := false)]
    {
      assert Describes(k);
      Distinct();
      b.stillBusy := false;
      contents := contents[k := contents[k].(busy := false)];
      forall i | 0 <= i < |nodes| ensures Describes(i) {
        assert old(Describes(i));
        assert i != k ==> nodes[i].bindingPoint != b;
      }
    }

    /** `unmark_local_binding_from_waiting_list` of `Local_Reception_Point`. */
    method Unmark(closedSocket: int)
      requires Valid()
      modifies Repr
      ensures Valid() && Repr == old(Repr) && nextId == old(nextId) && freedNodes == old(freedNodes)
      ensures contents == Unmarked(old(contents), closedSocket)
    {
      assert LinkedAt(0);
      var cursor := header.next;
      ghost var k := 0;
      while cursor != header
        invariant k <= |nodes| && cursor == At(k)
        invariant forall j :: 0 <= j < k ==> contents[j].fd != closedSocket
        decreases |nodes| - k
      {
        assert LinkedAt(k + 1) && Describes(k);
        if cursor.bindingPoint.clientSocket == closedSocket {
          UnmarkedAt(contents, closedSocket, k);
          ClearBusy(cursor.bindingPoint, k);
          return;
        }
        cursor := cursor.next;
        k := k + 1;
      }
      UnmarkedAt(contents, closedSocket, k);
    }

    /** Other threads answer the requests in `ids`. */
    method Answer(ids: set<nat>)
      requires Valid()
      modifies Repr
      ensures Valid() && Repr == old(Repr) && nextId == old(nextId) && freedNodes == old(freedNodes)
      ensures contents == Answered(old(contents), ids)
    {
      ghost var was := contents;
      assert LinkedAt(0);
      var cursor := header.next;
      ghost var k := 0;
      while cursor != header
        invariant Valid() && Repr == old(Repr) && nextId == old(nextId) && freedNodes == old(freedNodes)
        invariant k <= |nodes| && |contents| == |was| && cursor == At(k)
        invariant forall j :: 0 <= j < k ==> contents[j] == if was[j].id in ids then was[j].(busy := false) else was[j]
        invariant forall j :: k <= j < |was| ==> contents[j] == was[j]
        decreases |nodes| - k
      {
        assert LinkedAt(k + 1) && Describes(k);
        if cursor.bindingPoint.id in ids {
          ClearBusy(cursor.bindingPoint, k);
        }
        assert LinkedAt(k + 1);
        cursor := cursor.next;
        k := k + 1;
      }
      assert contents == Answered(was, ids);
    }
  }
}
