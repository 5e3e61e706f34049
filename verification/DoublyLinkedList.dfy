/** The binding list of `Remote_Multiserver_Point`: a doubly linked ring with a header node. */
module DoublyLinkedList {
  import opened Bindings

  /** `Remote_Multiserver_Binding`: the message to answer and whether it is still to be answered. */
  class MultiserverBinding {
    const id: nat
    const messageId: int
    var stillBusy: bool

    constructor (id: nat, messageId: int)
      ensures this.id == id && this.messageId == messageId && stillBusy
    {
      this.id, this.messageId, stillBusy := id, messageId, true;
    }

    ghost function Value(): Binding
      reads this
    {
      Binding(id, messageId, stillBusy)
    }
  }

  class BindingNode {
    const bindingPoint: MultiserverBinding?
    var next: BindingNode
    var prev: BindingNode

    constructor (bindingPoint: MultiserverBinding?)
      ensures this.bindingPoint == bindingPoint && next == this && prev == this
    {
      this.bindingPoint, next, prev := bindingPoint, this, this;
    }
  }

  class BindingList {
    const header: BindingNode
    var nextId: nat
    /** The nodes behind the header, in ring order, and what their binding points say. */
    ghost var nodes: seq<BindingNode>
    ghost var contents: seq<Binding>
    /** The serial numbers of the binding points and nodes freed so far. */
    ghost var freedBindings: seq<nat>
    ghost var freedNodes: seq<nat>
    ghost var Repr: set<object>

    ghost function Before(k: nat): BindingNode
      requires k <= |nodes|
      reads `nodes
    {
      if k == 0 then header else nodes[k - 1]
    }

    ghost function At(k: nat): BindingNode
      requires k <= |nodes|
      reads `nodes
    {
      if k == |nodes| then header else nodes[k]
    }

    ghost predicate LinkedAt(k: nat)
      requires k <= |nodes|
      reads `nodes, header, nodes
    {
      Before(k).next == At(k) && At(k).prev == Before(k)
    }

    /** Both directions of the ring run through the same nodes. */
    ghost predicate Linked()
      reads `nodes, header, nodes
    {
      header !in nodes && forall k :: 0 <= k <= |nodes| ==> LinkedAt(k)
    }

    ghost predicate Describes(i: nat)
      requires i < |nodes| == |contents|
      reads `nodes, `contents, `Repr, Repr
    {
      var b := nodes[i].bindingPoint;
      b != null && b in Repr && nodes[i] in Repr && contents[i] == b.Value()
    }

    ghost predicate Described()
      reads `nodes, `contents, `Repr, Repr
    {
      |contents| == |nodes| && forall i :: 0 <= i < |nodes| ==> Describes(i)
    }

    ghost predicate Valid()
      reads this, Repr
    {
      && this in Repr && header in Repr && (forall n <- nodes :: n in Repr)
      && Linked() && Described() && NumberedUp(contents, nextId)
      && freedBindings == freedNodes
    }

    constructor ()
      ensures Valid() && fresh(Repr) && contents == [] && freedNodes == [] && nextId == 0
    {
      header := new BindingNode(null);
      nextId, nodes, contents := 0, [], [];
      freedBindings, freedNodes := [], [];
      new;
      Repr := {this, header};
    }

    lemma Distinct()
      requires Valid()
      ensures forall i, j :: 0 <= i < j < |nodes| ==> nodes[i] != nodes[j] && nodes[i].bindingPoint != nodes[j].bindingPoint
    {
      forall i, j | 0 <= i < j < |nodes| ensures nodes[i] != nodes[j] && nodes[i].bindingPoint != nodes[j].bindingPoint {
        assert Describes(i) && Describes(j);
      }
    }

    /** `Dlink::append` on the header: the node becomes the last one of the ring. */
    method Link(node: BindingNode)
      requires Linked() && node != header && node !in nodes
      requires forall i, j :: 0 <= i < j < |nodes| ==> nodes[i] != nodes[j]
      modifies this`nodes, header, nodes, node
      ensures Linked() && nodes == old(nodes) + [node]
    {
      assert LinkedAt(|nodes|);
      var last := header.prev;
      node.prev, node.next := last, header;
      last.next := node;
      header.prev := node;
      nodes := nodes + [node];
      forall i | 0 <= i <= |nodes| ensures LinkedAt(i) {
        assert i < |nodes| - 1 ==> old(LinkedAt(i));
      }
    }

    method Append(messageId: int) returns (b: MultiserverBinding)
      requires Valid()
      modifies Repr
      ensures Valid() && fresh(Repr - old(Repr)) && fresh(b)
      ensures b.id == old(nextId) && b.messageId == messageId
      ensures |nodes| > 0 && nodes[|nodes| - 1].bindingPoint == b
      ensures contents == old(contents) + [Binding(old(nextId), messageId, true)]
      ensures nextId == old(nextId) + 1 && freedNodes == old(freedNodes)
    {
      b := new MultiserverBinding(nextId, messageId);
      var node := new BindingNode(b);
      Distinct();
      Link(node);
      contents := contents + [b.Value()];
      nextId := nextId + 1;
      Repr := Repr + {b, node};
      forall i | 0 <= i < |nodes| ensures Describes(i) {
        assert i < |nodes| - 1 ==> old(Describes(i));
      }
    }

    /** `Dlink::removePrev`: the cursor stands behind node `k`, perhaps on the header. */
    method RemovePrev(cursor: BindingNode, ghost k: nat) returns (removed: BindingNode)
      requires Linked() && k < |nodes| && cursor == At(k + 1)
      requires forall i, j :: 0 <= i < j < |nodes| ==> nodes[i] != nodes[j]
      modifies this`nodes, header, nodes
      ensures Linked() && removed == old(nodes)[k] && nodes == old(nodes)[..k] + old(nodes)[k + 1..]
    {
      assert LinkedAt(k) && LinkedAt(k + 1);
      removed := cursor.prev;
      cursor.prev := removed.prev;
      removed.prev.next := cursor;
      nodes := nodes[..k] + nodes[k + 1..];
      forall i | 0 <= i <= |nodes| ensures LinkedAt(i) {
        assert old(LinkedAt(if i <= k then i else i + 1));
        assert i == k ==> old(LinkedAt(k + 1));
      }
    }

    /** Frees the binding point under the cursor, moves the cursor on and frees the node now behind it. */
    method FreeAndAdvance(cursor: BindingNode, ghost k: nat) returns (next: BindingNode)
      requires Valid() && k < |nodes| && cursor == At(k)
      modifies this, header, nodes
      ensures Valid() && Repr == old(Repr) && nextId == old(nextId)
      ensures nodes == old(nodes)[..k] + old(nodes)[k + 1..] && next == At(k)
      ensures contents == old(contents)[..k] + old(contents)[k + 1..]
      ensures freedNodes == old(freedNodes) + [old(contents)[k].id]
    {
      assert LinkedAt(k + 1) && Describes(k);
      Distinct();
      freedBindings := freedBindings + [cursor.bindingPoint.id];
      next := cursor.next;
      var removed := RemovePrev(next, k);
      freedNodes := freedNodes + [removed.bindingPoint.id];
      contents := contents[..k] + contents[k + 1..];
      forall i | 0 <= i < |nodes| ensures Describes(i) {
        assert old(Describes(if i < k then i else i + 1));
      }
    }

    /** `binding_list_freeing_fct`: the same sweep as over the singly linked ring. */
    method Sweep(isShutdown: bool)
      requires Valid()
      modifies Repr
      ensures Valid() && Repr == old(Repr) && nextId == old(nextId)
      ensures contents == Kept(old(contents), isShutdown)
      ensures freedNodes == old(freedNodes) + Dropped(old(contents), isShutdown)
    {
      assert LinkedAt(0);
      var cursor := header.next;
      ghost var k := 0;
      while cursor != header && header.next != header
        invariant Valid() && Repr == old(Repr) && nextId == old(nextId)
        invariant k <= |nodes| && cursor == At(k)
        invariant Sweeping(old(contents), old(freedNodes), contents, freedNodes, k, isShutdown)
        decreases |nodes| - k
      {
        assert LinkedAt(k + 1) && Describes(k);
        if !cursor.bindingPoint.stillBusy || isShutdown {
          SweepingFrees(old(contents), old(freedNodes), contents, freedNodes, k, isShutdown);
          cursor := FreeAndAdvance(cursor, k);
        } else {
          cursor := cursor.next;
          k := k + 1;
        }
      }
      assert LinkedAt(0);
      SweepingEnds(old(contents), old(freedNodes), contents, freedNodes, k, isShutdown);
    }

    /** `set_still_busy(false)`, the end of `rpc_reply`, on the binding point of request `k`. */
    method ClearBusy(b: MultiserverBinding, ghost k: nat)
      requires Valid() && k < |nodes| && nodes[k].bindingPoint == b
      modifies `contents, b
      ensures Valid() && contents == old(contents)[k := old(contents)[k].(busy := false)]
    {
      assert Describes(k);
      Distinct();
      b.stillBusy := false;
      contents := contents[k := contents[k].(busy := false)];
      forall i | 0 <= i < |nodes| ensures Describes(i) {
        assert old(Describes(i));
        assert i != k ==> nodes[i].bindingPoint != b;
      }
    }

    /** Other threads answer the requests in `ids`. */
    method Answer(ids: set<nat>)
      requires Valid()
      modifies Repr
      ensures Valid() && Repr == old(Repr) && nextId == old(nextId) && freedNodes == old(freedNodes)
      ensures contents == Answered(old(contents), ids)
    {
      ghost var was := contents;
      assert LinkedAt(0);
      var cursor := header.next;
      ghost var k := 0;
      while cursor != header
        invariant Valid() && Repr == old(Repr) && nextId == old(nextId) && freedNodes == old(freedNodes)
        invariant k <= |nodes| && |contents| == |was| && cursor == At(k)
        invariant forall j :: 0 <= j < k ==> contents[j] == if was[j].id in ids then was[j].(busy := false) else was[j]
        invariant forall j :: k <= j < |was| ==> contents[j] == was[j]
        decreases |nodes| - k
      {
        assert LinkedAt(k + 1) && Describes(k);
        if cursor.bindingPoint.id in ids {
          ClearBusy(cursor.bindingPoint, k);
        }
        assert LinkedAt(k + 1);
        cursor := cursor.next;
        k := k + 1;
      }
      assert contents == Answered(was, ids);
    }
  }
}
