/** The singly linked list of FastDFS/common/chain.c: nodes relinked through `head`, `tail` and `next`.

    The ghost field `spine` lists the nodes from `head` to `tail`; `Contents` is the data they carry. */
module Chain {

  class ChainNode<T> {
    var data: T
    var next: ChainNode?<T>
    ghost var owner: ChainList<T>

    constructor (data: T, ghost owner: ChainList<T>)
      ensures this.data == data && next == null && this.owner == owner
    {
      this.data := data;
      next := null;
      this.owner := owner;
    }
  }

  ghost function Data<T>(nodes: seq<ChainNode<T>>): (d: seq<T>)
    reads nodes
    ensures |d| == |nodes|
    ensures forall i :: 0 <= i < |nodes| ==> d[i] == nodes[i].data
  {
    seq(|nodes|, i requires 0 <= i < |nodes| reads nodes => nodes[i].data)
  }

  class ChainList<T> {
    var head: ChainNode?<T>
    var tail: ChainNode?<T>
    ghost var spine: seq<ChainNode<T>>

    ghost predicate Valid()
      reads this, spine
    {
      && (spine == [] ==> head == null && tail == null)
      && (spine != [] ==> head == spine[0] && tail == spine[|spine| - 1] && tail.next == null)
      && (forall i :: 0 <= i < |spine| - 1 ==> spine[i].next == spine[i + 1])
      && (forall i, j :: 0 <= i < j < |spine| ==> spine[i] != spine[j])
      && (forall i :: 0 <= i < |spine| ==> spine[i].owner == this)
    }

    ghost function Contents(): seq<T>
      reads this, spine
    {
      Data(spine)
    }

    constructor ()
      ensures Valid() && Contents() == [] && spine == []
    {
      head, tail, spine := null, null, [];
    }

    /** appendNode */
    method AppendNode(data: T)
      requires Valid()
      modifies this, spine
      ensures Valid() && Contents() == old(Contents()) + [data]
      ensures |spine| == |old(spine)| + 1 && spine[..|old(spine)|] == old(spine) && fresh(spine[|old(spine)|])
    {
      var node := new ChainNode(data, this);
      if tail != null {
        tail.next := node;
      }
      tail := node;
      if head == null {
        head := node;
      }
      spine := spine + [node];
    }

    /** deleteNodeEx: unlinks a node, given the node before it. */
    method DeleteNodeEx(previous: ChainNode?<T>, deleted: ChainNode<T>, ghost k: nat)
      requires Valid() && k < |spine| && spine[k] == deleted
      requires previous == if k == 0 then null else spine[k - 1]
      modifies this, spine
      ensures Valid() && spine == old(spine)[..k] + old(spine)[k + 1..]
      ensures Contents() == old(Contents())[..k] + old(Contents())[k + 1..]
    {
      if deleted == head {
        head := deleted.next;
      } else {
        previous.next := deleted.next;
      }
      if deleted == tail {
        tail := previous;
      }
      spine := spine[..k] + spine[k + 1..];
    }
  
    /** Overwrites the data of one node in place. */
    method SetData(node: ChainNode<T>, data: T, ghost k: nat)
      requires Valid() && k < |spine| && spine[k] == node
      modifies node
      ensures Valid() && spine == old(spine) && Contents() == old(Contents())[k := data]
    {
      node.data := data;
    }
  }
}
