/** The outbound queue as the doubly linked list it is. */
module EnvelopeQueues {
  import opened Types
  import opened Members
  import opened Outbound
  import opened Nodes

  class EnvelopeNode {
    var env: Envelope
    var prev: EnvelopeNode?
    var next: EnvelopeNode?

    constructor (env: Envelope)
      ensures this.env == env && prev == null && next == null
    {
      this.env, prev, next := env, null, null;
    }
  }

  class EnvelopeQueue {
    var head: EnvelopeNode?
    var tail: EnvelopeNode?
    /** The list, from head to tail. */
    ghost var nodes: seq<EnvelopeNode>

    /** `ns` is a doubly linked list from `first` to `last`. */
    static ghost predicate Linked(ns: seq<EnvelopeNode>, first: EnvelopeNode?, last: EnvelopeNode?)
      reads ns
    {
      && (forall i, j :: 0 <= i < j < |ns| ==> ns[i] != ns[j])
      && (first == if ns == [] then null else ns[0])
      && (last == if ns == [] then null else ns[|ns| - 1])
      && (ns != [] ==> ns[0].prev == null && ns[|ns| - 1].next == null)
      && (forall i {:trigger ns[i].prev} :: 0 < i < |ns| ==> ns[i].prev == ns[i - 1])
      && (forall i {:trigger ns[i].next} :: 0 <= i < |ns| - 1 ==> ns[i].next == ns[i + 1])
    }

    ghost predicate Valid()
      reads this, nodes
    {
      Linked(nodes, head, tail)
    }

    ghost function View(): (q: seq<Envelope>)
      reads this, nodes
      ensures |q| == |nodes| && forall i :: 0 <= i < |nodes| ==> q[i] == nodes[i].env
    {
      seq(|nodes|, i requires 0 <= i < |nodes| reads this, nodes => nodes[i].env)
    }

    /** The objects the list is made of, besides the queue itself. */
    ghost function NodeSet(): set<EnvelopeNode>
      reads this
    {
      set node | node in nodes
    }

    /** What a traversal sees at position `i`. */
    lemma At(i: nat)
      requires Valid() && i < |nodes|
      ensures nodes[i].next == (if i == |nodes| - 1 then null else nodes[i + 1])
      ensures |View()| == |nodes| && View()[i] == nodes[i].env
    {
    }

    /** Where a traversal starts. */
    lemma Front()
      requires Valid()
      ensures head == (if nodes == [] then null else nodes[0]) && |View()| == |nodes|
    {
    }

    constructor ()
      ensures Valid() && nodes == [] && View() == []
    {
      head, tail, nodes := null, null, [];
    }

    /** Forget every envelope. */
    method Clear()
      requires Valid()
      modifies this
      ensures Valid() && View() == []
    {
      var current := head;
      ghost var i := 0;
      while current != null
        invariant i <= |nodes| && current == if i == |nodes| then null else nodes[i]
        invariant unchanged(this)
        decreases |nodes| - i
      {
        current := current.next;
        i := i + 1;
      }
      head, tail, nodes := null, null, [];
    }

    /** Link a new envelope behind the last. */
    method Enqueue(env: Envelope)
      requires Valid()
      modifies this, NodeSet()
      ensures Valid() && View() == old(View()) + [env]
      ensures fresh(NodeSet() - old(NodeSet()))
    {
      var node := new EnvelopeNode(env);
      if head == null || tail == null {
        head, tail := node, node;
      } else {
        node.prev := tail;
        tail.next := node;
        tail := node;
      }
      nodes := nodes + [node];
      assert View() == old(View()) + [env];
    }

    /** Unlink one envelope: the order of the others does not change. */
    method Remove(node: EnvelopeNode, ghost i: nat)
      requires Valid() && i < |nodes| && nodes[i] == node
      modifies this, NodeSet()
      ensures Valid() && nodes == Without(old(nodes), i) && View() == Without(old(View()), i)
      ensures NodeSet() <= old(NodeSet())
    {
      WithoutAt(nodes, i);
      hide View, Without;
      Bypass(node, i);
      BypassedIsLinked(nodes, head, tail, i);
      nodes := Without(nodes, i);
      RemovedView(i);
    }

    /** The neighbours of position `i` point past it. */
    static ghost predicate Bypassed(ns: seq<EnvelopeNode>, first: EnvelopeNode?, last: EnvelopeNode?, i: nat)
      reads ns
      requires i < |ns|
    {
      var prev, next := if i == 0 then null else ns[i - 1], if i == |ns| - 1 then null else ns[i + 1];
      && (forall j, k :: 0 <= j < k < |ns| ==> ns[j] != ns[k])
      && (first == if i == 0 then next else ns[0])
      && (last == if i == |ns| - 1 then prev else ns[|ns| - 1])
      && (i > 0 ==> ns[0].prev == null && ns[i - 1].next == next)
      && (i < |ns| - 1 ==> ns[|ns| - 1].next == null && ns[i + 1].prev == prev)
      && (forall k {:trigger ns[k].prev} :: 0 < k < |ns| && k != i && k != i + 1 ==> ns[k].prev == ns[k - 1])
      && (forall k {:trigger ns[k].next} :: 0 <= k < |ns| - 1 && k != i && k != i - 1 ==> ns[k].next == ns[k + 1])
    }

    method Bypass(node: EnvelopeNode, ghost i: nat)
      requires Valid() && i < |nodes| && nodes[i] == node
      modifies this`head, this`tail, NodeSet()
      ensures Bypassed(nodes, head, tail, i)
      ensures forall k {:trigger nodes[k].env} :: 0 <= k < |nodes| ==> nodes[k].env == old(nodes[k].env)
    {
      var prev, next := node.prev, node.next;
      if next != null { next.prev := prev; } else { tail := prev; }
      if prev != null { prev.next := next; } else { head := next; }
    }

    static lemma BypassedIsLinked(ns: seq<EnvelopeNode>, first: EnvelopeNode?, last: EnvelopeNode?, i: nat)
      requires i < |ns| && Bypassed(ns, first, last, i)
      ensures Linked(Without(ns, i), first, last)
    {
    }

    twostate lemma RemovedView(i: nat)
      requires i < |old(nodes)| && nodes == Without(old(nodes), i)
      requires forall k {:trigger old(nodes)[k].env} :: 0 <= k < |old(nodes)| ==> old(nodes)[k].env == old(nodes[k].env)
      ensures View() == Without(old(View()), i)
    {
      WithoutAt(old(nodes), i);
      WithoutAt(old(View()), i);
      hide View, Without;
      assert forall k :: 0 <= k < i ==> View()[k] == old(View())[k];
      assert forall k :: i <= k < |nodes| ==> View()[k] == old(View())[k + 1];
    }

    static lemma WithoutAt<T>(s: seq<T>, i: nat)
      requires i < |s|
      ensures var r := Without(s, i);
        && |r| == |s| - 1
        && (forall k :: 0 <= k < i ==> r[k] == s[k])
        && (forall k :: i <= k < |r| ==> r[k] == s[k + 1])
        && (forall x :: x in r ==> x in s)
    {
    }

    /** Overwrite the fields of one envelope. */
    method Update(node: EnvelopeNode, ghost i: nat, env: Envelope)
      requires Valid() && i < |nodes| && nodes[i] == node
      modifies node`env
      ensures Valid() && View() == old(View())[i := env]
    {
      node.env := env;
      assert View() == old(View())[i := env];
    }

    method FindBySequenceNum(s: uint32) returns (node: EnvelopeNode?, ghost i: int)
      requires Valid()
      ensures i == FindSeq(View(), s, 0)
      ensures node == if FindSeq(View(), s, 0) < 0 then null else nodes[FindSeq(View(), s, 0)]
    {
      node, i := head, 0;
      while node != null
        invariant 0 <= i <= |nodes| && node == if i == |nodes| then null else nodes[i]
        invariant FindSeq(View(), s, 0) == FindSeq(View(), s, i)
        decreases |nodes| - i
      {
        if node.env.seqNum == s { return; }
        node := node.next;
        i := i + 1;
      }
      i := -1;
    }

    /** Drop the envelope an acknowledgement names, if it is queued. */
    method Acknowledge(s: uint32)
      requires Valid()
      modifies this, NodeSet()
      ensures Valid() && View() == Acknowledged(old(View()), s)
      ensures NodeSet() <= old(NodeSet())
    {
      hide View, Without;
      ghost var i;
      var node;
      node, i := FindBySequenceNum(s);
      if node != null {
        WithoutAt(nodes, i);
        Remove(node, i);
      }
    }
  }
}
