/** The linked list during the search: the history with the operations of the stack lifted.
    Where a predicate names its conjunction `holds`, it is proved and used as one fact. */
module Weaving {
  import opened Entries
  import opened Search
  import opened LinkedEntries

  ghost predicate Operations(l: Layout, stack: seq<nat>) {
    forall k :: 0 <= k < |stack| ==> stack[k] < |l.call|
  }

  ghost function NodeSet<I, O>(nodes: seq<Node<I, O>>): set<Node<I, O>> {
    set x | x in nodes
  }

  /** The heap holds the list with exactly the operations of `stack` lifted, in this order. */
  ghost predicate Woven<I, O>(l: Layout, nodes: seq<Node<I, O>>, head: Node<I, O>, stack: seq<nat>)
    reads nodes, head
  {
    var holds :=
      && Laid(l, nodes, head)
      && Operations(l, stack)
      && Linked(ListAt(l, nodes, head, stack))
      && Stacked(FramesOf(l, nodes, head, stack), ListAt(l, nodes, head, stack), NodeSet(nodes));
    holds
  }

  lemma FramesSnoc<I, O>(l: Layout, nodes: seq<Node<I, O>>, head: Node<I, O>, stack: seq<nat>, a: nat)
    requires Laid(l, nodes, head) && Operations(l, stack) && a < |l.call|
    ensures Operations(l, stack + [a])
    ensures FramesOf(l, nodes, head, stack + [a]) ==
            FramesOf(l, nodes, head, stack) + [Frame(ListAt(l, nodes, head, stack), CallPlace(l, stack, a),
                ReturnPlace(l, stack, a))]
  {
    assert (stack + [a])[..|stack|] == stack;
  }

  /** Lifts operation `a`. */
  method LiftOperation<I, O>(entry: Node<I, O>, ghost l: Layout, ghost nodes: seq<Node<I, O>>, ghost head: Node<I, O>,
                             ghost stack: seq<nat>, ghost a: nat)
    requires Woven(l, nodes, head, stack)
    requires a < |l.call| && a !in stack && entry == nodes[l.call[a]]
    modifies nodes, head
    ensures Woven(l, nodes, head, stack + [a])
  {
    PlacesOf(l, nodes, head, stack, a);
    FramesSnoc(l, nodes, head, stack, a);
    LiftTop(entry, FramesOf(l, nodes, head, stack), ListAt(l, nodes, head, stack), CallPlace(l, stack, a),
        ReturnPlace(l, stack, a), NodeSet(nodes));
  }

  /** Puts back the operation lifted last. */
  method UnliftOperation<I, O>(entry: Node<I, O>, ghost l: Layout, ghost nodes: seq<Node<I, O>>, ghost head: Node<I, O>,
                               ghost stack: seq<nat>, ghost a: nat)
    requires Woven(l, nodes, head, stack + [a])
    requires Operations(l, stack) && a < |l.call| && a !in stack && entry == nodes[l.call[a]]
    modifies nodes, head
    ensures Woven(l, nodes, head, stack)
  {
    PlacesOf(l, nodes, head, stack, a);
    FramesSnoc(l, nodes, head, stack, a);
    UnliftTop(entry, FramesOf(l, nodes, head, stack), ListAt(l, nodes, head, stack), CallPlace(l, stack, a),
        ReturnPlace(l, stack, a), NodeSet(nodes));
  }

  // ---------------------------------------------------------------- following the links

  lemma OnIsLive<I, O>(l: Layout, h: seq<Entry<I, O>>, done: seq<nat>)
    requires Describes(l, h)
    ensures forall k: nat :: On(l, done, k) <==> Live(h, done, k)
  {
  }

  /** The node behind the place before position `k` is that of the first linked position from `k` on. */
  lemma SuccessorAt<I, O>(l: Layout, h: seq<Entry<I, O>>, nodes: seq<Node<I, O>>, head: Node<I, O>, done: seq<nat>,
        k: nat)
    requires Describes(l, h) && |nodes| == |l.owner| && k <= |h|
    ensures Successor(ListAt(l, nodes, head, done), Rank(l, done, k)) == NodeAt(0, nodes, NextLive(h, done, k))
  {
    var q := NextLive(h, done, k);
    OnIsLive(l, h, done);
    RankSkips(l, done, k, q);
    if q < |h| {
      ListPlaces(l, nodes, head, done, q);
    }
  }

  /** The sentinel leads to the first linked node. */
  lemma FirstNode<I, O>(l: Layout, h: seq<Entry<I, O>>, nodes: seq<Node<I, O>>, head: Node<I, O>, stack: seq<nat>)
    requires Describes(l, h) && Woven(l, nodes, head, stack)
    ensures head.next == NodeAt(0, nodes, NextLive(h, stack, 0))
  {
    SuccessorAt(l, h, nodes, head, stack, 0);
    assert ListAt(l, nodes, head, stack)[0].next == Successor(ListAt(l, nodes, head, stack), 0);
  }

  /** A linked node leads to the next linked one. */
  lemma NextNode<I, O>(l: Layout, h: seq<Entry<I, O>>, nodes: seq<Node<I, O>>, head: Node<I, O>, stack: seq<nat>,
        p: nat)
    requires Describes(l, h) && Woven(l, nodes, head, stack)
    requires Live(h, stack, p)
    ensures nodes[p].next == NodeAt(0, nodes, NextLive(h, stack, p + 1))
  {
    OnIsLive(l, h, stack);
    ListPlaces(l, nodes, head, stack, p);
    SuccessorAt(l, h, nodes, head, stack, p + 1);
    assert Rank(l, stack, p + 1) == 1 + Rank(l, stack, p);
    assert ListAt(l, nodes, head, stack)[1 + Rank(l, stack, p)].next ==
        Successor(ListAt(l, nodes, head, stack), 1 + Rank(l, stack, p));
  }

  /** Lifts an operation and goes back to the first linked node. */
  method LiftAndRestart<I, O>(entry: Node<I, O>, head: Node<I, O>, ghost l: Layout, ghost h: seq<Entry<I, O>>,
        ghost nodes: seq<Node<I, O>>, ghost stack: seq<nat>, ghost a: nat)
    returns (first: Node?<I, O>)
    requires Describes(l, h) && Woven(l, nodes, head, stack)
    requires a < |l.call| && a !in stack && entry == nodes[l.call[a]]
    modifies nodes, head
    ensures Woven(l, nodes, head, stack + [a])
    ensures first == NodeAt(0, nodes, NextLive(h, stack + [a], 0))
  {
    LiftOperation(entry, l, nodes, head, stack, a);
    FirstNode(l, h, nodes, head, stack + [a]);
    first := head.next;
  }

  /** Puts the last lifted operation back and goes on behind its call. */
  method UnliftAndResume<I, O>(entry: Node<I, O>, ghost head: Node<I, O>, ghost l: Layout, ghost h: seq<Entry<I, O>>,
        ghost nodes: seq<Node<I, O>>, ghost stack: seq<nat>, ghost a: nat)
    returns (next: Node?<I, O>)
    requires Describes(l, h) && Woven(l, nodes, head, stack + [a])
    requires Operations(l, stack) && a < |l.call| && a !in stack && entry == nodes[l.call[a]]
    modifies nodes, head
    ensures Woven(l, nodes, head, stack)
    ensures next == NodeAt(0, nodes, NextLive(h, stack, l.call[a] + 1))
  {
    UnliftOperation(entry, l, nodes, head, stack, a);
    ResumeNode(l, h, nodes, head, stack, a);
    next := entry.next;
  }

  lemma ResumeNode<I, O>(l: Layout, h: seq<Entry<I, O>>, nodes: seq<Node<I, O>>, head: Node<I, O>, stack: seq<nat>,
        a: nat)
    requires Describes(l, h) && Woven(l, nodes, head, stack)
    requires a < |l.call| && a !in stack
    ensures nodes[l.call[a]].next == NodeAt(0, nodes, NextLive(h, stack, l.call[a] + 1))
  {
    assert Live(h, stack, l.call[a]);
    NextNode(l, h, nodes, head, stack, l.call[a]);
  }

  lemma WovenEmpty<I, O>(l: Layout, h: seq<Entry<I, O>>, nodes: seq<Node<I, O>>, head: Node<I, O>)
    requires Built(l, h, 0, nodes)
    requires head !in nodes && head.id == -1
    requires Linked([head] + nodes)
    ensures Woven(l, nodes, head, [])
  {
    assert forall k :: 0 <= k < |nodes| ==> nodes[k] == ([head] + nodes)[k + 1];
    BuiltLaid(l, h, nodes, head);
    InitialList(l, nodes, head);
    var frames, list := FramesOf(l, nodes, head, []), ListAt(l, nodes, head, []);
    assert frames == [] && list == [head] + nodes;
    assert Linked(list);
    assert Reaches(frames, list);
    assert Stacked(frames, list, NodeSet(nodes));
  }

  /** Building the list and putting the sentinel in front: nothing is lifted yet. */
  method Weave<I, O>(h: seq<Entry<I, O>>, ghost l: Layout)
    returns (entry: Node?<I, O>, n: nat, head: Node<I, O>, ghost nodes: seq<Node<I, O>>)
    requires Describes(l, h)
    ensures fresh(head) && forall k :: 0 <= k < |nodes| ==> fresh(nodes[k])
    ensures entry == NodeAt(0, nodes, 0)
    ensures n == |h| / 2
    ensures Built(l, h, 0, nodes)
    ensures Woven(l, nodes, head, [])
  {
    entry, nodes := MakeLinkedEntries(h, l);
    n := Length(entry, nodes);
    n := n / 2;
    head := AddSentinel(entry, nodes);
    WovenEmpty(l, h, nodes, head);
  }

  method AddSentinel<I, O>(entry: Node?<I, O>, ghost nodes: seq<Node<I, O>>) returns (head: Node<I, O>)
    requires Linked(nodes)
    requires entry == if nodes == [] then null else nodes[0]
    modifies nodes
    ensures fresh(head) && head !in nodes && head.id == -1
    ensures Linked([head] + nodes)
  {
    head := new Node(Nothing, null, -1);
    assert [] + nodes == nodes && [] + [head] + nodes == [head] + nodes;
    InsertBefore(head, entry, [], nodes);
  }
}
