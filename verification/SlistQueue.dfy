/** The intrusive singly linked queue of util/list_node.hpp. */
module SlistQueue {

  class Node {
    var next: Node?

    constructor ()
      ensures next == null
    {
      next := null;
    }
  }

  /** `nodes` are distinct and linked in order, and the last one ends the chain. */
  ghost predicate Linked(nodes: seq<Node>)
    reads nodes
  {
    && (forall i, j | 0 <= i < j < |nodes| :: nodes[i] != nodes[j])
    && (forall i {:trigger nodes[i].next} | 0 <= i < |nodes| ::
          nodes[i].next == if i + 1 < |nodes| then nodes[i + 1] else null)
  }

  ghost predicate Starts(head: Node?, nodes: seq<Node>) {
    head == if nodes == [] then null else nodes[0]
  }

  class Queue {
    var head: Node?
    var tail: Node?

    /** The queue's contents, front first. */
    ghost var nodes: seq<Node>

    ghost predicate Valid()
      reads this, nodes
    {
      && Linked(nodes)
      && Starts(head, nodes)
      && tail == if nodes == [] then null else nodes[|nodes| - 1]
    }

    /** Adopts an existing chain by walking to its end. */
    constructor (chain: Node?, ghost all: seq<Node>)
      requires Linked(all) && Starts(chain, all)
      ensures Valid() && nodes == all
    {
      head := chain;
      nodes := all;
      new;
      var it := chain;
      ghost var i := 0;
      while it != null && it.next != null
        invariant all == [] ==> it == null
        invariant all != [] ==> i < |all| && it == all[i]
        decreases |all| - i
      {
        it := it.next;
        i := i + 1;
      }
      tail := it;
    }

    method AddFront(node: Node)
      requires Valid() && node !in nodes && (nodes == [] ==> node.next == null)
      modifies this, node
      ensures Valid() && nodes == [node] + old(nodes)
    {
      if head == null {
        head, tail := node, node;
      } else {
        var was := head;
        head := node;
        head.next := was;
      }
      nodes := [node] + nodes;
    }

    method AddTail(node: Node)
      requires Valid() && node !in nodes && node.next == null
      modifies this, tail
      ensures Valid() && nodes == old(nodes) + [node]
    {
      if head == null {
        head, tail := node, node;
      } else {
        tail.next := node;
        tail := node;
      }
      nodes := nodes + [node];
    }

    method Front() returns (node: Node?)
      requires Valid()
      ensures Starts(node, nodes)
    {
      node := head;
    }

    /** Removes the front node, if any, and leaves it ready to be queued again. */
    method PopFront()
      requires Valid()
      modifies this, head
      ensures Valid() && nodes == (if old(nodes) == [] then [] else old(nodes)[1..])
      ensures old(nodes) != [] ==> old(nodes)[0].next == null && old(nodes)[0] !in nodes
    {
      if head != null {
        if head == tail {
          assert |nodes| == 1 by {
            assert nodes[0] == nodes[|nodes| - 1];
          }
          head, tail := null, null;
        } else {
          var node := head.next;
          head.next := null;
          head := node;
        }
        nodes := nodes[1..];
      }
    }

    /** Moves every node of `list` behind this queue's in one step, and empties `list`. */
    method Splice(list: Queue)
      requires Valid() && list.Valid() && list != this
      requires forall n | n in list.nodes :: n !in nodes
      modifies this, list, tail
      ensures Valid() && list.Valid()
      ensures nodes == old(nodes) + old(list.nodes) && list.nodes == []
    {
      hide Linked;
      ghost var first, second := nodes, list.nodes;
      EmptyChain();
      if list.head != null {
        if head == null {
          head, tail := list.head, list.head;
          assert first + second == second;
        } else {
          LinkAfterTail(list.head, second);
          tail := list.head;
        }
        tail := list.tail;
        nodes := first + second;
        list.head, list.tail, list.nodes := null, null, [];
      } else {
        assert first + second == first;
      }
    }

    /** The link that joins the two chains. */
    method LinkAfterTail(node: Node, ghost second: seq<Node>)
      requires Valid() && nodes != [] && second != [] && Linked(second) && node == second[0]
      requires forall n | n in second :: n !in nodes
      modifies tail
      ensures Linked(nodes + second)
    {
      ghost var last := |nodes| - 1;
      assert tail == nodes[last] && tail !in second;
      tail.next := node;
      assert forall i | 0 <= i < last :: nodes[i] != nodes[last];
      LinkedAppend(nodes, second);
    }

    method IsEmpty() returns (empty: bool)
      requires Valid()
      ensures empty <==> nodes == []
    {
      empty := head == null;
    }

    method Count() returns (count: nat)
      requires Valid()
      ensures count == |nodes|
    {
      count := 0;
      var p := head;
      while p != null
        invariant count <= |nodes|
        invariant p == if count < |nodes| then nodes[count] else null
        decreases |nodes| - count
      {
        count := count + 1;
        p := p.next;
      }
    }
  }

  lemma EmptyChain()
    ensures Linked([])
  {
  }

  /** Two chains, the last node of the first pointing at the second. */
  lemma LinkedAppend(first: seq<Node>, second: seq<Node>)
    requires second != [] && Linked(second)
    requires forall i, j | 0 <= i < j < |first| :: first[i] != first[j]
    requires forall n | n in second :: n !in first
    requires forall i {:trigger first[i].next} | 0 <= i < |first| ::
               first[i].next == if i + 1 < |first| then first[i + 1] else second[0]
    ensures Linked(first + second)
  {
    var all := first + second;
    forall i | 0 <= i < |all|
      ensures all[i].next == if i + 1 < |all| then all[i + 1] else null
    {
      if i < |first| {
        assert all[i] == first[i];
      } else {
        assert all[i] == second[i - |first|];
      }
    }
    forall i, j | 0 <= i < j < |all|
      ensures all[i] != all[j]
    {
      if i < |first| <= j {
        assert second[j - |first|] in second;
      }
    }
  }

  /** A linked chain determines its nodes: nothing but `head` and the links says what the queue holds. */
  lemma {:induction false} ChainIsUnique(head: Node?, a: seq<Node>, b: seq<Node>)
    requires Linked(a) && Linked(b) && Starts(head, a) && Starts(head, b)
    ensures a == b
    decreases |a|
  {
    if a != [] {
      var next := a[0].next;
      assert Starts(next, a[1..]) && Starts(next, b[1..]);
      LinkedTail(a);
      LinkedTail(b);
      ChainIsUnique(next, a[1..], b[1..]);
      assert a == [a[0]] + a[1..] && b == [b[0]] + b[1..];
    }
  }

  lemma LinkedTail(a: seq<Node>)
    requires Linked(a) && a != []
    ensures Linked(a[1..])
  {
  }
}
