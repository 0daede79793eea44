/** The wait set of the monitor: a circular doubly-linked list with a sentinel. */
module WaitRing {

  class Node {
    var next: Node?
    var prev: Node?

    constructor () {
      next, prev := null, null;
    }
  }

  function Succ(c: seq<Node>, i: nat): Node
    requires i < |c|
  {
    if i + 1 < |c| then c[i + 1] else c[0]
  }

  /** The links lead once around, forwards and backwards. */
  ghost predicate Linked(c: seq<Node>)
    reads set n | n in c
  {
    && (forall i, j :: 0 <= i < j < |c| ==> c[i] != c[j])
    && (forall i :: 0 <= i < |c| ==> c[i].next == Succ(c, i) && Succ(c, i).prev == c[i])
  }

  class Ring {
    var count: nat
    const head: Node
    /** The elements from front to back. */
    ghost var nodes: seq<Node>

    ghost function Cycle(): seq<Node>
      reads this
    {
      [head] + nodes
    }

    ghost predicate Valid()
      reads this, set n | n in Cycle()
    {
      count == |nodes| && Linked(Cycle())
    }

    constructor ()
      ensures Valid() && nodes == [] && fresh(head)
    {
      count := 0;
      head := new Node();
      nodes := [];
      new;
      head.next, head.prev := head, head;
    }

    /** Add to the back. */
    method Add(n: Node)
      requires Valid() && n !in Cycle()
      modifies this, n, set m | m in Cycle()
      ensures Valid() && nodes == old(nodes) + [n]
    {
      ghost var c := Cycle();
      var last := head.prev;
      assert last == c[|c| - 1] by { assert Succ(c, |c| - 1) == head; }
      count := count + 1;
      n.prev := last;
      n.next := head;
      last.next := n;
      head.prev := n;
      nodes := nodes + [n];
      assert Cycle() == c + [n];
    }

    /** Remove a node from anywhere. */
    method Remove(n: Node, ghost k: nat)
      requires Valid() && k < |nodes| && nodes[k] == n
      modifies this, set m | m in Cycle()
      ensures Valid() && nodes == old(nodes[..k] + nodes[k + 1..])
    {
      ghost var c, q := Cycle(), nodes[..k] + nodes[k + 1..];
      WithoutElement(head, nodes, k);
      Bypass(n, c, k);
      count := count - 1;
      nodes := q;
    }

    /** Move all elements to an empty list, keeping their order. */
    method FlushTo(lst: Ring)
      requires Valid() && lst.Valid() && lst != this && lst.nodes == [] && lst.head !in Cycle()
      modifies this, lst, lst.head, set m | m in Cycle()
      ensures Valid() && lst.Valid()
      ensures nodes == [] && lst.nodes == old(nodes)
    {
      if count != 0 {
        lst.count := count;
        Splice(head, lst.head, Cycle());
        ghost var c := Cycle();
        count, lst.nodes := 0, nodes;
        nodes := [];
        assert lst.Cycle() == c[0 := lst.head];
        assert Cycle() == [head];
      }
    }
  }

  lemma WithoutElement(head: Node, nodes: seq<Node>, k: nat)
    requires k < |nodes|
    ensures var c := [head] + nodes; [head] + (nodes[..k] + nodes[k + 1..]) == c[..k + 1] + c[k + 2..]
  {
  }

  /** The two writes of remove. */
  method Bypass(n: Node, ghost c: seq<Node>, ghost k: nat)
    requires Linked(c) && k + 1 < |c| && c[k + 1] == n
    modifies set m | m in c
    ensures Linked(c[..k + 1] + c[k + 2..])
  {
    BothWays(c);
    assert n.prev == Pred(c, k + 1) == c[k] && n.next == Succ(c, k + 1);
    var before, after := n.prev, n.next;
    before.next := after;
    after.prev := before;
    Unlink(c, k);
  }

  /** The writes of flush_to: the elements now hang between another sentinel's links. */
  method Splice(head: Node, other: Node, ghost c: seq<Node>)
    requires Linked(c) && |c| > 1 && c[0] == head && other !in c
    modifies other, set m | m in c
    ensures Linked(c[0 := other]) && Linked([head])
  {
    BothWays(c);
    assert head.next == Succ(c, 0) == c[1] && head.prev == Pred(c, 0) == c[|c| - 1];
    other.next := head.next;
    other.prev := head.prev;
    head.next.prev := other;
    head.prev.next := other;
    head.next, head.prev := head, head;
    Rehead(c, other);
  }

  function Pred(c: seq<Node>, i: nat): Node
    requires i < |c|
  {
    if i > 0 then c[i - 1] else c[|c| - 1]
  }

  ghost predicate Distinct(c: seq<Node>) {
    forall i, j :: 0 <= i < j < |c| ==> c[i] != c[j]
  }

  lemma BothWays(c: seq<Node>)
    requires Linked(c)
    ensures Distinct(c)
    ensures forall i :: 0 <= i < |c| ==> c[i].next == Succ(c, i) && c[i].prev == Pred(c, i)
  {
    forall i | 0 <= i < |c| ensures c[i].prev == Pred(c, i) {
      assert Succ(c, if i > 0 then i - 1 else |c| - 1) == c[i];
    }
  }

  /** Two links bypass element k + 1: it is out of the cycle. */
  lemma Unlink(c: seq<Node>, k: nat)
    requires Distinct(c) && k + 1 < |c|
    requires forall i :: 0 <= i < |c| ==> c[i].next == if i == k then Succ(c, k + 1) else Succ(c, i)
    requires forall i :: 0 <= i < |c| ==> c[i].prev == if c[i] == Succ(c, k + 1) then c[k] else Pred(c, i)
    ensures Linked(c[..k + 1] + c[k + 2..])
  {
    var d := c[..k + 1] + c[k + 2..];
    forall i | 0 <= i < |d| ensures d[i].next == Succ(d, i) && Succ(d, i).prev == d[i] {
      var j := if i <= k then i else i + 1;
      assert d[i] == c[j];
      var j' := if i == k then (if k + 2 < |c| then k + 2 else 0) else if j + 1 < |c| then j + 1 else 0;
      assert Succ(d, i) == c[j'] && (i != k ==> Pred(c, j') == c[j]);
    }
  }

  /** The sentinel of the cycle is exchanged. */
  lemma Rehead(c: seq<Node>, head: Node)
    requires Distinct(c) && |c| > 1 && head !in c
    requires head.next == c[1] && head.prev == c[|c| - 1]
    requires forall i :: 1 <= i < |c| ==> c[i].next == if i == |c| - 1 then head else Succ(c, i)
    requires forall i :: 1 <= i < |c| ==> c[i].prev == if i == 1 then head else Pred(c, i)
    ensures Linked(c[0 := head])
  {
    var d := c[0 := head];
    forall i | 0 <= i < |d| ensures d[i].next == Succ(d, i) && Succ(d, i).prev == d[i] {
      assert Succ(d, i) == if i + 1 < |c| then c[i + 1] else head;
    }
  }
}
