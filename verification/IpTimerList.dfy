/** The timer list as linked nodes (dpi/IpFragment.cc). The program takes a timer
    out of the list when it finds a queue, and again when it frees or restarts
    it; the second removal works on the links the node still holds. */
module IpTimerList {

  class TimerNode {
    var prev: TimerNode?
    var next: TimerNode?
    var expires: int

    constructor (expires: int)
      ensures this.expires == expires
    {
      this.expires := expires;
      prev, next := null, null;
    }
  }

  ghost function At(nodes: seq<TimerNode>, i: int): TimerNode? {
    if 0 <= i < |nodes| then nodes[i] else null
  }

  ghost predicate Distinct(nodes: seq<TimerNode>) {
    forall i, j :: 0 <= i < j < |nodes| ==> nodes[i] != nodes[j]
  }

  ghost predicate Linked(nodes: seq<TimerNode>)
    reads nodes
  {
    && (forall i {:trigger nodes[i].next} :: 0 <= i < |nodes| ==> nodes[i].next == At(nodes, i + 1))
    && (forall i {:trigger nodes[i].prev} :: 0 <= i < |nodes| ==> nodes[i].prev == At(nodes, i - 1))
  }

  class TimerList {
    var head: TimerNode?
    var tail: TimerNode?
    ghost var nodes: seq<TimerNode>

    ghost predicate Valid()
      reads this, nodes
    {
      Distinct(nodes) && Linked(nodes) && head == At(nodes, 0) && tail == At(nodes, |nodes| - 1)
    }

    /** The node has been taken out from position `k`, and nothing has changed since. */
    ghost predicate Detached(x: TimerNode, k: nat)
      reads this, nodes, x
    {
      k <= |nodes| && x !in nodes && x.prev == At(nodes, k - 1) && x.next == At(nodes, k)
    }

    constructor ()
      ensures Valid() && nodes == []
    {
      head, tail, nodes := null, null, [];
    }

    method AddTimer(x: TimerNode)
      requires Valid() && x !in nodes
      modifies this, nodes`next, x`next, x`prev
      ensures Valid() && nodes == old(nodes) + [x]
    {
      ghost var was := nodes;
      assert forall i :: 0 <= i < |was| ==> was[i] in was;
      Alone(was, |was| - 1);
      if tail != null {
        tail.next := x;
        x.prev := tail;
        x.next := null;
        tail := x;
      } else {
        x.prev := null;
        x.next := null;
        tail := x;
        head := x;
      }
      nodes := nodes + [x];
      LinkedAppend(was, x);
    }

    /** The pointer updates of a removal, on a node that is in the list or was just taken out of it. */
    method Bypass(x: TimerNode, ghost k: nat)
      requires Valid()
      requires (k < |nodes| && nodes[k] == x) || Detached(x, k)
      modifies this`head, this`tail, nodes`next, nodes`prev
      ensures x.prev == old(x.prev) && x.next == old(x.next)
      ensures old(k < |nodes| && nodes[k] == x) ==>
        && head == (if k == 0 then At(nodes, 1) else At(nodes, 0))
        && tail == (if k == |nodes| - 1 then At(nodes, k - 1) else At(nodes, |nodes| - 1))
        && (forall i {:trigger nodes[i].next} :: 0 <= i < |nodes| && i != k - 1 ==> nodes[i].next == At(nodes, i + 1))
        && (forall i {:trigger nodes[i].prev} :: 0 <= i < |nodes| && i != k + 1 ==> nodes[i].prev == At(nodes, i - 1))
        && (k > 0 ==> nodes[k - 1].next == At(nodes, k + 1))
        && (k + 1 < |nodes| ==> nodes[k + 1].prev == At(nodes, k - 1))
      ensures old(Detached(x, k)) ==> Valid() && head == old(head) && tail == old(tail)
    {
      hide Distinct;
      Alone(nodes, k - 1);
      Alone(nodes, k);
      Alone(nodes, k + 1);
      if x.prev != null {
        x.prev.next := x.next;
      } else {
        head := x.next;
      }
      if x.next != null {
        x.next.prev := x.prev;
      } else {
        tail := x.prev;
      }
    }

    /** Take a timer out of the list. The node keeps its links, so doing it again
        at once writes back what is already there: the list does not change. */
    method DelTimer(x: TimerNode, ghost k: nat)
      requires Valid()
      requires (k < |nodes| && nodes[k] == x) || Detached(x, k)
      modifies this, nodes`next, nodes`prev
      ensures Valid() && Detached(x, k)
      ensures old(k < |nodes| && nodes[k] == x) ==> nodes == old(nodes)[..k] + old(nodes)[k + 1..]
      ensures old(Detached(x, k)) ==> nodes == old(nodes)
    {
      hide Distinct, Linked;
      ghost var was := nodes;
      Bypass(x, k);
      if k < |nodes| && nodes[k] == x {
        LinkedWithout(was, k);
        DistinctWithout(was, k);
        nodes := was[..k] + was[k + 1..];
      }
    }

    /** `ipFind` followed by `ipFree`: the second removal is harmless. */
    method DelTwice(x: TimerNode, ghost k: nat)
      requires Valid() && k < |nodes| && nodes[k] == x
      modifies this, nodes`next, nodes`prev
      ensures Valid() && nodes == old(nodes)[..k] + old(nodes)[k + 1..]
    {
      ghost var was := nodes;
      DelTimer(x, k);
      assert forall i :: 0 <= i < |nodes| ==> nodes[i] in nodes && nodes[i] in was;
      DelTimer(x, k);
    }

    /** `ipFind` followed by a restart: the timer moves to the end. */
    method Restart(x: TimerNode, ghost k: nat, expires: int)
      requires Valid() && k < |nodes| && nodes[k] == x
      modifies this, nodes, x
      ensures Valid() && nodes == old(nodes)[..k] + old(nodes)[k + 1..] + [x] && x.expires == expires
    {
      ghost var was := nodes;
      DelTimer(x, k);
      assert forall i :: 0 <= i < |nodes| ==> nodes[i] in nodes && nodes[i] in was;
      DelTimer(x, k);
      x.expires := expires;
      AddTimer(x);
    }
  }

  lemma Alone(nodes: seq<TimerNode>, k: int)
    requires Distinct(nodes)
    ensures forall i :: 0 <= i < |nodes| && i != k ==> nodes[i] != At(nodes, k)
  {
  }

  lemma DistinctWithout(nodes: seq<TimerNode>, k: nat)
    requires Distinct(nodes) && k < |nodes|
    ensures Distinct(nodes[..k] + nodes[k + 1..]) && nodes[k] !in nodes[..k] + nodes[k + 1..]
  {
  }

  lemma LinkedAppend(was: seq<TimerNode>, x: TimerNode)
    requires forall i {:trigger was[i].next} :: 0 <= i < |was| - 1 ==> was[i].next == At(was, i + 1)
    requires forall i {:trigger was[i].prev} :: 0 <= i < |was| ==> was[i].prev == At(was, i - 1)
    requires |was| > 0 ==> was[|was| - 1].next == x
    requires x.prev == At(was, |was| - 1) && x.next == null
    requires x !in was && Distinct(was)
    ensures Linked(was + [x]) && Distinct(was + [x])
  {
    hide Distinct;
    AppendDistinct(was, x);
  }

  lemma AppendDistinct(was: seq<TimerNode>, x: TimerNode)
    requires x !in was && Distinct(was)
    ensures Distinct(was + [x])
  {
    assert forall i :: 0 <= i < |was| ==> was[i] in was;
  }

  lemma LinkedWithout(was: seq<TimerNode>, k: nat)
    requires k < |was|
    requires forall i {:trigger was[i].next} :: 0 <= i < |was| && i != k - 1 ==> was[i].next == At(was, i + 1)
    requires forall i {:trigger was[i].prev} :: 0 <= i < |was| && i != k + 1 ==> was[i].prev == At(was, i - 1)
    requires k > 0 ==> was[k - 1].next == At(was, k + 1)
    requires k + 1 < |was| ==> was[k + 1].prev == At(was, k - 1)
    ensures Linked(was[..k] + was[k + 1..])
  {
    var nodes := was[..k] + was[k + 1..];
    forall i | 0 <= i < |nodes|
      ensures nodes[i].next == At(nodes, i + 1) && nodes[i].prev == At(nodes, i - 1)
    {
      assert nodes[i] == was[if i < k then i else i + 1];
    }
  }
}
