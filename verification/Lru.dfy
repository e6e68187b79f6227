/**
 The LRU list of internal/buffer/buffer.go: blocks linked both ways, most
 recently written first. The methods move the links; their contracts say what
 list the links spell out.
 */
module Lru {
  import opened BufferSpec
  import opened BufferSteps

  /** The links of one cached block. */
  class Node {
    const off: int
    var prev: Node?
    var next: Node?

    constructor (off: int)
      ensures this.off == off && prev == null && next == null
    {
      this.off := off;
      prev, next := null, null;
    }
  }

  function Offs(q: seq<Node>): seq<int> {
    seq(|q|, i requires 0 <= i < |q| => q[i].off)
  }

  ghost function Cut(q: seq<Node>, k: nat): seq<Node>
    requires k < |q|
  {
    q[..k] + q[k + 1..]
  }

  lemma CutIndex(q: seq<Node>, k: nat)
    requires k < |q|
    ensures |Cut(q, k)| == |q| - 1
    ensures forall i :: 0 <= i < |q| - 1 ==> Cut(q, k)[i] == q[if i < k then i else i + 1]
  {
  }

  ghost predicate Distinct(q: seq<Node>) {
    forall i, j :: 0 <= i < j < |q| ==> q[i] != q[j]
  }

  ghost predicate MapsTo(nodes: map<int, Node>, q: seq<Node>) {
    && (forall o :: o in nodes ==> nodes[o].off == o && nodes[o] in q)
    && (forall n :: n in q ==> n.off in nodes && nodes[n.off] == n)
  }

  /** Filtering one entry out of a list without repeats cuts it out where it stands. */
  lemma {:induction false} KeepAllBut(q: seq<int>, k: nat, ks: set<int>)
    requires NoDup(q) && k < |q|
    requires forall i :: 0 <= i < |q| ==> (q[i] in ks <==> i != k)
    ensures Keep(q, ks) == q[..k] + q[k + 1..]
  {
    if k == 0 {
      assert forall j :: 0 < j < |q| ==> q[1..][j - 1] == q[j] != q[0];
      KeepAll(q[1..], ks);
    } else {
      assert NoDup(q[1..]) by {
        assert forall j :: 0 < j < |q| ==> q[1..][j - 1] == q[j];
      }
      KeepAllBut(q[1..], k - 1, ks);
      assert q[1..][..k - 1] == q[1..k] && q[1..][k..] == q[k + 1..];
      assert [q[0]] + q[1..k] == q[..k];
    }
  }

  lemma OffsDistinct(nodes: map<int, Node>, q: seq<Node>)
    requires MapsTo(nodes, q) && Distinct(q)
    ensures NoDup(Offs(q)) && nodes.Keys == set o | o in Offs(q)
  {
    forall i, j | 0 <= i < j < |q|
      ensures q[i].off != q[j].off
    {
      assert nodes[q[i].off] == q[i] && nodes[q[j].off] == q[j];
    }
    forall o | o in nodes
      ensures o in Offs(q)
    {
      var k :| 0 <= k < |q| && q[k] == nodes[o];
      assert Offs(q)[k] == o;
    }
  }

  /** Cutting the node at k out of the list filters its offset out. */
  lemma OffsWithout(q: seq<Node>, k: nat, ks: set<int>)
    requires k < |q| && NoDup(Offs(q))
    requires forall o :: o in Offs(q) ==> (o in ks <==> o != q[k].off)
    ensures Keep(Offs(q), ks) == Offs(Cut(q, k))
  {
    forall i | 0 <= i < |q|
      ensures Offs(q)[i] in ks <==> i != k
    {
      assert Offs(q)[i] in Offs(q) && Offs(q)[k] == q[k].off;
    }
    KeepAllBut(Offs(q), k, ks);
  }

  lemma MapsToWithout(nodes: map<int, Node>, q: seq<Node>, k: nat)
    requires MapsTo(nodes, q) && Distinct(q) && k < |q|
    ensures MapsTo(nodes - {q[k].off}, Cut(q, k))
    ensures forall n :: n in Cut(q, k) ==> n in q
  {
    var left := Cut(q, k);
    forall n | n in q && n != q[k]
      ensures n in left
    {
      var i :| 0 <= i < |q| && q[i] == n;
      assert left[if i < k then i else i - 1] == n;
    }
    forall n | n in left
      ensures n in q && n != q[k]
    {
      var i :| 0 <= i < |left| && left[i] == n;
      assert q[if i < k then i else i + 1] == n;
    }
  }

  class LruList {
    var nodes: map<int, Node>
    var head: Node?
    var tail: Node?
    ghost var order: seq<Node>  // what the links spell out, head first
    ghost var repr: set<Node>   // every node ever linked

    constructor ()
      ensures Valid() && Offsets() == [] && nodes == map[] && repr == {}
    {
      nodes := map[];
      head, tail := null, null;
      order := [];
      repr := {};
    }

    /** prev and next are mutually inverse and run through `order`, each node once. */
    ghost predicate Linked()
      reads this`order, this`head, this`tail, this`repr, repr
    {
      && (forall i :: 0 <= i < |order| ==> order[i] in repr)
      && Distinct(order)
      && head == (if order == [] then null else order[0])
      && tail == (if order == [] then null else order[|order| - 1])
      && (forall i {:trigger order[i].prev} :: 0 <= i < |order| ==>
            order[i].prev == (if i == 0 then null else order[i - 1]))
      && (forall i {:trigger order[i].next} :: 0 <= i < |order| ==>
            order[i].next == (if i == |order| - 1 then null else order[i + 1]))
    }

    ghost predicate Valid()
      reads this, repr
    {
      Linked() && MapsTo(nodes, order)
    }

    /** The offsets of the cached blocks, most recently written first. */
    ghost function Offsets(): seq<int>
      reads this`order
    {
      Offs(order)
    }

    lemma Exact()
      requires Valid()
      ensures NoDup(Offsets()) && nodes.Keys == set o | o in Offsets()
    {
      OffsDistinct(nodes, order);
    }

    lemma TailOffset()
      requires Valid()
      ensures tail == null <==> Offsets() == []
      ensures tail != null ==> tail.off == Offsets()[|Offsets()| - 1]
    {
    }

    /** pushFrontLocked on the links alone. */
    method LinkFront(n: Node)
      requires Linked() && n !in order
      modifies this`head, this`tail, this`order, this`repr, repr, n
      ensures Linked() && order == [n] + old(order) && repr == old(repr) + {n}
    {
      ghost var was := order;
      n.prev := null;
      n.next := head;
      if head != null {
        head.prev := n;
      }
      head := n;
      if tail == null {
        tail := n;
      }
      order, repr := [n] + order, repr + {n};
      forall i | 0 <= i < |order|
        ensures order[i].next == (if i == |order| - 1 then null else order[i + 1])
        ensures order[i].prev == (if i == 0 then null else order[i - 1])
      {
        if i > 0 {
          assert order[i] == was[i - 1];
          assert i > 1 ==> order[i - 1] == was[i - 2];
          assert i < |was| ==> order[i + 1] == was[i];
        }
      }
    }

    /** unlinkLocked on the links alone: n stands at position k. */
    method LinkOut(n: Node, ghost k: nat)
      requires Linked() && k < |order| && order[k] == n
      modifies this`head, this`tail, this`order, repr
      ensures Linked() && order == old(Cut(order, k)) && n !in order
    {
      ghost var was := order;
      assert n.prev == (if k == 0 then null else was[k - 1]);
      assert n.next == (if k == |was| - 1 then null else was[k + 1]);
      assert k > 0 ==> was[k - 1] in repr;
      assert k + 1 < |was| ==> was[k + 1] in repr;
      if n.prev != null {
        n.prev.next := n.next;
      } else {
        head := n.next;
      }
      if n.next != null {
        n.next.prev := n.prev;
      } else {
        tail := n.prev;
      }
      n.prev, n.next := null, null;
      order := order[..k] + order[k + 1..];
      forall a | 0 <= a < |was| && a != k
        ensures was[a].next == (if a + 1 == k then if k + 1 < |was| then was[k + 1] else null
                                else if a + 1 < |was| then was[a + 1] else null)
        ensures was[a].prev == (if a == k + 1 then if k > 0 then was[k - 1] else null
                                else if a > 0 then was[a - 1] else null)
      {
      }
      CutIndex(was, k);
    }

    /** pushFrontLocked for a new block. */
    method PushFront(off: int)
      requires Valid() && off !in nodes
      modifies this, repr
      ensures Valid() && Offsets() == [off] + old(Offsets())
      ensures nodes.Keys == old(nodes.Keys) + {off}
      ensures fresh(repr - old(repr))
    {
      var n := new Node(off);
      ghost var was := order;
      hide Offs, MapsTo;
      Pushed(nodes, was, n);
      LinkFront(n);
      nodes := nodes[off := n];
    }

    /** unlinkLocked for a block that leaves the cache. */
    method Unlink(off: int)
      requires Valid() && off in nodes
      modifies this, repr
      ensures Valid() && nodes.Keys == old(nodes.Keys) - {off} && repr == old(repr)
      ensures Offsets() == Keep(old(Offsets()), old(nodes.Keys) - {off})
    {
      var n := nodes[off];
      ghost var k: nat :| k < |order| && order[k] == n;
      assert Distinct(order);
      Removed(nodes, order, k);
      hide Linked, Distinct, Cut, Keep, Offs, MapsTo;
      LinkOut(n, k);
      nodes := nodes - {off};
    }

    /** touchLocked */
    method Touch(off: int)
      requires Valid() && off in nodes
      modifies this, repr
      ensures Valid() && nodes.Keys == old(nodes.Keys) && repr == old(repr)
      ensures Offsets() == ToFront(old(Offsets()), off)
    {
      var n := nodes[off];
      ghost var k: nat :| k < |order| && order[k] == n;
      assert Distinct(order);
      Moved(nodes, order, k);
      if head == n {
        assert k == 0;
        assert [n] + Cut(order, 0) == order;
        return;
      }
      hide Linked, Distinct, Cut, Offs, MapsTo, ToFront;
      LinkOut(n, k);
      LinkFront(n);
    }

    /**
     evictOneLocked's walk: from the tail towards the head, the first block that
     passes the test, that is, the least recently written one.
     */
    method OldestWhere(test: int -> bool) returns (found: bool, off: int)
      requires Valid()
      ensures found ==> exists k :: OldestAt(Offsets(), test, k) && Offsets()[k] == off
      ensures !found ==> forall i :: 0 <= i < |Offsets()| ==> !test(Offsets()[i])
    {
      var n := tail;
      ghost var k := |order| - 1;
      found, off := false, 0;
      while n != null
        invariant -1 <= k < |order| && n == (if k < 0 then null else order[k])
        invariant forall i :: k < i < |order| ==> !test(Offsets()[i])
        decreases k
      {
        if test(n.off) {
          assert OldestAt(Offsets(), test, k);
          return true, n.off;
        }
        n := n.prev;
        k := k - 1;
      }
    }
  }

  /** Position k holds the least recently written entry that passes the test. */
  ghost predicate OldestAt(q: seq<int>, test: int -> bool, k: int) {
    0 <= k < |q| && test(q[k]) && forall i :: k < i < |q| ==> !test(q[i])
  }

  lemma Pushed(nodes: map<int, Node>, q: seq<Node>, n: Node)
    requires MapsTo(nodes, q) && n.off !in nodes
    ensures MapsTo(nodes[n.off := n], [n] + q) && n !in q
    ensures Offs([n] + q) == [n.off] + Offs(q)
  {
  }

  lemma Removed(nodes: map<int, Node>, q: seq<Node>, k: nat)
    requires MapsTo(nodes, q) && Distinct(q) && k < |q|
    ensures MapsTo(nodes - {q[k].off}, Cut(q, k))
    ensures forall n :: n in Cut(q, k) ==> n in q
    ensures Offs(Cut(q, k)) == Keep(Offs(q), nodes.Keys - {q[k].off})
  {
    hide Keep, Cut, Offs;
    MapsToWithout(nodes, q, k);
    OffsDistinct(nodes, q);
    OffsWithout(q, k, nodes.Keys - {q[k].off});
  }

  /** Moving the node at k to the front. */
  lemma Moved(nodes: map<int, Node>, q: seq<Node>, k: nat)
    requires MapsTo(nodes, q) && Distinct(q) && k < |q|
    ensures
      var moved := [q[k]] + Cut(q, k);
      && MapsTo(nodes, moved)
      && (forall n :: n in moved <==> n in q)
      && Offs(moved) == ToFront(Offs(q), q[k].off)
  {
    hide Keep, Cut, Offs;
    SameNodes(q, k);
    MapsToSame(nodes, q, [q[k]] + Cut(q, k));
    hide MapsTo;
    OffsDistinct(nodes, q);
    OffsOfAt(q, k);
    hide Distinct, NoDup;
    OffsWithout(q, k, (set x | x in Offs(q)) - {q[k].off});
    OffsOfFirst(q[k], Cut(q, k));
  }

  lemma MapsToSame(nodes: map<int, Node>, q: seq<Node>, r: seq<Node>)
    requires MapsTo(nodes, q) && forall n :: n in r <==> n in q
    ensures MapsTo(nodes, r)
  {
  }

  lemma OffsOfAt(q: seq<Node>, k: nat)
    requires k < |q|
    ensures q[k].off in Offs(q)
  {
    assert Offs(q)[k] == q[k].off;
  }

  lemma OffsOfFirst(n: Node, q: seq<Node>)
    ensures Offs([n] + q) == [n.off] + Offs(q)
  {
  }

  lemma SameNodes(q: seq<Node>, k: nat)
    requires k < |q|
    ensures forall n :: n in [q[k]] + Cut(q, k) <==> n in q
  {
    assert q == q[..k] + [q[k]] + q[k + 1..];
  }
}
