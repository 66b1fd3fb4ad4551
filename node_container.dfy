/**
 * The intrusive doubly linked FIFO list of src/node-container.ts.
 *
 * A list owns a permanent sentinel `head` and a movable `tail`; every node
 * after the sentinel carries one element. The ghost sequence `nodes` lists
 * the chain from `head` (index 0) to `tail` (last index), and `Repr` is the
 * set of objects the list may change.
 */
module NodeContainers {
  import opened Wrappers

  /** The message the list throws when asked to remove its sentinel. */
  const RootRemovalError: string := "cannot remove root head node."

  /** Position of the first occurrence of `x` in `s`. */
  function IndexOf<X(==)>(s: seq<X>, x: X): (i: nat)
    requires x in s
    ensures i < |s| && s[i] == x
    ensures forall j :: 0 <= j < i ==> s[j] != x
  {
    if s[0] == x then 0 else 1 + IndexOf(s[1..], x)
  }

  /** `ns[i]` and `ns[i + 1]` point at each other. */
  ghost predicate LinkedAt<T>(ns: seq<Node<T>>, i: int)
    requires 0 <= i < |ns| - 1
    reads ns[i], ns[i + 1]
  {
    ns[i].next == ns[i + 1] && ns[i + 1].prev == ns[i]
  }

  /**
   * Dropping position `i` of a chain keeps it free of duplicates, inside
   * `R` without the dropped node, and aligned with its elements.
   */
  lemma DropAt<T>(ns: seq<Node<T>>, cs: seq<T>, R: set<object>, i: int)
    requires 1 <= i < |ns| && |cs| == |ns| - 1
    requires forall a, b :: 0 <= a < b < |ns| ==> ns[a] != ns[b]
    requires forall k :: 0 <= k < |ns| ==> ns[k] in R
    requires forall k :: 0 <= k < |cs| ==> cs[k] == ns[k + 1].value
    ensures var ns', cs' := ns[..i] + ns[i + 1..], cs[..i - 1] + cs[i..];
      |cs'| == |ns'| - 1 &&
      (forall a, b :: 0 <= a < b < |ns'| ==> ns'[a] != ns'[b]) &&
      (forall k :: 0 <= k < |ns'| ==> ns'[k] in R - {ns[i]}) &&
      (forall k :: 0 <= k < |cs'| ==> cs'[k] == ns'[k + 1].value)
  {
    var ns', cs' := ns[..i] + ns[i + 1..], cs[..i - 1] + cs[i..];
    forall a, b | 0 <= a < b < |ns'|
      ensures ns'[a] != ns'[b]
    {
      var a', b' := if a < i then a else a + 1, if b < i then b else b + 1;
      assert ns'[a] == ns[a'] && ns'[b] == ns[b'];
    }
    forall k | 0 <= k < |ns'|
      ensures ns'[k] in R - {ns[i]}
    {
      var k' := if k < i then k else k + 1;
      assert ns'[k] == ns[k'];
    }
    forall k | 0 <= k < |cs'|
      ensures cs'[k] == ns'[k + 1].value
    {
      if k < i - 1 {
        assert cs'[k] == cs[k] && ns'[k + 1] == ns[k + 1];
      } else {
        assert cs'[k] == cs[k + 1] && ns'[k + 1] == ns[k + 2];
      }
    }
  }

  /** A list node; a fresh node is linked to nothing (createNode). */
  class Node<T> {
    const value: T
    var prev: Node?<T>
    var next: Node?<T>

    constructor (v: T)
      ensures value == v && prev == null && next == null
    {
      value := v;
      prev := null;
      next := null;
    }
  }

  /** Links `next` after `node` and returns `next` (appendNode). */
  method AppendNode<T>(node: Node<T>, next: Node<T>) returns (r: Node<T>)
    modifies node, next
    ensures r == next && node.next == next && next.prev == node
    ensures node != next ==> node.prev == old(node.prev) && next.next == old(next.next)
  {
    node.next := next;
    next.prev := node;
    r := next;
  }

  class NodeContainer<T(0)> {
    var tail: Node<T>
    const head: Node<T>
    /** The elements of the list, front first; the sentinel's value is not one of them. */
    ghost var contents: seq<T>
    /** The chain from `head` to `tail`. */
    ghost var nodes: seq<Node<T>>
    ghost var Repr: set<object>

    /** The chain from `head` to `tail` is a well-formed doubly linked sequence carrying `contents`. */
    ghost predicate Valid()
      reads this, Repr
    {
      this in Repr &&
      |nodes| >= 1 && nodes[0] == head && nodes[|nodes| - 1] == tail &&
      (forall i :: 0 <= i < |nodes| ==> nodes[i] in Repr) &&
      (forall i, j :: 0 <= i < j < |nodes| ==> nodes[i] != nodes[j]) &&
      head.prev == null && tail.next == null &&
      (forall i {:trigger LinkedAt(nodes, i)} :: 0 <= i < |nodes| - 1 ==> LinkedAt(nodes, i)) &&
      |contents| == |nodes| - 1 &&
      (forall i :: 0 <= i < |contents| ==> contents[i] == nodes[i + 1].value)
    }

    /** An empty list: the sentinel is both `head` and `tail`. */
    constructor ()
      ensures Valid() && fresh(Repr)
      ensures nodes == [head] && tail == head && contents == []
    {
      var sentinelValue: T := *;
      var h := new Node<T>(sentinelValue);
      head := h;
      tail := h;
      contents := [];
      nodes := [h];
      Repr := {this, h};
    }

    /** Appends `v` at the end and returns its node, which becomes the new `tail`. */
    method Push(v: T) returns (n: Node<T>)
      requires Valid()
      modifies Repr
      ensures Valid() && fresh(n) && Repr == old(Repr) + {n}
      ensures n.value == v && tail == n
      ensures nodes == old(nodes) + [n]
      ensures contents == old(contents) + [v]
    {
      var created := new Node<T>(v);
      ghost var ns := nodes;
      n := AppendNode(tail, created);
      tail := n;
      nodes := ns + [n];
      contents := contents + [v];
      Repr := Repr + {n};
      forall k | 0 <= k < |nodes| - 1
        ensures LinkedAt(nodes, k)
      {
        if k + 1 < |ns| {
          assert old(LinkedAt(ns, k));
          assert nodes[k] == ns[k] && nodes[k + 1] == ns[k + 1];
        }
      }
    }

    /**
     * Unlinks `node` and returns its value, or fails when `node.prev` is null:
     * the sentinel, and any node that is linked into no list (such as one
     * already removed), are refused.
     */
    method Remove(node: Node<T>) returns (r: Result<T>)
      requires Valid()
      requires node in nodes || node.prev == null
      modifies Repr
      ensures Valid()
      ensures r.Err? <==> old(node.prev) == null
      ensures r.Ok? <==> node in old(nodes)[1..]
      ensures r.Err? ==> r.error == RootRemovalError && unchanged(old(Repr)) && nodes == old(nodes)
      ensures r.Ok? ==>
        var i := IndexOf(old(nodes), node);
        1 <= i &&
        r.value == node.value &&
        nodes == old(nodes)[..i] + old(nodes)[i + 1..] &&
        contents == old(contents)[..i - 1] + old(contents)[i..] &&
        node.prev == null && node.next == null && node !in nodes &&
        tail == (if node == old(tail) then old(nodes)[i - 1] else old(tail)) &&
        Repr == old(Repr) - {node}
    {
      var prev, next := node.prev, node.next;
      if prev == null {
        forall j | 1 <= j < |nodes|
          ensures nodes[j] != node
        {
          assert LinkedAt(nodes, j - 1);
        }
        return Err(RootRemovalError);
      }
      ghost var ns := nodes;
      ghost var i := IndexOf(ns, node);
      assert i != 0;
      assert prev == ns[i - 1] by { assert LinkedAt(ns, i - 1); }
      assert next == (if i + 1 < |ns| then ns[i + 1] else null) by {
        if i + 1 < |ns| { assert LinkedAt(ns, i); }
      }
      assert node == tail <==> i == |ns| - 1;
      DropAt(ns, contents, Repr, i);
      if node == tail {
        tail := prev;
      }
      prev.next := next;
      if next != null {
        next.prev := prev;
      }
      node.next := null;
      node.prev := null;
      nodes := ns[..i] + ns[i + 1..];
      contents := contents[..i - 1] + contents[i..];
      Repr := Repr - {node};
      r := Ok(node.value);
      forall k | 0 <= k < |nodes| - 1
        ensures LinkedAt(nodes, k)
      {
        if k < i - 1 {
          assert old(LinkedAt(ns, k));
          assert nodes[k] == ns[k] && nodes[k + 1] == ns[k + 1];
          assert ns[k] != ns[i - 1] && ns[k] != ns[i] && ns[k + 1] != ns[i];
          assert i + 1 < |ns| ==> ns[k + 1] != ns[i + 1];
        } else if k == i - 1 {
          assert nodes[k] == prev && nodes[k + 1] == ns[i + 1];
        } else {
          assert old(LinkedAt(ns, k + 1));
          assert nodes[k] == ns[k + 1] && nodes[k + 1] == ns[k + 2];
          assert ns[k + 1] != ns[i - 1] && ns[k + 1] != ns[i];
          assert ns[k + 2] != ns[i] && ns[k + 2] != ns[i + 1];
        }
      }
    }

    /** True exactly when the list holds no element (`head === tail`). */
    method IsEmpty() returns (b: bool)
      requires Valid()
      ensures b <==> contents == []
    {
      b := head == tail;
    }

    /** Removes and returns the first element, or returns None on an empty list. */
    method PopFirst() returns (r: Option<T>)
      requires Valid()
      modifies Repr
      ensures Valid()
      ensures old(contents) == [] ==> r == None && unchanged(old(Repr)) && nodes == old(nodes)
      ensures old(contents) != [] ==>
        r == Some(old(contents)[0]) &&
        contents == old(contents)[1..] &&
        nodes == [head] + old(nodes)[2..] &&
        Repr == old(Repr) - {old(nodes)[1]}
    {
      var empty := IsEmpty();
      if empty {
        return None;
      }
      var first := head.next;
      assert first == nodes[1] by { assert LinkedAt(nodes, 0); }
      assert IndexOf(nodes, first) == 1;
      var x := Remove(first);
      r := Some(x.value);
    }
  }
}
