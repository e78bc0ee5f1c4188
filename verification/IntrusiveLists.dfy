/**
  The intrusive list macros of include/sys/queue.h. A pointer is a number, zero is NULL, and the
  link fields embedded in the nodes are maps from node to field. The macros store through the
  address of a link cell, which is either the list head or the next field of some node.
  Every operation is proved against a sequence of nodes.
 */
module IntrusiveLists {

  type Ptr = nat
  const NULL: Ptr := 0

  datatype Cell = Head | NextOf(node: Ptr)

  /** The `i`-th node of `s`, NULL past either end. */
  ghost function At(s: seq<Ptr>, i: int): Ptr {
    if 0 <= i < |s| then s[i] else NULL
  }

  /** The cell that holds the pointer to the `i`-th node of `s`. */
  ghost function CellAt(s: seq<Ptr>, i: int): Cell {
    if 0 < i <= |s| then NextOf(s[i - 1]) else Head
  }

  ghost predicate Nodes(s: seq<Ptr>) {
    && (forall i :: 0 <= i < |s| ==> s[i] != NULL)
    && forall i, j :: 0 <= i < j < |s| ==> s[i] != s[j]
  }

  ghost predicate ForwardLinked(s: seq<Ptr>, first: Ptr, next: map<Ptr, Ptr>) {
    && first == At(s, 0)
    && (forall i :: 0 <= i < |s| ==> s[i] in next)
    && (forall i, j {:trigger s[i], s[j]} :: 0 <= i && j == i + 1 && j < |s| ==> next[s[i]] == s[j])
    && (s != [] ==> next[s[|s| - 1]] == NULL)
  }

  ghost predicate BackLinked(s: seq<Ptr>, prev: map<Ptr, Cell>) {
    && (forall i :: 0 <= i < |s| ==> s[i] in prev)
    && (forall i, j {:trigger s[i], s[j]} :: 0 <= i && j == i + 1 && j < |s| ==> prev[s[j]] == NextOf(s[i]))
    && (s != [] ==> prev[s[0]] == Head)
  }

  /** `s` with `x` placed so that it becomes the `k`-th node. */
  ghost function Inserted<T>(s: seq<T>, k: nat, x: T): seq<T>
    requires k <= |s|
  {
    s[..k] + [x] + s[k..]
  }

  /** `s` without its `k`-th node. */
  ghost function Removed<T>(s: seq<T>, k: nat): seq<T>
    requires k < |s|
  {
    s[..k] + s[k + 1..]
  }

  lemma NodesInserted(s: seq<Ptr>, k: nat, x: Ptr)
    requires Nodes(s) && k <= |s| && x != NULL && x !in s
    ensures Nodes(Inserted(s, k, x))
  {
    var r := Inserted(s, k, x);
    forall i, j | 0 <= i < j < |r|
      ensures r[i] != r[j]
    {
      var a, b := if i < k then i else i - 1, if j < k then j else j - 1;
      assert i == k || r[i] == s[a];
      assert j == k || r[j] == s[b];
    }
    forall i | 0 <= i < |r|
      ensures r[i] != NULL
    {
      assert i == k || r[i] == s[if i < k then i else i - 1];
    }
  }

  lemma NodesRemoved(s: seq<Ptr>, k: nat)
    requires Nodes(s) && k < |s|
    ensures Nodes(Removed(s, k))
  {
    var r := Removed(s, k);
    forall i, j | 0 <= i < j < |r|
      ensures r[i] != r[j]
    {
      assert r[i] == s[if i < k then i else i + 1];
      assert r[j] == s[if j < k then j else j + 1];
    }
    forall i | 0 <= i < |r|
      ensures r[i] != NULL
    {
      assert r[i] == s[if i < k then i else i + 1];
    }
  }

  /** What `first` becomes when `p` is stored through cell `c`. */
  function StoredFirst(first: Ptr, c: Cell, p: Ptr): Ptr {
    if c == Head then p else first
  }

  /** What `next` becomes when `p` is stored through cell `c`. */
  function StoredNext(next: map<Ptr, Ptr>, c: Cell, p: Ptr): map<Ptr, Ptr> {
    if c == Head then next else next[c.node := p]
  }

  lemma ForwardInserted(s: seq<Ptr>, k: nat, x: Ptr, first: Ptr, next: map<Ptr, Ptr>)
    requires Nodes(s) && ForwardLinked(s, first, next) && k <= |s| && x != NULL && x !in s
    ensures ForwardLinked(Inserted(s, k, x), StoredFirst(first, CellAt(s, k), x),
                          StoredNext(next[x := At(s, k)], CellAt(s, k), x))
  {
    var r := Inserted(s, k, x);
    var next' := StoredNext(next[x := At(s, k)], CellAt(s, k), x);
    forall i | 0 <= i < |r|
      ensures r[i] in next' && next'[r[i]] == At(r, i + 1)
    {
      if i < k {
        assert r[i] == s[i] && next[s[i]] == At(s, i + 1);
      } else if i > k {
        assert r[i] == s[i - 1] && next[s[i - 1]] == At(s, i);
      }
    }
  }

  lemma ForwardRemoved(s: seq<Ptr>, k: nat, first: Ptr, next: map<Ptr, Ptr>)
    requires Nodes(s) && ForwardLinked(s, first, next) && k < |s|
    ensures ForwardLinked(Removed(s, k), StoredFirst(first, CellAt(s, k), At(s, k + 1)),
                          StoredNext(next, CellAt(s, k), At(s, k + 1)))
  {
    var r := Removed(s, k);
    var next' := StoredNext(next, CellAt(s, k), At(s, k + 1));
    forall i | 0 <= i < |r|
      ensures r[i] in next' && next'[r[i]] == At(r, i + 1)
    {
      if i < k {
        assert r[i] == s[i] && next[s[i]] == At(s, i + 1);
      } else {
        assert r[i] == s[i + 1] && next[s[i + 1]] == At(s, i + 2);
        assert At(r, i + 1) == At(s, i + 2);
      }
    }
  }

  lemma BackInserted(s: seq<Ptr>, k: nat, x: Ptr, prev: map<Ptr, Cell>, prev': map<Ptr, Cell>)
    requires Nodes(s) && BackLinked(s, prev) && k <= |s| && x != NULL && x !in s
    requires prev' == (if k < |s| then prev[x := CellAt(s, k)][s[k] := NextOf(x)] else prev[x := CellAt(s, k)])
    ensures BackLinked(Inserted(s, k, x), prev')
  {
    var r := Inserted(s, k, x);
    forall i | 0 <= i < |r|
      ensures r[i] in prev' && prev'[r[i]] == CellAt(r, i)
    {
      if i < k {
        assert r[i] == s[i] && prev[s[i]] == CellAt(s, i);
      } else if i > k {
        assert r[i] == s[i - 1] && prev[s[i - 1]] == CellAt(s, i - 1);
      }
    }
  }

  lemma BackRemoved(s: seq<Ptr>, k: nat, prev: map<Ptr, Cell>)
    requires Nodes(s) && BackLinked(s, prev) && k < |s|
    ensures BackLinked(Removed(s, k), if k + 1 < |s| then prev[s[k + 1] := CellAt(s, k)] else prev)
  {
    var r := Removed(s, k);
    var prev' := if k + 1 < |s| then prev[s[k + 1] := CellAt(s, k)] else prev;
    forall i | 0 <= i < |r|
      ensures r[i] in prev' && prev'[r[i]] == CellAt(r, i)
    {
      var a := if i < k then i else i + 1;
      assert r[i] == s[a] && prev[s[a]] == CellAt(s, a);
    }
  }

  lemma LastCellRemoved(s: seq<Ptr>, k: nat)
    requires k < |s|
    ensures |Removed(s, k)| == |s| - 1
    ensures CellAt(Removed(s, k), |s| - 1) == CellAt(s, if k + 1 < |s| then |s| else k)
  {
  }

  /** A first pointer and a next field describe at most one sequence of nodes. */
  lemma {:induction false} ForwardLinksDetermineNodes(s: seq<Ptr>, t: seq<Ptr>, first: Ptr, next: map<Ptr, Ptr>)
    requires Nodes(s) && Nodes(t)
    requires ForwardLinked(s, first, next) && ForwardLinked(t, first, next)
    ensures s == t
  {
    forall k | 0 <= k <= |s| && k <= |t|
      ensures s[..k] == t[..k] && At(s, k) == At(t, k)
    {
      SamePrefix(s, t, first, next, k);
    }
    var k := if |s| <= |t| then |s| else |t|;
    assert At(s, k) == At(t, k);
  }

  lemma {:induction false} SamePrefix(s: seq<Ptr>, t: seq<Ptr>, first: Ptr, next: map<Ptr, Ptr>, k: nat)
    requires Nodes(s) && Nodes(t)
    requires ForwardLinked(s, first, next) && ForwardLinked(t, first, next)
    requires k <= |s| && k <= |t|
    ensures s[..k] == t[..k] && At(s, k) == At(t, k)
  {
    if k > 0 {
      SamePrefix(s, t, first, next, k - 1);
      assert s[k - 1] == t[k - 1];
      assert s[..k] == s[..k - 1] + [s[k - 1]];
      assert t[..k] == t[..k - 1] + [t[k - 1]];
      assert next[s[k - 1]] == At(s, k) == At(t, k);
    }
  }

  lemma ForwardAt(s: seq<Ptr>, first: Ptr, next: map<Ptr, Ptr>, k: nat)
    requires Nodes(s) && ForwardLinked(s, first, next) && k <= |s|
    ensures first == At(s, 0) && (At(s, k) == NULL <==> k == |s|)
    ensures k < |s| ==> s[k] in s && s[k] in next && next[s[k]] == At(s, k + 1) && s[k] != At(s, k + 1)
  {
  }

  ghost predicate Links(s: seq<Ptr>, first: Ptr, next: map<Ptr, Ptr>, prev: map<Ptr, Cell>) {
    Nodes(s) && ForwardLinked(s, first, next) && BackLinked(s, prev)
  }

  lemma LinksAt(s: seq<Ptr>, first: Ptr, next: map<Ptr, Ptr>, prev: map<Ptr, Cell>, k: nat)
    requires Links(s, first, next, prev) && k < |s|
    ensures s[k] in next && s[k] in prev && next[s[k]] == At(s, k + 1) && prev[s[k]] == CellAt(s, k)
    ensures s[k] != NULL && s[k] != At(s, k + 1) && (At(s, k + 1) != NULL <==> k + 1 < |s|)
  {
  }

  lemma FirstAt(s: seq<Ptr>, first: Ptr, next: map<Ptr, Ptr>, prev: map<Ptr, Cell>)
    requires Links(s, first, next, prev)
    ensures first == At(s, 0) && (first == NULL <==> s == [])
    ensures forall x :: Inserted(s, 0, x) == [x] + s
  {
  }

  lemma LinksInserted(s: seq<Ptr>, first: Ptr, next: map<Ptr, Ptr>, prev: map<Ptr, Cell>, k: nat, x: Ptr,
                      prev': map<Ptr, Cell>)
    requires Links(s, first, next, prev) && k <= |s| && x != NULL && x !in s
    requires prev' == (if k < |s| then prev[x := CellAt(s, k)][s[k] := NextOf(x)] else prev[x := CellAt(s, k)])
    ensures Links(Inserted(s, k, x), StoredFirst(first, CellAt(s, k), x),
                  StoredNext(next[x := At(s, k)], CellAt(s, k), x), prev')
  {
    NodesInserted(s, k, x);
    ForwardInserted(s, k, x, first, next);
    BackInserted(s, k, x, prev, prev');
  }

  lemma LinksRemoved(s: seq<Ptr>, first: Ptr, next: map<Ptr, Ptr>, prev: map<Ptr, Cell>, k: nat)
    requires Links(s, first, next, prev) && k < |s|
    ensures Links(Removed(s, k), StoredFirst(first, CellAt(s, k), At(s, k + 1)),
                  StoredNext(next, CellAt(s, k), At(s, k + 1)),
                  if k + 1 < |s| then prev[s[k + 1] := CellAt(s, k)] else prev)
  {
    NodesRemoved(s, k);
    ForwardRemoved(s, k, first, next);
    BackRemoved(s, k, prev);
  }

  /** TAILQ: forward links, back pointers to link cells, and a pointer to the last cell. */
  class TailQueue {
    var first: Ptr
    var last: Cell
    var next: map<Ptr, Ptr>
    var prev: map<Ptr, Cell>
    ghost var elems: seq<Ptr>

    ghost predicate Valid()
      reads this
    {
      && Links(elems, first, next, prev)
      && last == CellAt(elems, |elems|)
    }

    lemma FirstAndNext(k: nat)
      requires Valid() && k <= |elems|
      ensures first == At(elems, 0) && (At(elems, k) == NULL <==> k == |elems|)
      ensures k < |elems| ==> elems[k] in next && next[elems[k]] == At(elems, k + 1)
    {
    }

    constructor ()
      ensures Valid() && elems == []
    {
      first, last, next, prev, elems := NULL, Head, map[], map[], [];
    }

    method InsertTail(elm: Ptr)
      requires Valid() && elm != NULL && elm !in elems
      modifies this
      ensures Valid() && elems == old(elems) + [elm]
    {
      LinksInserted(elems, first, next, prev, |elems|, elm, prev[elm := last]);
      next := next[elm := NULL];
      prev := prev[elm := last];
      first, next := StoredFirst(first, last, elm), StoredNext(next, last, elm);
      last := NextOf(elm);
      elems := Inserted(elems, |elems|, elm);
    }

    method Remove(elm: Ptr, ghost k: nat)
      requires Valid() && k < |elems| && elems[k] == elm
      modifies this
      ensures Valid() && elems == Removed(old(elems), k)
    {
      hide Links, Removed;
      LinksRemoved(elems, first, next, prev, k);
      LinksAt(elems, first, next, prev, k);
      LastCellRemoved(elems, k);
      if next[elm] != NULL {
        prev := prev[next[elm] := prev[elm]];
      } else {
        last := prev[elm];
      }
      first, next := StoredFirst(first, prev[elm], next[elm]), StoredNext(next, prev[elm], next[elm]);
      elems := Removed(elems, k);
    }
  }

  /** LIST: forward links and back pointers to link cells. */
  class LinkedList {
    var first: Ptr
    var next: map<Ptr, Ptr>
    var prev: map<Ptr, Cell>
    ghost var elems: seq<Ptr>

    ghost predicate Valid()
      reads this
    {
      && Links(elems, first, next, prev)
    }

    constructor ()
      ensures Valid() && elems == []
    {
      first, next, prev, elems := NULL, map[], map[], [];
    }

    method InsertHead(elm: Ptr)
      requires Valid() && elm != NULL && elm !in elems
      modifies this
      ensures Valid() && elems == [elm] + old(elems)
    {
      hide Links, Inserted;
      ghost var prev' := if first != NULL then prev[elm := Head][first := NextOf(elm)] else prev[elm := Head];
      FirstAt(elems, first, next, prev);
      LinksInserted(elems, first, next, prev, 0, elm, prev');
      next := next[elm := first];
      if first != NULL {
        prev := prev[first := NextOf(elm)];
      }
      first := elm;
      prev := prev[elm := Head];
      assert prev == prev';
      elems := Inserted(elems, 0, elm);
    }

    method InsertAfter(listelm: Ptr, elm: Ptr, ghost k: nat)
      requires Valid() && k < |elems| && elems[k] == listelm
      requires elm != NULL && elm !in elems
      modifies this
      ensures Valid() && elems == Inserted(old(elems), k + 1, elm)
    {
      hide Links, Inserted, Removed;
      LinksAt(elems, first, next, prev, k);
      ghost var was := prev[elm := NextOf(listelm)];
      ghost var prev' := if next[listelm] != NULL then was[next[listelm] := NextOf(elm)] else was;
      LinksInserted(elems, first, next, prev, k + 1, elm, prev');
      next := next[elm := next[listelm]];
      if next[elm] != NULL {
        prev := prev[next[listelm] := NextOf(elm)];
      }
      next := next[listelm := elm];
      prev := prev[elm := NextOf(listelm)];
      assert prev == prev';
      elems := Inserted(elems, k + 1, elm);
    }

    method InsertBefore(listelm: Ptr, elm: Ptr, ghost k: nat)
      requires Valid() && k < |elems| && elems[k] == listelm
      requires elm != NULL && elm !in elems
      modifies this
      ensures Valid() && elems == Inserted(old(elems), k, elm)
    {
      hide Links, Inserted, Removed;
      LinksAt(elems, first, next, prev, k);
      LinksInserted(elems, first, next, prev, k, elm, prev[elm := prev[listelm]][listelm := NextOf(elm)]);
      prev := prev[elm := prev[listelm]];
      next := next[elm := listelm];
      first, next := StoredFirst(first, prev[listelm], elm), StoredNext(next, prev[listelm], elm);
      prev := prev[listelm := NextOf(elm)];
      elems := Inserted(elems, k, elm);
    }

    method Remove(elm: Ptr, ghost k: nat)
      requires Valid() && k < |elems| && elems[k] == elm
      modifies this
      ensures Valid() && elems == Removed(old(elems), k)
    {
      hide Links, Removed;
      LinksRemoved(elems, first, next, prev, k);
      LinksAt(elems, first, next, prev, k);
      if next[elm] != NULL {
        prev := prev[next[elm] := prev[elm]];
      }
      first, next := StoredFirst(first, prev[elm], next[elm]), StoredNext(next, prev[elm], next[elm]);
      elems := Removed(elems, k);
    }
  }

  /** SLIST: forward links only, so removal walks from the head. */
  class SinglyLinkedList {
    var first: Ptr
    var next: map<Ptr, Ptr>
    ghost var elems: seq<Ptr>

    ghost predicate Valid()
      reads this
    {
      && Nodes(elems)
      && ForwardLinked(elems, first, next)
    }

    lemma NodesApart(i: nat, j: nat)
      requires Valid() && i < j < |elems|
      ensures elems[i] != elems[j]
    {
    }

    constructor ()
      ensures Valid() && elems == []
    {
      first, next, elems := NULL, map[], [];
    }

    method InsertHead(elm: Ptr)
      requires Valid() && elm != NULL && elm !in elems
      modifies this
      ensures Valid() && elems == [elm] + old(elems)
    {
      ForwardInserted(elems, 0, elm, first, next);
      NodesInserted(elems, 0, elm);
      next := next[elm := first];
      first := elm;
      elems := Inserted(elems, 0, elm);
    }

    method InsertAfter(listelm: Ptr, elm: Ptr, ghost k: nat)
      requires Valid() && k < |elems| && elems[k] == listelm
      requires elm != NULL && elm !in elems
      modifies this
      ensures Valid() && elems == Inserted(old(elems), k + 1, elm)
    {
      assert next[elems[k]] == At(elems, k + 1);
      ForwardInserted(elems, k + 1, elm, first, next);
      NodesInserted(elems, k + 1, elm);
      next := next[elm := next[listelm]];
      next := next[listelm := elm];
      elems := Inserted(elems, k + 1, elm);
    }

    method Remove(elm: Ptr, ghost k: nat)
      requires Valid() && k < |elems| && elems[k] == elm
      modifies this
      ensures Valid() && elems == Removed(old(elems), k)
    {
      ForwardRemoved(elems, k, first, next);
      NodesRemoved(elems, k);
      ForwardAt(elems, first, next, k);
      assert k > 0 ==> next[elems[k - 1]] == elems[k] && elems[0] != elems[k];
      if first == elm {
        first := next[first];
      } else {
        var cur := first;
        ghost var i := 0;
        while next[cur] != elm
          invariant 0 <= i < k && cur == elems[i] && next[elems[i]] == elems[i + 1]
          decreases k - i
        {
          cur := next[cur];
          i := i + 1;
        }
        assert i + 1 == k;
        next := next[cur := next[next[cur]]];
      }
      elems := Removed(elems, k);
    }
  }
}
