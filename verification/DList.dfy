/** The intrusive doubly linked list of external/basic/basic_lists.c refines a sequence of nodes. */
module DList {
  class Link {
    var next: Link?
    var prev: Link?

    constructor ()
      ensures next == null && prev == null
    {
      next, prev := null, null;
    }
  }

  /** Node number `i` of `s` is linked to its neighbours, or to the ends. */
  ghost predicate NodeOk(s: seq<Link>, i: nat)
    requires i < |s|
    reads s[i]
  {
    && s[i].prev == (if i == 0 then null else s[i - 1])
    && s[i].next == (if i + 1 < |s| then s[i + 1] else null)
  }

  predicate Distinct<T(==)>(s: seq<T>) { forall i, j :: 0 <= i < j < |s| ==> s[i] != s[j] }

  predicate Separate<T(==)>(a: seq<T>, b: seq<T>)
  {
    forall i, j :: 0 <= i < |a| && 0 <= j < |b| ==> a[i] != b[j]
  }

  /** The nodes of `s` are distinct, and next and prev are inverse on them. */
  ghost predicate Linked(s: seq<Link>)
    reads s
  {
    Distinct(s) && forall i :: 0 <= i < |s| ==> NodeOk(s, i)
  }

  /** A chain that starts at `first` and is in no list. */
  ghost predicate IsChain(first: Link, chain: seq<Link>)
    reads chain
  {
    chain != [] && chain[0] == first && Linked(chain)
  }

  function Removed<T(==)>(s: seq<T>, e: T): seq<T>
  {
    if s == [] then [] else if s[0] == e then s[1..] else [s[0]] + Removed(s[1..], e)
  }

  /** Taking a node out closes the gap at its place. */
  lemma {:induction false} RemovedAt<T>(s: seq<T>, i: nat)
    requires i < |s| && forall j :: 0 <= j < i ==> s[j] != s[i]
    ensures Removed(s, s[i]) == s[..i] + s[i + 1..]
  {
    if i != 0 {
      assert s[0] != s[i];
      RemovedAt(s[1..], i - 1);
      assert [s[0]] + (s[1..][..i - 1] + s[1..][i..]) == s[..i] + s[i + 1..];
    }
  }

  lemma {:induction false} RemovedAbsent<T>(s: seq<T>, e: T)
    requires e !in s
    ensures Removed(s, e) == s
  {
    if s != [] {
      RemovedAbsent(s[1..], e);
    }
  }

  /** Where `e` is in `s`, or the length of `s` */
  function Place<T(==)>(s: seq<T>, e: T): (i: nat)
    ensures i <= |s| && (i < |s| ==> s[i] == e) && (forall j :: 0 <= j < i ==> s[j] != e)
  {
    if s == [] || s[0] == e then 0 else 1 + Place(s[1..], e)
  }

  lemma CutDistinct<T>(s: seq<T>, i: nat)
    requires i < |s| && Distinct(s)
    ensures Distinct(s[..i] + s[i + 1..]) && s[i] !in s[..i] + s[i + 1..]
  {
  }

  function Inserted<T>(s: seq<T>, i: nat, chain: seq<T>): seq<T>
    requires i <= |s|
  {
    s[..i] + chain + s[i..]
  }

  lemma InsertedDistinct<T>(s: seq<T>, i: nat, chain: seq<T>)
    requires i <= |s| && Distinct(s) && Distinct(chain) && Separate(chain, s)
    ensures Distinct(Inserted(s, i, chain))
  {
    var t := Inserted(s, i, chain);
    forall j, k | 0 <= j < k < |t| ensures t[j] != t[k] {
    }
  }

  /** Node `m` of `s` and node `m` of `chain`, when the chain has been put in front of node `i`. */
  ghost predicate Woven(s: seq<Link>, i: nat, chain: seq<Link>, m: nat)
    requires i <= |s| && chain != []
    reads s, chain
  {
    && (m < |s| ==>
          && s[m].next == (if m + 1 == i then chain[0] else if m + 1 < |s| then s[m + 1] else null)
          && s[m].prev == (if m == i then chain[|chain| - 1] else if m == 0 then null else s[m - 1]))
    && (m < |chain| ==>
          && chain[m].next == (if m + 1 < |chain| then chain[m + 1] else if i < |s| then s[i] else null)
          && chain[m].prev == (if m > 0 then chain[m - 1] else if i > 0 then s[i - 1] else null))
  }

  lemma WovenIsLinked(s: seq<Link>, i: nat, chain: seq<Link>)
    requires i <= |s| && chain != [] && Distinct(s) && Distinct(chain) && Separate(chain, s)
    requires forall m: nat :: Woven(s, i, chain, m)
    ensures Linked(Inserted(s, i, chain))
  {
    InsertedDistinct(s, i, chain);
    var t := Inserted(s, i, chain);
    hide Distinct, Separate;
    forall k | 0 <= k < |t| ensures NodeOk(t, k) {
      var m := if k < i then k else if k < i + |chain| then k - i else k - |chain|;
      assert t[k] == if i <= k < i + |chain| then chain[m] else s[m];
      assert Woven(s, i, chain, m);
    }
  }

  /** Node `m` of `s` when its neighbours pass over node `i`. */
  ghost predicate Bypassed(s: seq<Link>, i: nat, m: nat)
    requires i < |s| && m < |s|
    reads s[m]
  {
    m != i ==>
      && s[m].next == (if m + 1 == i then (if i + 1 < |s| then s[i + 1] else null)
                       else if m + 1 < |s| then s[m + 1] else null)
      && s[m].prev == (if m == i + 1 then (if i > 0 then s[i - 1] else null) else if m > 0 then s[m - 1] else null)
  }

  lemma BypassedIsLinked(s: seq<Link>, i: nat)
    requires i < |s| && Distinct(s) && forall m :: 0 <= m < |s| ==> Bypassed(s, i, m)
    ensures Linked(s[..i] + s[i + 1..])
  {
    CutDistinct(s, i);
    var t := s[..i] + s[i + 1..];
    hide Distinct;
    forall k | 0 <= k < |t| ensures NodeOk(t, k) {
      assert Bypassed(s, i, if k < i then k else k + 1);
    }
  }

  /** Walks from the first node of a chain to its last. */
  method LastOf(first: Link, ghost chain: seq<Link>) returns (last: Link)
    requires IsChain(first, chain)
    ensures last == chain[|chain| - 1]
  {
    last := first;
    ghost var i := 0;
    assert NodeOk(chain, 0);
    while last.next != null
      invariant 0 <= i < |chain| && last == chain[i] && NodeOk(chain, i)
      decreases |chain| - i
    {
      assert NodeOk(chain, i + 1);
      last := last.next;
      i := i + 1;
    }
  }

  /** The head of a list */
  class List {
    var next: Link?
    var prev: Link?
    ghost var nodes: seq<Link>

    ghost predicate Valid()
      reads this, nodes
    {
      && Linked(nodes)
      && next == (if nodes == [] then null else nodes[0])
      && prev == (if nodes == [] then null else nodes[|nodes| - 1])
    }

    constructor ()
      ensures Valid() && nodes == []
    {
      next, prev, nodes := null, null, [];
    }

    /** basic_dlist_append, of a whole chain */
    method Append(first: Link, ghost chain: seq<Link>)
      requires Valid() && IsChain(first, chain) && Separate(chain, nodes)
      modifies this, nodes, first
      ensures Valid() && nodes == old(nodes) + chain
    {
      var last := LastOf(first, chain);
      ghost var was := nodes;
      if next == null {
        next, prev := first, last;
      } else {
        first.prev := prev;
        prev.next := first;
        prev := last;
      }
      forall m: nat ensures Woven(was, |was|, chain, m) {
        assert m < |was| ==> old(NodeOk(nodes, m));
        assert m < |chain| ==> old(NodeOk(chain, m));
      }
      WovenIsLinked(was, |was|, chain);
      assert Inserted(was, |was|, chain) == was + chain;
      nodes := was + chain;
    }

    /** basic_dlist_prepend. A chain of several nodes can only be put into an empty list. */
    method Prepend(first: Link, ghost chain: seq<Link>)
      requires Valid() && IsChain(first, chain) && Separate(chain, nodes)
      requires nodes == [] || |chain| == 1
      modifies this, nodes, first
      ensures Valid() && nodes == chain + old(nodes)
    {
      var last := LastOf(first, chain);
      ghost var was := nodes;
      if next == null {
        next, prev := first, last;
      } else {
        first.next := next;
        next.prev := last;
        next := first;
      }
      forall m: nat ensures Woven(was, 0, chain, m) {
        assert m < |was| ==> old(NodeOk(nodes, m));
        assert m < |chain| ==> old(NodeOk(chain, m));
      }
      WovenIsLinked(was, 0, chain);
      assert Inserted(was, 0, chain) == chain + was;
      nodes := chain + was;
    }

    /** basic_dlist_add_after, of a whole chain behind node number `i` */
    method AddAfter(elem: Link, ghost i: nat, first: Link, ghost chain: seq<Link>)
      requires Valid() && i < |nodes| && nodes[i] == elem
      requires IsChain(first, chain) && Separate(chain, nodes)
      modifies this, nodes, chain
      ensures Valid() && nodes == Inserted(old(nodes), i + 1, chain)
    {
      var last := LastOf(first, chain);
      ghost var was, at := nodes, i + 1;
      assert NodeOk(nodes, i);
      last.next := elem.next;
      if elem.next != null {
        elem.next.prev := last;
      }
      first.prev := elem;
      elem.next := first;
      if prev == elem {
        prev := last;
      }
      forall m: nat ensures Woven(was, at, chain, m) {
        assert m < |was| ==> old(NodeOk(nodes, m));
        assert m < |chain| ==> old(NodeOk(chain, m));
      }
      WovenIsLinked(was, at, chain);
      nodes := Inserted(was, at, chain);
    }

    /** basic_dlist_add_before, of a whole chain in front of node number `i` */
    method AddBefore(elem: Link, ghost i: nat, first: Link, ghost chain: seq<Link>)
      requires Valid() && i < |nodes| && nodes[i] == elem
      requires IsChain(first, chain) && Separate(chain, nodes)
      modifies this, nodes, chain
      ensures Valid() && nodes == Inserted(old(nodes), i, chain)
    {
      var last := LastOf(first, chain);
      ghost var was := nodes;
      assert NodeOk(nodes, i);
      first.prev := elem.prev;
      if elem.prev != null {
        elem.prev.next := first;
      }
      last.next := elem;
      elem.prev := last;
      if next == elem {
        next := first;
      }
      forall m: nat ensures Woven(was, i, chain, m) {
        assert m < |was| ==> old(NodeOk(nodes, m));
        assert m < |chain| ==> old(NodeOk(chain, m));
      }
      WovenIsLinked(was, i, chain);
      nodes := Inserted(was, i, chain);
    }

    /** basic_dlist_remove. A node that is in no list is left as it is. */
    method Remove(elem: Link)
      requires Valid() && (elem !in nodes ==> elem.next == null && elem.prev == null)
      modifies this, nodes, elem
      ensures Valid() && nodes == Removed(old(nodes), elem) && elem !in nodes
      ensures elem.next == null && elem.prev == null
    {
      ghost var i := Place(nodes, elem);
      if i < |nodes| {
        RemovedAt(nodes, i);
        CutDistinct(nodes, i);
      } else {
        RemovedAbsent(nodes, elem);
      }
      Unlink(elem, i);
    }

    /** The same, for node number `i` or, if `i` is the length of the list, a node that is not in it */
    method Unlink(elem: Link, ghost i: nat)
      requires Valid() && i <= |nodes|
      requires if i < |nodes| then nodes[i] == elem else elem !in nodes && elem.next == null && elem.prev == null
      modifies this, nodes, elem
      ensures Valid() && nodes == if i < |old(nodes)| then old(nodes)[..i] + old(nodes)[i + 1..] else old(nodes)
      ensures elem.next == null && elem.prev == null
    {
      ghost var was, n := nodes, |nodes|;
      assert i < n ==> NodeOk(nodes, i);
      next := if next == elem then elem.next else next;
      prev := if prev == elem then elem.prev else prev;
      if elem.next != null {
        elem.next.prev := elem.prev;
      }
      if elem.prev != null {
        elem.prev.next := elem.next;
      }
      elem.next, elem.prev := null, null;
      if i < n {
        forall m | 0 <= m < n ensures Bypassed(was, i, m) {
          assert old(NodeOk(nodes, m));
        }
        BypassedIsLinked(was, i);
        nodes := was[..i] + was[i + 1..];
      }
    }
  }
}
