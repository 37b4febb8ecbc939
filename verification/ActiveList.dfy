/** The intrusive singly linked list of active transfers, as indices into the
    transfer array: `next` links, a head and a tail. */
module ActiveList {
  import opened Wrappers

  datatype Links = Links(next: seq<Option<nat>>, head: Option<nat>, tail: Option<nat>)

  ghost predicate NoDup(a: seq<nat>) {
    forall i, j :: 0 <= i < j < |a| ==> a[i] != a[j]
  }

  ghost predicate AllBelow(a: seq<nat>, n: nat) {
    forall k :: 0 <= k < |a| ==> a[k] < n
  }

  // Every link names a transfer.
  predicate InBounds(l: Links) {
    && (forall k :: 0 <= k < |l.next| && l.next[k].Some? ==> l.next[k].value < |l.next|)
    && (l.head.Some? ==> l.head.value < |l.next|)
    && (l.tail.Some? ==> l.tail.value < |l.next|)
  }

  function After(a: seq<nat>, k: nat): Option<nat> {
    if k + 1 < |a| then Some(a[k + 1]) else None
  }

  function LastOf(a: seq<nat>): Option<nat> {
    if a == [] then None else Some(a[|a| - 1])
  }

  // What is reached from the head through the links is exactly a.
  ghost predicate Reaches(l: Links, a: seq<nat>) {
    && NoDup(a)
    && AllBelow(a, |l.next|)
    && l.head == (if a == [] then None else Some(a[0]))
    && (forall k :: 0 <= k < |a| ==> l.next[a[k]] == After(a, k))
  }

  // A well-formed list with contents a.
  ghost predicate IsList(l: Links, a: seq<nat>) {
    Reaches(l, a) && InBounds(l) && l.tail == LastOf(a)
  }

  // The linking half of submit_one_transfer.
  function Append(l: Links, t: nat): Links
    requires InBounds(l) && t < |l.next|
  {
    var next := l.next[t := None];
    if l.tail.None? then Links(next, Some(t), Some(t))
    else Links(next[l.tail.value := Some(t)], l.head, Some(t))
  }

  // The main loop removing the head t.
  function Pop(l: Links, t: nat): Links
    requires t < |l.next|
  {
    Links(l.next, l.next[t], if l.next[t].None? then None else l.tail)
  }

  // One round of drain_transfers' release loop; the tail is reset after the loop.
  function Release(l: Links, h: nat): Links
    requires h < |l.next|
  {
    Links(l.next[h := None], l.next[h], l.tail)
  }

  lemma SplitLast(a: seq<nat>, t: nat)
    requires NoDup(a + [t])
    ensures NoDup(a) && t !in a
  {
    var b := a + [t];
    forall i | 0 <= i < |a| ensures a[i] != t {
      assert b[i] != b[|a|];
    }
    forall i, j | 0 <= i < j < |a| ensures a[i] != a[j] {
      assert b[i] != b[j];
    }
  }

  // Appending keeps the list in bounds and puts t last.
  lemma AppendIsLast(l: Links, a: seq<nat>, t: nat)
    requires IsList(l, a) && t < |l.next| && NoDup(a + [t])
    ensures IsList(Append(l, t), a + [t]) && |Append(l, t).next| == |l.next|
  {
    SplitLast(a, t);
    var l', b := Append(l, t), a + [t];
    forall k | 0 <= k < |b|
      ensures l'.next[b[k]] == After(b, k)
    {
      if k + 1 < |a| {
        assert l.next[a[k]] == After(a, k) && a[k] != a[|a| - 1] && a[k] != t;
      }
    }
    assert AllBelow(b, |l'.next|);
  }

  lemma TailOfReaches(l: Links, a: seq<nat>)
    requires Reaches(l, a) && a != [] && InBounds(l)
    ensures NoDup(a[1..]) && a[0] !in a[1..]
    ensures Reaches(Links(l.next, l.next[a[0]], l.tail), a[1..])
    ensures Reaches(Release(l, a[0]), a[1..]) && InBounds(Release(l, a[0]))
  {
    var b := a[1..];
    forall k | 0 <= k < |b|
      ensures b[k] != a[0] && l.next[b[k]] == After(b, k)
    {
      assert b[k] == a[k + 1] && l.next[a[k + 1]] == After(a, k + 1);
    }
  }

  // Removing the head leaves the rest, in order.
  lemma PopIsRest(l: Links, a: seq<nat>)
    requires IsList(l, a) && a != []
    ensures IsList(Pop(l, a[0]), a[1..])
  {
    TailOfReaches(l, a);
    assert l.next[a[0]] == After(a, 0);
  }
}
