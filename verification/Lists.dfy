/** The intrusive lists of `include/usm/list.h`: nodes linked both ways, in a ring through a head node. */
module Lists {
  import opened MergeOrder

  class ListHead {
    var next: ListHead?
    var prev: ListHead?
  }

  ghost function Nodes(s: seq<ListHead>): set<ListHead> {
    set x | x in s
  }

  // ---------------------------------------------------------------- null-terminated lists

  /** Successive nodes of `s` are linked by `next`. */
  ghost predicate Linked(s: seq<ListHead>)
    reads s
  {
    forall i :: 0 <= i < |s| - 1 ==> s[i].next == s[i + 1]
  }

  /** A null-terminated singly linked list. */
  ghost predicate Chain(s: seq<ListHead>)
    reads s
  {
    s != [] && Linked(s) && s[|s| - 1].next == null
  }

  lemma LinkedSnoc(d: seq<ListHead>, n: ListHead)
    requires Linked(d) && (d != [] ==> d[|d| - 1].next == n)
    ensures Linked(d + [n])
  {
  }

  lemma ChainJoin(d: seq<ListHead>, y: seq<ListHead>)
    requires Linked(d) && d != [] && Chain(y) && d[|d| - 1].next == y[0]
    ensures Chain(d + y)
  {
  }

  lemma ChainTail(x: seq<ListHead>)
    requires Chain(x)
    ensures x[0].next == null <==> |x| == 1
    ensures |x| > 1 ==> x[0].next == x[1] && Chain(x[1..])
  {
  }

  // ---------------------------------------------------------------- rings

  ghost function At(head: ListHead, s: seq<ListHead>, i: int): ListHead {
    if 0 <= i < |s| then s[i] else head
  }

  /** The list with head `head` and members `s`. */
  ghost predicate Ring(head: ListHead, s: seq<ListHead>)
    reads head, s
  {
    && head !in s && NoDup(s)
    && (forall i :: -1 <= i < |s| ==> At(head, s, i).next == At(head, s, i + 1))
    && (forall i :: 0 <= i <= |s| ==> At(head, s, i).prev == At(head, s, i - 1))
  }

  lemma RingEnds(head: ListHead, s: seq<ListHead>)
    requires Ring(head, s)
    ensures |s| <= 1 <==> head.next == head.prev
    ensures s != [] ==> head.next == s[0] && head.prev == s[|s| - 1]
    ensures s == [] ==> head.next == head
    ensures forall i :: 0 <= i < |s| - 1 ==> s[i].next == s[i + 1]
  {
    assert At(head, s, -1) == head == At(head, s, |s|);
    assert At(head, s, -1).next == At(head, s, 0);
    assert At(head, s, |s|).prev == At(head, s, |s| - 1);
    forall i | 0 <= i < |s| - 1 ensures s[i].next == s[i + 1]
    {
      assert At(head, s, i) == s[i] && At(head, s, i + 1) == s[i + 1];
    }
  }

  /** `d` follows `head`, linked both ways; what follows `d` is left open. */
  ghost predicate Strand(head: ListHead, d: seq<ListHead>)
    reads head, d
  {
    && (forall i :: -1 <= i < |d| - 1 ==> At(head, d, i).next == At(head, d, i + 1))
    && (forall i :: 0 <= i < |d| ==> At(head, d, i).prev == At(head, d, i - 1))
  }

  lemma StrandSnoc(head: ListHead, d: seq<ListHead>, n: ListHead)
    requires Strand(head, d) && At(head, d, |d| - 1).next == n && n.prev == At(head, d, |d| - 1)
    ensures Strand(head, d + [n])
  {
    var e := d + [n];
    assert forall i :: -1 <= i < |d| ==> At(head, e, i) == At(head, d, i);
    assert At(head, e, |d|) == n;
  }

  lemma StrandClose(head: ListHead, d: seq<ListHead>)
    requires Strand(head, d) && d != [] && NoDup(d) && head !in d
    requires d[|d| - 1].next == head && head.prev == d[|d| - 1]
    ensures Ring(head, d)
  {
  }
}
