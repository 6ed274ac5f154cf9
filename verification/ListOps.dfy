/** The operations of `include/usm/list.h`, against the sequence of members of a list. */
module ListOps {
  import opened MergeOrder
  import opened Lists

  /** The members without the one at `i`. */
  ghost function Removed<T>(s: seq<T>, i: nat): seq<T>
    requires i < |s|
  {
    s[..i] + s[i + 1..]
  }

  ghost function Inserted(s: seq<ListHead>, i: nat, n: ListHead): seq<ListHead>
    requires i <= |s|
  {
    s[..i] + [n] + s[i..]
  }

  /** Two lists that have no node in common. */
  ghost predicate Separate(h: ListHead, s: seq<ListHead>, k: ListHead, q: seq<ListHead>) {
    h != k && h !in q && k !in s && forall x :: x in s ==> x !in q
  }

  /** `INIT_LIST_HEAD`. */
  method InitListHead(n: ListHead)
    modifies n
    ensures Ring(n, [])
  {
    n.next := n;
    n.prev := n;
  }

  lemma InsertedNoDup(s: seq<ListHead>, i: nat, n: ListHead)
    requires NoDup(s) && n !in s && i <= |s|
    ensures NoDup(Inserted(s, i, n))
  {
  }

  lemma RemovedNoDup(s: seq<ListHead>, i: nat)
    requires NoDup(s) && i < |s|
    ensures NoDup(Removed(s, i)) && s[i] !in Removed(s, i)
    ensures forall x :: x in Removed(s, i) <==> x in s && x != s[i]
  {
    var r := Removed(s, i);
    forall x | x in s && x != s[i] ensures x in r
    {
      var j :| 0 <= j < |s| && s[j] == x;
      if j < i { assert r[j] == x; } else { assert r[j - 1] == x; }
    }
  }

  /** `__list_add`: between the nodes at `i - 1` and `i`. */
  method ListAddBetween(n: ListHead, prev: ListHead, next: ListHead, ghost head: ListHead, ghost s: seq<ListHead>,
                        ghost i: nat)
    requires Ring(head, s) && n != head && n !in s && i <= |s| && prev == At(head, s, i - 1) && next == At(head, s, i)
    modifies n, prev, next
    ensures Ring(head, Inserted(s, i, n))
  {
    ghost var t := Inserted(s, i, n);
    InsertedNoDup(s, i, n);
    assert forall j :: -1 <= j < i ==> At(head, t, j) == At(head, s, j);
    assert forall j :: i < j <= |t| ==> At(head, t, j) == At(head, s, j - 1);
    next.prev := n;
    n.next := next;
    n.prev := prev;
    prev.next := n;
    assert At(head, t, i) == n;
    forall j | -1 <= j < |t| ensures At(head, t, j).next == At(head, t, j + 1)
    {
      if j != i && j != i - 1 { Others(head, s, if j < i then j else j - 1, i - 1); }
    }
    forall j | 0 <= j <= |t| ensures At(head, t, j).prev == At(head, t, j - 1)
    {
      if j != i && j != i + 1 { Others(head, s, if j < i then j else j - 1, i); }
    }
  }

  /** Different places of a list hold different nodes, but for the head's two. */
  lemma Others(head: ListHead, s: seq<ListHead>, j: int, k: int)
    requires head !in s && NoDup(s) && -1 <= j <= |s| && -1 <= k <= |s| && j != k
    requires !(j <= -1 && k >= |s|) && !(k <= -1 && j >= |s|)
    ensures At(head, s, j) != At(head, s, k)
  {
  }

  /** `list_add`: a new first member. */
  method ListAdd(n: ListHead, head: ListHead, ghost s: seq<ListHead>)
    requires Ring(head, s) && n != head && n !in s
    modifies n, head, s
    ensures Ring(head, [n] + s)
  {
    RingEnds(head, s);
    var next := head.next;
    assert Inserted(s, 0, n) == [n] + s;
    ListAddBetween(n, head, next, head, s, 0);
  }

  /** `list_add_tail`: a new last member. */
  method ListAddTail(n: ListHead, head: ListHead, ghost s: seq<ListHead>)
    requires Ring(head, s) && n != head && n !in s
    modifies n, head, s
    ensures Ring(head, s + [n])
  {
    RingEnds(head, s);
    var prev := head.prev;
    assert Inserted(s, |s|, n) == s + [n];
    ListAddBetween(n, prev, head, head, s, |s|);
  }

  /** `__list_del`: the neighbours of the member at `i` are linked to each other. */
  method ListDelBetween(prev: ListHead, next: ListHead, ghost head: ListHead, ghost s: seq<ListHead>, ghost i: nat)
    requires Ring(head, s) && i < |s| && prev == At(head, s, i - 1) && next == At(head, s, i + 1)
    modifies prev, next
    ensures Ring(head, Removed(s, i))
  {
    ghost var t := Removed(s, i);
    RemovedNoDup(s, i);
    assert forall j :: -1 <= j < i ==> At(head, t, j) == At(head, s, j);
    assert forall j :: i <= j <= |t| ==> At(head, t, j) == At(head, s, j + 1);
    next.prev := prev;
    prev.next := next;
    forall j | -1 <= j < |t| ensures At(head, t, j).next == At(head, t, j + 1)
    {
      if j != i - 1 { Others(head, s, if j < i then j else j + 1, i - 1); }
    }
    forall j | 0 <= j <= |t| ensures At(head, t, j).prev == At(head, t, j - 1)
    {
      if j != i { Others(head, s, if j < i then j else j + 1, i + 1); }
    }
  }

  lemma Neighbours(head: ListHead, s: seq<ListHead>, i: nat)
    requires Ring(head, s) && i < |s|
    ensures s[i].prev == At(head, s, i - 1) && s[i].next == At(head, s, i + 1)
    ensures head !in s && NoDup(s)
    ensures s[i].prev == head || s[i].prev in s
    ensures s[i].next == head || s[i].next in s
  {
    assert At(head, s, i) == s[i];
  }

  /** `list_del_init`. */
  method ListDelInit(entry: ListHead, ghost head: ListHead, ghost s: seq<ListHead>, ghost i: nat)
    requires Ring(head, s) && i < |s| && s[i] == entry
    modifies head, s
    ensures Ring(head, Removed(s, i)) && Ring(entry, [])
  {
    Neighbours(head, s, i);
    RemovedNoDup(s, i);
    var prev, next := entry.prev, entry.next;
    ListDelBetween(prev, next, head, s, i);
    InitListHead(entry);
  }

  /** `list_move_tail`: from one list to the end of another, or of the same. */
  method ListMoveTail(entry: ListHead, to: ListHead, ghost head: ListHead, ghost s: seq<ListHead>, ghost i: nat,
                      ghost q: seq<ListHead>)
    requires Ring(head, s) && i < |s| && s[i] == entry
    requires if to == head then q == Removed(s, i) else Ring(to, q) && Separate(head, s, to, q)
    modifies head, s, to, q
    ensures Ring(to, q + [entry])
    ensures to != head ==> Ring(head, Removed(s, i))
  {
    Neighbours(head, s, i);
    RemovedNoDup(s, i);
    var prev, next := entry.prev, entry.next;
    ListDelBetween(prev, next, head, s, i);
    ghost var r := Removed(s, i);
    label deleted:
    ListAddTail(entry, to, q);
    if to != head {
      forall j | -1 <= j <= |r|
        ensures At(head, r, j).next == old@deleted(At(head, r, j).next)
        ensures At(head, r, j).prev == old@deleted(At(head, r, j).prev)
      {
        assert 0 <= j < |r| ==> r[j] in r && r[j] in s && r[j] !in q;
      }
    }
  }

  /** `list_move`: the same, to the front. */
  method ListMove(entry: ListHead, to: ListHead, ghost head: ListHead, ghost s: seq<ListHead>, ghost i: nat,
                  ghost q: seq<ListHead>)
    requires Ring(head, s) && i < |s| && s[i] == entry
    requires if to == head then q == Removed(s, i) else Ring(to, q) && Separate(head, s, to, q)
    modifies head, s, to, q
    ensures Ring(to, [entry] + q)
    ensures to != head ==> Ring(head, Removed(s, i))
  {
    Neighbours(head, s, i);
    RemovedNoDup(s, i);
    var prev, next := entry.prev, entry.next;
    ListDelBetween(prev, next, head, s, i);
    ghost var r := Removed(s, i);
    label deleted:
    ListAdd(entry, to, q);
    if to != head {
      forall j | -1 <= j <= |r|
        ensures At(head, r, j).next == old@deleted(At(head, r, j).next)
        ensures At(head, r, j).prev == old@deleted(At(head, r, j).prev)
      {
        assert 0 <= j < |r| ==> r[j] in r && r[j] in s && r[j] !in q;
      }
    }
  }

  /** `list_splice_init`: the members of `list` go before those of `head`. */
  method ListSpliceInit(list: ListHead, head: ListHead, ghost s: seq<ListHead>, ghost q: seq<ListHead>)
    requires Ring(list, s) && Ring(head, q) && Separate(list, s, head, q)
    modifies list, head, s, q
    ensures Ring(head, s + q) && Ring(list, [])
  {
    RingEnds(list, s);
    RingEnds(head, q);
    SplicedNoDup(list, s, head, q);
    if list.next != list {
      var first, last, at := list.next, list.prev, head.next;
      assert first in s && last in s && at == At(head, q, 0) && first == s[0] && last == s[|s| - 1];
      first.prev := head;
      head.next := first;
      last.next := at;
      at.prev := last;
      list.next := list;
      list.prev := list;
      forall j | -1 <= j < |s + q| ensures At(head, s + q, j).next == At(head, s + q, j + 1)
      {
        if 0 <= j < |s| {
          if j < |s| - 1 { Others(list, s, j, |s| - 1); }
          assert old(At(list, s, j).next) == At(list, s, j + 1);
        } else if |s| <= j {
          assert At(head, s + q, j) == q[j - |s|] && q[j - |s|].next == old(q[j - |s|].next);
          assert old(At(head, q, j - |s|).next) == At(head, q, j - |s| + 1);
        }
      }
      forall j | 0 <= j <= |s + q| ensures At(head, s + q, j).prev == At(head, s + q, j - 1)
      {
        if 0 < j < |s| {
          Others(list, s, j, 0);
          assert s[j] in s && (at == head || at in q);
          assert old(At(list, s, j).prev) == At(list, s, j - 1);
        } else if |s| < j {
          Others(head, q, j - |s|, 0);
          assert At(head, s + q, j) == At(head, q, j - |s|);
          assert old(At(head, q, j - |s|).prev) == At(head, q, j - |s| - 1);
        }
      }
    } else {
      assert s == [] && s + q == q;
    }
  }

  lemma SplicedNoDup(list: ListHead, s: seq<ListHead>, head: ListHead, q: seq<ListHead>)
    requires NoDup(s) && NoDup(q) && Separate(list, s, head, q) && head !in q
    ensures NoDup(s + q) && head !in s + q
  {
    forall i, j | 0 <= i < j < |s + q| ensures (s + q)[i] != (s + q)[j]
    {
      if i < |s| <= j { assert s[i] in s; }
    }
  }
}
