/**
 The merges of `impl/usm/list_sort.c`, which relink the nodes in place.
 */
module ListMerge {
  import opened MergeOrder
  import opened Lists

  // ---------------------------------------------------------------- merge

  /** Merging `p` and `q` has taken `d`; `x` and `y` are what is left of the two. */
  ghost predicate Split<T>(cmp: (T, T) --> int, p: seq<T>, q: seq<T>, d: seq<T>, x: seq<T>, y: seq<T>) {
    && x != [] && y != []
    && Callable(cmp, p, q) && Callable(cmp, x, y)
    && Merged(cmp, p, q) == d + Merged(cmp, x, y)
    && NoDup(d + x + y)
    && (forall n :: n in d + x + y ==> n in p + q)
  }

  ghost predicate Disjoint<T>(d: seq<T>, x: seq<T>) {
    forall i, j :: 0 <= i < |d| && 0 <= j < |x| ==> d[i] != x[j]
  }

  lemma NoDupParts<T>(d: seq<T>, r: seq<T>)
    requires NoDup(d + r)
    ensures NoDup(d) && NoDup(r) && Disjoint(d, r)
  {
    var s := d + r;
    assert forall i :: 0 <= i < |d| ==> s[i] == d[i];
    assert forall i :: 0 <= i < |r| ==> s[|d| + i] == r[i];
  }

  lemma SplitFacts<T>(cmp: (T, T) --> int, p: seq<T>, q: seq<T>, d: seq<T>, x: seq<T>, y: seq<T>)
    requires Split(cmp, p, q, d, x, y)
    ensures x != [] && y != [] && cmp.requires(x[0], y[0])
    ensures forall i :: 0 <= i < |d| - 1 ==> d[i] != d[|d| - 1]
    ensures Disjoint(d, x) && Disjoint(d, y) && Disjoint(x, y)
    ensures forall n :: n in d + x + y ==> n in p + q
  {
    var s := d + x + y;
    assert forall i :: 0 <= i < |d| ==> s[i] == d[i];
    assert forall i :: 0 <= i < |x| ==> s[|d| + i] == x[i];
    assert forall i :: 0 <= i < |y| ==> s[|d| + |x| + i] == y[i];
  }

  lemma SplitStart<T>(cmp: (T, T) --> int, p: seq<T>, q: seq<T>)
    requires p != [] && q != [] && NoDup(p + q) && Callable(cmp, p, q)
    ensures Split(cmp, p, q, [], p, q)
  {
    assert [] + p + q == p + q;
  }

  lemma SplitLeft<T>(cmp: (T, T) --> int, p: seq<T>, q: seq<T>, d: seq<T>, x: seq<T>, y: seq<T>)
    requires Split(cmp, p, q, d, x, y) && cmp.requires(x[0], y[0]) && cmp(x[0], y[0]) <= 0
    ensures |x| > 1 ==> Split(cmp, p, q, d + [x[0]], x[1..], y)
    ensures |x| == 1 ==> Merged(cmp, p, q) == d + [x[0]] + y && NoDup(d + [x[0]] + y)
  {
    assert x == [x[0]] + x[1..];
    assert d + x + y == d + [x[0]] + x[1..] + y;
    if |x| == 1 { assert d + x + y == d + [x[0]] + y; }
    assert d + ([x[0]] + Merged(cmp, x[1..], y)) == d + [x[0]] + Merged(cmp, x[1..], y);
  }

  lemma SplitRight<T>(cmp: (T, T) --> int, p: seq<T>, q: seq<T>, d: seq<T>, x: seq<T>, y: seq<T>)
    requires Split(cmp, p, q, d, x, y) && cmp.requires(x[0], y[0]) && cmp(x[0], y[0]) > 0
    ensures |y| > 1 ==> Split(cmp, p, q, d + [y[0]], x, y[1..])
    ensures |y| == 1 ==> Merged(cmp, p, q) == d + [y[0]] + x && NoDup(d + [y[0]] + x)
  {
    SplitFacts(cmp, p, q, d, x, y);
    NoDupParts(d + x, y);
    NoDupParts(d, x);
    assert y == [y[0]] + y[1..];
    assert NoDup(d + [y[0]] + x + y[1..]);
    assert d + ([y[0]] + Merged(cmp, x, y[1..])) == d + [y[0]] + Merged(cmp, x, y[1..]);
    assert y[1..] == [] ==> Merged(cmp, x, y[1..]) == x;
  }

  /** `merge`: `d` is what has been linked so far, `x` and `y` are what is left of the two lists. */
  method Merge(cmp: (ListHead, ListHead) --> int, a0: ListHead, b0: ListHead,
               ghost p: seq<ListHead>, ghost q: seq<ListHead>) returns (head: ListHead)
    requires Chain(p) && Chain(q) && p[0] == a0 && q[0] == b0
    requires NoDup(p + q) && Callable(cmp, p, q)
    modifies Nodes(p + q)`next
    ensures Chain(Merged(cmp, p, q)) && head == Merged(cmp, p, q)[0]
  {
    hide Split, Merged, NoDup, Callable;
    var a, b := a0, b0;
    var tail: ListHead? := null;
    ghost var d: seq<ListHead>, x, y := [], p, q;
    head := a0;
    SplitStart(cmp, p, q);
    while true
      invariant Split(cmp, p, q, d, x, y)
      invariant Chain(x) && Chain(y) && x[0] == a && y[0] == b
      invariant Linked(d)
      invariant if d == [] then tail == null else tail == d[|d| - 1] && head == d[0]
      decreases |x| + |y|
    {
      SplitFacts(cmp, p, q, d, x, y);
      if cmp(a, b) <= 0 {
        SplitLeft(cmp, p, q, d, x, y);
        if tail == null { head := a; } else { tail.next := a; }
        LinkedSnoc(d, a);
        ChainTail(x);
        tail := a;
        d := d + [a];
        if a.next == null {
          tail.next := b;
          ChainJoin(d, y);
          return;
        }
        a := a.next;
        x := x[1..];
      } else {
        SplitRight(cmp, p, q, d, x, y);
        if tail == null { head := b; } else { tail.next := b; }
        LinkedSnoc(d, b);
        ChainTail(y);
        tail := b;
        d := d + [b];
        if b.next == null {
          tail.next := a;
          ChainJoin(d, x);
          return;
        }
        b := b.next;
        y := y[1..];
      }
    }
  }

  // ---------------------------------------------------------------- merge_final

  /** The first loop of `merge_final`: merge until one list runs out, restoring the `prev` links. */
  method MergeRelink(cmp: (ListHead, ListHead) --> int, head: ListHead, a0: ListHead, b0: ListHead,
                     ghost p: seq<ListHead>, ghost q: seq<ListHead>)
    returns (tail: ListHead, b: ListHead, ghost d: seq<ListHead>, ghost r: seq<ListHead>)
    requires Chain(p) && Chain(q) && p[0] == a0 && q[0] == b0 && head !in p + q
    requires NoDup(p + q) && Callable(cmp, p, q)
    modifies head, Nodes(p + q)
    ensures Merged(cmp, p, q) == d + r && NoDup(d + r)
    ensures forall n :: n in d + r ==> n in p + q
    ensures Strand(head, d) && tail == At(head, d, |d| - 1) && Chain(r) && r[0] == b
  {
    hide Split, Merged, NoDup, Callable;
    var a;
    a, b, tail := a0, b0, head;
    ghost var x, y := p, q;
    d := [];
    SplitStart(cmp, p, q);
    while true
      invariant Split(cmp, p, q, d, x, y)
      invariant Chain(x) && Chain(y) && x[0] == a && y[0] == b
      invariant Strand(head, d) && tail == At(head, d, |d| - 1)
      decreases |x| + |y|
    {
      SplitFacts(cmp, p, q, d, x, y);
      if cmp(a, b) <= 0 {
        SplitLeft(cmp, p, q, d, x, y);
        tail.next := a;
        a.prev := tail;
        StrandSnoc(head, d, a);
        ChainTail(x);
        tail := a;
        d := d + [a];
        if a.next == null {
          r := y;
          return;
        }
        a := a.next;
        x := x[1..];
      } else {
        SplitRight(cmp, p, q, d, x, y);
        tail.next := b;
        b.prev := tail;
        StrandSnoc(head, d, b);
        ChainTail(y);
        tail := b;
        d := d + [b];
        if b.next == null {
          b := a;
          r := x;
          return;
        }
        b := b.next;
        y := y[1..];
      }
    }
  }

  /** The second loop of `merge_final`: the rest is in order, and gets its `prev` links. */
  method RelinkRest(cmp: (ListHead, ListHead) --> int, head: ListHead, tail0: ListHead, b0: ListHead,
                    ghost d0: seq<ListHead>, ghost r0: seq<ListHead>)
    requires Strand(head, d0) && tail0 == At(head, d0, |d0| - 1) && Chain(r0) && r0[0] == b0
    requires NoDup(d0 + r0) && head !in d0 + r0
    requires forall n :: n in r0 ==> cmp.requires(n, n)
    modifies head, Nodes(d0 + r0)
    ensures Ring(head, d0 + r0)
  {
    hide NoDup;
    var tail: ListHead, b: ListHead := tail0, b0;
    var count := 0;
    ghost var d: seq<ListHead>, r: seq<ListHead> := d0, r0;
    NoDupParts(d, r);
    tail.next := b;
    while true
      invariant d + r == d0 + r0 && Strand(head, d) && tail == At(head, d, |d| - 1) && tail.next == b
      invariant Chain(r) && r[0] == b && forall n :: n in r ==> n in r0
      decreases |r|
    {
      count := (count + 1) % 256;
      if count == 0 {
        var _ := cmp(b, b);
      }
      ChainTail(r);
      NoDupParts(d, r);
      b.prev := tail;
      StrandSnoc(head, d, b);
      tail := b;
      d, r := d + [b], r[1..];
      if b.next == null {
        break;
      }
      b := b.next;
    }
    assert d == d0 + r0;
    NoDupParts(d, []);
    tail.next := head;
    head.prev := tail;
    StrandClose(head, d);
  }

  /** `merge_final`. */
  method MergeFinal(cmp: (ListHead, ListHead) --> int, head: ListHead, a: ListHead, b: ListHead,
                    ghost p: seq<ListHead>, ghost q: seq<ListHead>)
    requires Chain(p) && Chain(q) && p[0] == a && q[0] == b && head !in p + q
    requires NoDup(p + q) && Callable(cmp, p, q)
    requires forall n :: n in p + q ==> cmp.requires(n, n)
    modifies head, Nodes(p + q)
    ensures Ring(head, Merged(cmp, p, q))
  {
    hide Merged, Ring, Strand, NoDup;
    ghost var d, r;
    var tail, rest;
    tail, rest, d, r := MergeRelink(cmp, head, a, b, p, q);
    RelinkRest(cmp, head, tail, rest, d, r);
  }
}
