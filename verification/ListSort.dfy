/**
 The main function of `impl/usm/list_sort.c`: pending sublists, merged in step with the bits of a counter.
 */
module ListSort {
  import opened MergeOrder
  import opened Pending
  import opened Lists
  import opened ListMerge

  // ---------------------------------------------------------------- the pending sublists, as sequences

  /** `e` cuts the first `count` elements of the input, from the back, into blocks; sublist k is block k, sorted. */
  ghost predicate Blocks<T>(cmp: (T, T) --> int, o: seq<T>, p: seq<seq<T>>, e: seq<nat>, count: nat) {
    && |e| == |p| + 1 && e[0] == count <= |o| && e[|p|] == 0
    && (forall j, k :: 0 <= j < k <= |p| ==> e[k] < e[j])
    && (forall k :: 0 <= k < |p| ==> Block(cmp, o, p[k], e[k + 1], e[k]))
  }

  ghost predicate Block<T>(cmp: (T, T) --> int, o: seq<T>, s: seq<T>, lo: nat, hi: nat) {
    && lo < hi <= |o| && |s| == hi - lo
    && multiset(s) == multiset(o[lo..hi]) && Sorted(cmp, o, s)
  }

  /** The sublists have the sizes that belong to `count`. */
  ghost predicate Sized<T>(p: seq<seq<T>>, count: nat) {
    |p| == |Sizes(count)| && forall k :: 0 <= k < |p| ==> |p[k]| == Sizes(count)[k]
  }

  lemma PosUnique<T>(o: seq<T>, i: nat)
    requires NoDup(o) && i < |o|
    ensures o[i] in o && Pos(o, o[i]) == i
  {
  }

  lemma BlockIn<T>(cmp: (T, T) --> int, o: seq<T>, s: seq<T>, lo: nat, hi: nat, x: T)
    requires NoDup(o) && Block(cmp, o, s, lo, hi) && x in s
    ensures x in o && lo <= Pos(o, x) < hi
  {
    assert x in multiset(o[lo..hi]);
    var i :| 0 <= i < hi - lo && o[lo..hi][i] == x;
    PosUnique(o, lo + i);
  }

  lemma BlockNoDup<T>(cmp: (T, T) --> int, o: seq<T>, s: seq<T>, lo: nat, hi: nat)
    requires NoDup(o) && Block(cmp, o, s, lo, hi)
    ensures NoDup(s)
  {
  }

  lemma BlocksEarlier<T>(cmp: (T, T) --> int, o: seq<T>, a: seq<T>, b: seq<T>, lo: nat, mid: nat, mid': nat, hi: nat)
    requires NoDup(o) && Block(cmp, o, a, lo, mid) && Block(cmp, o, b, mid', hi) && mid <= mid'
    ensures AllEarlier(o, a, b) && Disjoint(a, b)
  {
    forall x, y | x in a && y in b ensures Earlier(o, x, y)
    {
      BlockIn(cmp, o, a, lo, mid, x);
      BlockIn(cmp, o, b, mid', hi, y);
    }
    forall i, j | 0 <= i < |a| && 0 <= j < |b| ensures a[i] != b[j] { assert Earlier(o, a[i], b[j]); }
  }

  /** Merging two neighbouring blocks, the older one first, makes one block. */
  lemma BlockMerge<T>(cmp: (T, T) --> int, o: seq<T>, a: seq<T>, b: seq<T>, lo: nat, mid: nat, hi: nat)
    requires Comparator(cmp, o) && Block(cmp, o, a, lo, mid) && Block(cmp, o, b, mid, hi)
    ensures Callable(cmp, a, b) && NoDup(a + b) && Block(cmp, o, Merged(cmp, a, b), lo, hi)
  {
    hide Comparator, Earlier, Before, Pos, Merged;
    ComparatorNoDup(cmp, o);
    BlocksEarlier(cmp, o, a, b, lo, mid, mid, hi);
    EarlierCallable(cmp, o, a, b);
    MergedElements(cmp, a, b);
    MergedSorted(cmp, o, a, b);
    assert o[lo..hi] == o[lo..mid] + o[mid..hi];
    BlockNoDup(cmp, o, a, lo, mid);
    BlockNoDup(cmp, o, b, mid, hi);
  }

  lemma ComparatorNoDup<T>(cmp: (T, T) --> int, o: seq<T>)
    requires Comparator(cmp, o)
    ensures NoDup(o)
  {
  }

  function Joined<T>(p: seq<seq<T>>, k: nat, m: seq<T>): seq<seq<T>>
    requires k + 1 < |p|
  {
    p[..k] + [m] + p[k + 2..]
  }

  function CutAt(e: seq<nat>, k: nat): seq<nat>
    requires k + 1 < |e|
  {
    e[..k + 1] + e[k + 2..]
  }

  lemma BlocksJoin<T>(cmp: (T, T) --> int, o: seq<T>, p: seq<seq<T>>, e: seq<nat>, c: nat, k: nat)
    requires Comparator(cmp, o) && Blocks(cmp, o, p, e, c) && k + 1 < |p|
    ensures Callable(cmp, p[k + 1], p[k]) && NoDup(p[k + 1] + p[k])
    ensures Blocks(cmp, o, Joined(p, k, Merged(cmp, p[k + 1], p[k])), CutAt(e, k), c)
  {
    hide Block;
    BlockMerge(cmp, o, p[k + 1], p[k], e[k + 2], e[k + 1], e[k]);
    var m := Merged(cmp, p[k + 1], p[k]);
    var q, f := Joined(p, k, m), CutAt(e, k);
    assert forall i :: 0 <= i <= k ==> f[i] == e[i];
    assert forall i :: k + 1 <= i < |f| ==> f[i] == e[i + 1];
    forall i | 0 <= i < |q| ensures Block(cmp, o, q[i], f[i + 1], f[i])
    {
      if i < k {
        assert q[i] == p[i];
      } else if i == k {
        assert q[i] == m;
      } else {
        assert q[i] == p[i + 1];
      }
    }
  }

  lemma BlocksPush<T>(cmp: (T, T) --> int, o: seq<T>, p: seq<seq<T>>, e: seq<nat>, c: nat)
    requires Blocks(cmp, o, p, e, c) && c < |o|
    ensures Blocks(cmp, o, [[o[c]]] + p, [c + 1] + e, c + 1)
  {
    var q, f := [[o[c]]] + p, [c + 1] + e;
    assert Block(cmp, o, [o[c]], c, c + 1) by { assert o[c..c + 1] == [o[c]]; }
    forall i | 0 <= i < |q| ensures Block(cmp, o, q[i], f[i + 1], f[i])
    {
      if i > 0 { assert q[i] == p[i - 1]; }
    }
  }

  lemma SizedJoin<T>(p: seq<seq<T>>, c: nat, m: seq<T>, x: T)
    requires Sized(p, c)
    ensures AboveOnes(c) == 0 ==> TrailingOnes(c) == |p| && Sized([[x]] + p, c + 1)
    ensures AboveOnes(c) != 0 ==>
      var k := TrailingOnes(c);
      && k + 1 < |p| && |p[k]| == |p[k + 1]| == Exp2(k)
      && (|m| == |p[k]| + |p[k + 1]| ==> Sized([[x]] + Joined(p, k, m), c + 1))
  {
    hide Sizes;
    NextSizes(c);
    var k, s := TrailingOnes(c), Sizes(c);
    if AboveOnes(c) != 0 && |m| == |p[k]| + |p[k + 1]| {
      var q := [[x]] + Joined(p, k, m);
      var t := [1] + JoinAt(s, k);
      forall i | 0 <= i < |q| ensures |q[i]| == t[i]
      {
        if i == 0 {
        } else if i <= k {
          assert q[i] == p[i - 1] && t[i] == s[i - 1];
        } else if i == k + 1 {
          assert q[i] == m && t[i] == s[k] + s[k + 1];
        } else {
          assert q[i] == p[i] && t[i] == s[i];
        }
      }
    }
  }

  /** Nodes of different sublists, and of the rest of the input, are different. */
  ghost predicate Apart<T>(p: seq<seq<T>>) {
    forall j, k :: 0 <= j < |p| && 0 <= k < |p| && j != k ==> Disjoint(p[j], p[k])
  }

  lemma BlocksApart<T>(cmp: (T, T) --> int, o: seq<T>, p: seq<seq<T>>, e: seq<nat>, c: nat)
    requires NoDup(o) && Blocks(cmp, o, p, e, c)
    ensures Apart(p)
    ensures forall k :: 0 <= k < |p| ==> NoDup(p[k]) && Disjoint(p[k], o[c..])
    ensures forall k, i :: 0 <= k < |p| && 0 <= i < |p[k]| ==> p[k][i] in o
  {
    forall j, k | 0 <= j < k < |p| ensures Disjoint(p[j], p[k]) && Disjoint(p[k], p[j])
    {
      BlocksEarlier(cmp, o, p[k], p[j], e[k + 1], e[k], e[j + 1], e[j]);
    }
    forall k | 0 <= k < |p| ensures NoDup(p[k]) && Disjoint(p[k], o[c..])
    {
      BlockNoDup(cmp, o, p[k], e[k + 1], e[k]);
      forall i, j | 0 <= i < |p[k]| && 0 <= j < |o[c..]| ensures p[k][i] != o[c..][j]
      {
        BlockIn(cmp, o, p[k], e[k + 1], e[k], p[k][i]);
        PosUnique(o, c + j);
      }
    }
    forall k, i | 0 <= k < |p| && 0 <= i < |p[k]| ensures p[k][i] in o
    {
      BlockIn(cmp, o, p[k], e[k + 1], e[k], p[k][i]);
    }
  }

  // ---------------------------------------------------------------- the pending sublists, as linked nodes

  ghost function AllNodes(p: seq<seq<ListHead>>): set<ListHead> {
    set k, i | 0 <= k < |p| && 0 <= i < |p[k]| :: p[k][i]
  }

  ghost function First(p: seq<seq<ListHead>>, k: nat): ListHead? {
    if k < |p| && p[k] != [] then p[k][0] else null
  }

  ghost predicate LinkAt(p: seq<seq<ListHead>>, k: nat)
    requires k < |p|
    reads p[k]
  {
    p[k] != [] && p[k][0].prev == First(p, k + 1)
  }

  /** Each sublist is null-terminated; their first nodes are linked by `prev`, newest first. */
  ghost predicate Pends(p: seq<seq<ListHead>>, pending: ListHead?)
    reads AllNodes(p)
  {
    && (forall k :: 0 <= k < |p| ==> Chain(p[k]))
    && (forall k :: 0 <= k < |p| ==> LinkAt(p, k))
    && pending == First(p, 0)
  }

  /** The walk down the pending sublists, one for each trailing one of `count`; `tail` is the node whose `prev`
      is to be looked at next, or null for `pending` itself. */
  method Walk(pending: ListHead?, count: nat, ghost p: seq<seq<ListHead>>) returns (tail: ListHead?, bits: nat)
    requires Pends(p, pending) && Sized(p, count)
    ensures bits == AboveOnes(count) && TrailingOnes(count) <= |p|
    ensures tail == if TrailingOnes(count) == 0 then null else First(p, TrailingOnes(count) - 1)
  {
    hide Sizes;
    NextSizes(count);
    ghost var k, i := TrailingOnes(count), 0;
    bits := count;
    tail := null;
    while bits % 2 == 1
      invariant AboveOnes(bits) == AboveOnes(count) && TrailingOnes(bits) + i == k
      invariant tail == if i == 0 then null else First(p, i - 1)
      decreases bits
    {
      if i > 0 { assert LinkAt(p, i - 1); }
      tail := if tail == null then pending else tail.prev;
      bits := bits / 2;
      i := i + 1;
    }
  }

  lemma PendsJoined(p: seq<seq<ListHead>>, k: nat, m: seq<ListHead>, pending: ListHead?)
    requires k + 1 < |p| && Chain(m)
    requires forall j :: 0 <= j < |p| && j != k && j != k + 1 ==> Chain(p[j])
    requires forall j :: 0 <= j < |p| && j + 1 != k && j != k && j != k + 1 ==> LinkAt(p, j)
    requires k > 0 ==> p[k - 1] != [] && p[k - 1][0].prev == m[0]
    requires m[0].prev == First(p, k + 2)
    requires pending == if k == 0 then m[0] else First(p, 0)
    ensures Pends(Joined(p, k, m), pending)
  {
    var q := Joined(p, k, m);
    assert forall j :: 0 <= j < k ==> q[j] == p[j];
    assert q[k] == m;
    assert forall j :: k + 1 <= j < |q| ==> q[j] == p[j + 1];
    forall j | 0 <= j < |q| ensures Chain(q[j]) && LinkAt(q, j)
    {
      if j < k {
        assert Chain(p[j]);
        if j + 1 < k { assert LinkAt(p, j); }
      } else if j > k {
        assert Chain(p[j + 1]) && LinkAt(p, j + 1);
      }
    }
  }

  lemma ApartPair<T>(p: seq<seq<T>>, j: nat, k: nat)
    requires Apart(p) && j < |p| && k < |p| && j != k
    ensures Disjoint(p[j], p[k])
  {
  }

  /** Merge sublists k + 1 and k. */
  method MergeSublists(cmp: (ListHead, ListHead) --> int, b: ListHead, a: ListHead,
                       ghost p: seq<seq<ListHead>>, ghost k: nat) returns (m: ListHead)
    requires k + 1 < |p| && (forall j :: 0 <= j < |p| ==> Chain(p[j]))
    requires p[k] != [] && p[k + 1] != [] && b == p[k + 1][0] && a == p[k][0]
    requires Apart(p) && NoDup(p[k + 1] + p[k]) && Callable(cmp, p[k + 1], p[k])
    modifies Nodes(p[k + 1] + p[k])`next
    ensures Chain(Merged(cmp, p[k + 1], p[k])) && m == Merged(cmp, p[k + 1], p[k])[0]
    ensures forall j :: 0 <= j < |p| && j != k && j != k + 1 ==> Chain(p[j])
  {
    hide Merged, NoDup, Callable, Apart;
    m := Merge(cmp, b, a, p[k + 1], p[k]);
    forall j | 0 <= j < |p| && j != k && j != k + 1 ensures Chain(p[j])
    {
      ApartPair(p, j, k);
      ApartPair(p, j, k + 1);
      assert old(Chain(p[j]));
    }
  }

  /** Put the merged sublist in the place of its two parts. */
  method Install(pending0: ListHead, tail: ListHead?, m: ListHead, b: ListHead,
                 ghost p: seq<seq<ListHead>>, ghost k: nat, ghost merged: seq<ListHead>) returns (pending: ListHead)
    requires k + 1 < |p| && Apart(p) && p[k] != [] && p[k + 1] != [] && b == p[k + 1][0]
    requires Chain(merged) && m == merged[0] && (m == p[k][0] || m == p[k + 1][0])
    requires forall j :: 0 <= j < |p| && j != k && j != k + 1 ==> Chain(p[j])
    requires forall j :: 0 <= j < |p| ==> LinkAt(p, j)
    requires pending0 == First(p, 0) && tail == if k == 0 then null else First(p, k - 1)
    modifies AllNodes(p)`prev
    ensures Pends(Joined(p, k, merged), pending)
  {
    hide Apart, Pends;
    pending := pending0;
    forall j | 0 <= j < |p| && j != k && j != k + 1 ensures p[j][0] != m
    {
      ApartPair(p, j, k);
      ApartPair(p, j, k + 1);
    }
    forall j | 0 <= j < |p| && j + 1 != k ensures tail != null ==> p[j][0] != tail
    {
      if k > 0 { ApartPair(p, j, k - 1); }
    }
    assert LinkAt(p, k + 1);
    m.prev := b.prev;
    if tail == null { pending := m; } else { tail.prev := m; }
    forall j | 0 <= j < |p| && j + 1 != k && j != k && j != k + 1 ensures LinkAt(p, j)
    {
      assert old(LinkAt(p, j));
    }
    PendsJoined(p, k, merged, pending);
  }

  /** Merge sublists k + 1 and k and put the result in their place. */
  method MergePair(cmp: (ListHead, ListHead) --> int, pending0: ListHead?, tail: ListHead?,
                   ghost p: seq<seq<ListHead>>, ghost k: nat) returns (pending: ListHead)
    requires Pends(p, pending0) && k + 1 < |p| && tail == if k == 0 then null else First(p, k - 1)
    requires Apart(p) && NoDup(p[k + 1] + p[k]) && Callable(cmp, p[k + 1], p[k])
    modifies AllNodes(p)
    ensures Pends(Joined(p, k, Merged(cmp, p[k + 1], p[k])), pending)
  {
    hide Merged, NoDup, Callable, Apart, Linked;
    assert LinkAt(p, k);
    if k > 0 { assert LinkAt(p, k - 1); }
    var a := if tail == null then pending0 else tail.prev;
    var b := a.prev;
    var m := MergeSublists(cmp, b, a, p, k);
    forall j | 0 <= j < |p| ensures LinkAt(p, j)
    {
      assert old(LinkAt(p, j));
    }
    HeadOfMerge(cmp, p[k + 1], p[k]);
    pending := Install(pending0, tail, m, b, p, k, Merged(cmp, p[k + 1], p[k]));
  }

  lemma HeadOfMerge<T>(cmp: (T, T) --> int, a: seq<T>, b: seq<T>)
    requires Callable(cmp, a, b) && a != [] && b != []
    ensures Merged(cmp, a, b)[0] == a[0] || Merged(cmp, a, b)[0] == b[0]
  {
  }

  // ---------------------------------------------------------------- the two loops

  /** The first `count` nodes are in the pending sublists. */
  ghost predicate Taken(cmp: (ListHead, ListHead) --> int, o: seq<ListHead>, p: seq<seq<ListHead>>, e: seq<nat>,
                        count: nat)
  {
    Comparator(cmp, o) && Blocks(cmp, o, p, e, count) && Sized(p, count)
  }

  lemma TakenFacts(cmp: (ListHead, ListHead) --> int, o: seq<ListHead>, p: seq<seq<ListHead>>, e: seq<nat>,
                   count: nat)
    requires Taken(cmp, o, p, e, count)
    ensures NoDup(o) && Sized(p, count) && Apart(p) && count <= |o|
    ensures forall k :: 0 <= k < |p| ==> Disjoint(p[k], o[count..])
    ensures AllNodes(p) <= Nodes(o)
  {
    BlocksApart(cmp, o, p, e, count);
  }

  lemma TakenJoin(cmp: (ListHead, ListHead) --> int, o: seq<ListHead>, p: seq<seq<ListHead>>, e: seq<nat>, c: nat)
    requires Taken(cmp, o, p, e, c) && c < |o|
    ensures AboveOnes(c) == 0 ==> Taken(cmp, o, [[o[c]]] + p, [c + 1] + e, c + 1)
    ensures AboveOnes(c) != 0 ==>
      var k := TrailingOnes(c);
      && k + 1 < |p| && Callable(cmp, p[k + 1], p[k]) && NoDup(p[k + 1] + p[k]) && |p[k]| == |p[k + 1]| == Exp2(k)
      && |e| == |p| + 1
      && Taken(cmp, o, [[o[c]]] + Joined(p, k, Merged(cmp, p[k + 1], p[k])), [c + 1] + CutAt(e, k), c + 1)
  {
    hide Merged, NoDup, Callable, Comparator, Block;
    var k := TrailingOnes(c);
    SizedJoin(p, c, [], o[c]);
    if AboveOnes(c) == 0 {
      BlocksPush(cmp, o, p, e, c);
    } else {
      BlocksJoin(cmp, o, p, e, c, k);
      var m := Merged(cmp, p[k + 1], p[k]);
      SizedJoin(p, c, m, o[c]);
      BlocksPush(cmp, o, Joined(p, k, m), CutAt(e, k), c);
    }
  }

  /** Move one element from the input to the pending sublists. */
  method Push(list0: ListHead, pending0: ListHead?, ghost r: seq<ListHead>, ghost p: seq<seq<ListHead>>)
    returns (list: ListHead?, pending: ListHead)
    requires Chain(r) && list0 == r[0] && NoDup(r) && Pends(p, pending0)
    requires forall k :: 0 <= k < |p| ==> Disjoint(p[k], r)
    modifies list0
    ensures Pends([[list0]] + p, pending)
    ensures list == if |r| > 1 then r[1] else null
    ensures |r| > 1 ==> Chain(r[1..])
  {
    ChainTail(r);
    list0.prev := pending0;
    pending := list0;
    list := list0.next;
    pending.next := null;
    ghost var q := [[list0]] + p;
    forall k | 0 <= k < |q| ensures Chain(q[k]) && LinkAt(q, k)
    {
      if k > 0 {
        assert q[k] == p[k - 1] && old(Chain(p[k - 1])) && old(LinkAt(p, k - 1));
        assert Disjoint(p[k - 1], r);
      }
    }
  }

  /** What will be pending with the next element is disjoint from the input that is left, that element included. */
  lemma RestDisjoint(cmp: (ListHead, ListHead) --> int, o: seq<ListHead>, p: seq<seq<ListHead>>, e: seq<nat>, c: nat)
    requires c < |o| && Taken(cmp, o, [[o[c]]] + p, e, c + 1)
    ensures forall k :: 0 <= k < |p| ==> Disjoint(p[k], o[c..])
    ensures NoDup(o[c..])
  {
    hide Taken, AllNodes, Sized;
    var q := [[o[c]]] + p;
    TakenFacts(cmp, o, q, e, c + 1);
    forall k | 0 <= k < |p| ensures Disjoint(p[k], o[c..])
    {
      assert q[k + 1] == p[k] && q[0] == [o[c]];
      assert Disjoint(q[k + 1], o[c + 1..]) && Disjoint(q[k + 1], q[0]);
      forall i, j | 0 <= i < |p[k]| && 0 <= j < |o[c..]| ensures p[k][i] != o[c..][j]
      {
        if j == 0 { assert q[k + 1][i] != q[0][0]; } else { assert o[c..][j] == o[c + 1..][j - 1]; }
      }
    }
  }

  lemma RestKept(p: seq<seq<ListHead>>, r: seq<ListHead>)
    requires forall k :: 0 <= k < |p| ==> Disjoint(p[k], r)
    ensures forall n :: n in r ==> n !in AllNodes(p)
  {
  }

  /** One turn of the first loop of `list_sort`. */
  method Round(cmp: (ListHead, ListHead) --> int, list0: ListHead, pending0: ListHead?, count: nat,
               ghost o: seq<ListHead>, ghost p0: seq<seq<ListHead>>, ghost e0: seq<nat>)
    returns (list: ListHead?, pending: ListHead, ghost p: seq<seq<ListHead>>, ghost e: seq<nat>)
    requires Taken(cmp, o, p0, e0, count) && Pends(p0, pending0)
    requires count < |o| && Chain(o[count..]) && list0 == o[count]
    modifies Nodes(o)
    ensures Taken(cmp, o, p, e, count + 1) && Pends(p, pending)
    ensures list == if count + 1 < |o| then o[count + 1] else null
    ensures count + 1 < |o| ==> Chain(o[count + 1..])
  {
    hide Taken, AllNodes, Sized, Apart, Pends, NoDup, Callable, Merged, AboveOnes, TrailingOnes, Exp2;
    TakenFacts(cmp, o, p0, e0, count);
    TakenJoin(cmp, o, p0, e0, count);
    RestKept(p0, o[count..]);
    p, e := p0, e0;
    var q: ListHead? := pending0;
    var tail, bits := Walk(pending0, count, p0);
    if bits != 0 {
      ghost var k := TrailingOnes(count);
      q := MergePair(cmp, pending0, tail, p0, k);
      p, e := Joined(p0, k, Merged(cmp, p0[k + 1], p0[k])), CutAt(e0, k);
    }
    RestDisjoint(cmp, o, p, [count + 1] + e, count);
    list, pending := Push(list0, q, o[count..], p);
    p, e := [[list0]] + p, [count + 1] + e;
    assert count + 1 < |o| ==> o[count..][1..] == o[count + 1..];
  }

  ghost function Lengths<T>(p: seq<seq<T>>): (s: seq<nat>)
    ensures |s| == |p| && forall i :: 0 <= i < |p| ==> s[i] == |p[i]|
  {
    if p == [] then [] else [|p[0]|] + Lengths(p[1..])
  }

  /** What the final loop keeps: sublist 0 is the accumulated one, the others are still pending. */
  ghost predicate Gathering(cmp: (ListHead, ListHead) --> int, o: seq<ListHead>, p: seq<seq<ListHead>>, e: seq<nat>) {
    && Comparator(cmp, o) && Blocks(cmp, o, p, e, |o|) && |p| >= 2
    && Balanced(|p[0]|, Lengths(p[1..]))
  }

  /** Sublist 0 is out of the `prev`-linked list of pending sublists. */
  ghost predicate PendsRest(p: seq<seq<ListHead>>, list: ListHead, pending: ListHead?)
    reads AllNodes(p)
  {
    && (forall k :: 0 <= k < |p| ==> Chain(p[k]))
    && (forall k :: 1 <= k < |p| ==> LinkAt(p, k))
    && list == First(p, 0) && pending == First(p, 1)
  }

  lemma GatherStart(cmp: (ListHead, ListHead) --> int, o: seq<ListHead>, p: seq<seq<ListHead>>, e: seq<nat>)
    requires Taken(cmp, o, p, e, |o|) && |o| >= 2
    ensures Gathering(cmp, o, p, e)
  {
    hide Sizes, Balanced, Comparator, Blocks;
    TwoPending(|o|);
    FinalMerges(|o|);
    assert Lengths(p[1..]) == Sizes(|o|)[1..];
  }

  lemma ComparatorReflexive<T>(cmp: (T, T) --> int, o: seq<T>, x: T)
    requires Comparator(cmp, o) && x in o
    ensures cmp.requires(x, x)
  {
  }

  lemma GatherStep(cmp: (ListHead, ListHead) --> int, o: seq<ListHead>, p: seq<seq<ListHead>>, e: seq<nat>)
    requires Gathering(cmp, o, p, e)
    ensures |p| >= 2 && |e| == |p| + 1 && Callable(cmp, p[1], p[0]) && NoDup(p[1] + p[0])
    ensures Apart(p) && AllNodes(p) <= Nodes(o)
    ensures forall n :: n in p[1] + p[0] ==> n in o && cmp.requires(n, n)
    ensures |p[1]| <= 2 * |p[0]| && |p[0]| < 2 * |p[1]|
    ensures |p| > 2 ==> Gathering(cmp, o, Joined(p, 0, Merged(cmp, p[1], p[0])), CutAt(e, 0))
    ensures |p| == 2 ==> Block(cmp, o, Merged(cmp, p[1], p[0]), 0, |o|)
  {
    hide Comparator, Block, Merged, Callable, NoDup;
    ComparatorNoDup(cmp, o);
    BlocksApart(cmp, o, p, e, |o|);
    BlocksJoin(cmp, o, p, e, |o|, 0);
    forall n | n in p[1] + p[0] ensures n in o && cmp.requires(n, n)
    {
      ComparatorReflexive(cmp, o, n);
    }
    var q := Joined(p, 0, Merged(cmp, p[1], p[0]));
    assert q[1..] == p[2..];
    assert Lengths(p[1..])[1..] == Lengths(p[2..]);
    assert |q[0]| == |p[0]| + |p[1]|;
    if |p| == 2 {
      var f := CutAt(e, 0);
      assert Block(cmp, o, q[0], f[1], f[0]);
    }
  }

  /** The final loop of `list_sort` and the merge that closes the ring. */
  method MergeAll(cmp: (ListHead, ListHead) --> int, head: ListHead, list0: ListHead, pending0: ListHead,
                  ghost o: seq<ListHead>, ghost p0: seq<seq<ListHead>>, ghost e0: seq<nat>)
    returns (ghost out: seq<ListHead>)
    requires Gathering(cmp, o, p0, e0) && head !in o && PendsRest(p0, list0, pending0)
    modifies head, Nodes(o)
    ensures Ring(head, out) && Block(cmp, o, out, 0, |o|)
  {
    hide Gathering, Apart, NoDup, Callable, Merged, Block, Ring, Linked;
    var list, pending := list0, pending0;
    ghost var p, e := p0, e0;
    GatherStep(cmp, o, p, e);
    while true
      invariant Gathering(cmp, o, p, e) && |p| >= 2 && PendsRest(p, list, pending)
      decreases |p|
    {
      GatherStep(cmp, o, p, e);
      assert LinkAt(p, 1);
      var next := pending.prev;
      if next == null {
        break;
      }
      list, p, e := GatherOne(cmp, list, pending, p, e);
      pending := next;
    }
    assert |p| == 2;
    MergeFinal(cmp, head, pending, list, p[1], p[0]);
    out := Merged(cmp, p[1], p[0]);
  }

  method GatherOne(cmp: (ListHead, ListHead) --> int, list0: ListHead, pending: ListHead,
                   ghost p0: seq<seq<ListHead>>, ghost e0: seq<nat>)
    returns (list: ListHead, ghost p: seq<seq<ListHead>>, ghost e: seq<nat>)
    requires |p0| > 2 && |e0| == |p0| + 1 && Apart(p0) && Callable(cmp, p0[1], p0[0]) && NoDup(p0[1] + p0[0])
    requires PendsRest(p0, list0, pending)
    modifies AllNodes(p0)
    ensures p == Joined(p0, 0, Merged(cmp, p0[1], p0[0])) && e == CutAt(e0, 0)
    ensures PendsRest(p, list, First(p0, 2))
  {
    hide Apart, NoDup, Callable, Merged, Linked;
    list := MergeSublists(cmp, pending, list0, p0, 0);
    p, e := Joined(p0, 0, Merged(cmp, p0[1], p0[0])), CutAt(e0, 0);
    forall j | 2 <= j < |p0| ensures LinkAt(p0, j)
    {
      assert old(LinkAt(p0, j));
    }
    RestJoined(p0, Merged(cmp, p0[1], p0[0]));
  }

  lemma RestJoined(p: seq<seq<ListHead>>, m: seq<ListHead>)
    requires |p| > 2 && Chain(m) && forall j :: 2 <= j < |p| ==> Chain(p[j])
    requires forall j :: 2 <= j < |p| ==> LinkAt(p, j)
    ensures PendsRest(Joined(p, 0, m), m[0], First(p, 2))
  {
    hide Linked;
    var q := Joined(p, 0, m);
    assert q[0] == m;
    forall j | 0 <= j < |q| ensures Chain(q[j])
    {
      if j > 0 { assert q[j] == p[j + 1]; }
    }
    forall j | 1 <= j < |q| ensures LinkAt(q, j)
    {
      assert q[j] == p[j + 1] && LinkAt(p, j + 1);
    }
  }

  /** `list_sort`: the same nodes, in order, in a ring again. */
  method Sort(head: ListHead, cmp: (ListHead, ListHead) --> int, ghost o: seq<ListHead>)
    returns (ghost out: seq<ListHead>)
    requires Ring(head, o) && Comparator(cmp, o)
    modifies head, o
    ensures Ring(head, out) && multiset(out) == multiset(o) && Sorted(cmp, o, out)
  {
    hide Comparator, Taken, Pends, Gathering, PendsRest, AboveOnes, TrailingOnes;
    var list: ListHead? := head.next;
    RingEnds(head, o);
    if list == head.prev {
      return o;
    }
    head.prev.next := null;
    var pending: ListHead? := null;
    var count := 0;
    ghost var p: seq<seq<ListHead>>, e: seq<nat> := [], [0];
    NothingTaken(cmp, o);
    assert o[0..] == o;
    while true
      invariant count < |o| && Taken(cmp, o, p, e, count) && Pends(p, pending)
      invariant Chain(o[count..]) && list == o[count]
      decreases |o| - count
    {
      list, pending, p, e := Round(cmp, list, pending, count, o, p, e);
      count := count + 1;
      if list == null {
        break;
      }
    }
    GatherStart(cmp, o, p, e);
    SplitOff(cmp, o, p, e, pending);
    list := pending;
    pending := pending.prev;
    out := MergeAll(cmp, head, list, pending, o, p, e);
    assert o[0..|o|] == o;
  }

  lemma NothingTaken(cmp: (ListHead, ListHead) --> int, o: seq<ListHead>)
    requires Comparator(cmp, o)
    ensures Taken(cmp, o, [], [0], 0) && Pends([], null)
  {
  }

  lemma SplitOff(cmp: (ListHead, ListHead) --> int, o: seq<ListHead>, p: seq<seq<ListHead>>, e: seq<nat>,
                 pending: ListHead?)
    requires Gathering(cmp, o, p, e) && Pends(p, pending)
    ensures pending != null && pending.prev != null && PendsRest(p, pending, pending.prev)
  {
    assert LinkAt(p, 0);
  }
}
