/**
 Stable merging, on sequences.

 `o` is the input of the sort. The comparator `cmp` need be defined only on pairs whose first element comes
 no later in the input than the second one: `cmp(x, y) > 0` says that y, although later, sorts before x.
 That it is never called on any other pair is checked at each call.
 */
module MergeOrder {

  ghost predicate NoDup<T>(s: seq<T>) {
    forall i, j :: 0 <= i < j < |s| ==> s[i] != s[j]
  }

  /** Position in the input. */
  ghost function Pos<T>(o: seq<T>, x: T): (i: nat)
    requires x in o
    ensures i < |o| && o[i] == x
  {
    var i: nat :| i < |o| && o[i] == x;
    i
  }

  ghost predicate Earlier<T>(o: seq<T>, x: T, y: T) {
    x in o && y in o && Pos(o, x) < Pos(o, y)
  }

  /** The order the sort establishes: by the comparator, and by input position where it does not decide. */
  ghost predicate Before<T>(cmp: (T, T) --> int, o: seq<T>, x: T, y: T) {
    || (Earlier(o, x, y) && cmp.requires(x, y) && cmp(x, y) <= 0)
    || (Earlier(o, y, x) && cmp.requires(y, x) && cmp(y, x) > 0)
  }

  /** What the sort asks of its comparator. */
  ghost predicate Comparator<T>(cmp: (T, T) --> int, o: seq<T>) {
    && NoDup(o)
    && (forall i, j :: 0 <= i <= j < |o| ==> cmp.requires(o[i], o[j]))
    && (forall x, y, z :: x in o && y in o && z in o && Before(cmp, o, x, y) && Before(cmp, o, y, z) ==>
          Before(cmp, o, x, z))
  }

  ghost predicate Sorted<T>(cmp: (T, T) --> int, o: seq<T>, s: seq<T>) {
    forall i, j :: 0 <= i < j < |s| ==> Before(cmp, o, s[i], s[j])
  }

  ghost predicate AllEarlier<T>(o: seq<T>, a: seq<T>, b: seq<T>) {
    forall x, y :: x in a && y in b ==> Earlier(o, x, y)
  }

  ghost predicate Callable<T>(cmp: (T, T) --> int, a: seq<T>, b: seq<T>) {
    forall x, y :: x in a && y in b ==> cmp.requires(x, y)
  }

  lemma EarlierCallable<T>(cmp: (T, T) --> int, o: seq<T>, a: seq<T>, b: seq<T>)
    requires Comparator(cmp, o) && AllEarlier(o, a, b)
    ensures Callable(cmp, a, b)
  {
    forall x, y | x in a && y in b ensures cmp.requires(x, y)
    {
      assert cmp.requires(o[Pos(o, x)], o[Pos(o, y)]);
    }
  }

  /** The stable merge: on a tie, the element of `a`. */
  ghost function Merged<T>(cmp: (T, T) --> int, a: seq<T>, b: seq<T>): (m: seq<T>)
    requires Callable(cmp, a, b)
    ensures |m| == |a| + |b|
    decreases |a| + |b|
  {
    if a == [] then b
    else if b == [] then a
    else if cmp(a[0], b[0]) <= 0 then [a[0]] + Merged(cmp, a[1..], b)
    else [b[0]] + Merged(cmp, a, b[1..])
  }

  lemma {:induction false} MergedElements<T>(cmp: (T, T) --> int, a: seq<T>, b: seq<T>)
    requires Callable(cmp, a, b)
    ensures multiset(Merged(cmp, a, b)) == multiset(a) + multiset(b)
    decreases |a| + |b|
  {
    if a == [] || b == [] {
    } else if cmp(a[0], b[0]) <= 0 {
      MergedElements(cmp, a[1..], b);
      ConsElements(a[0], a[1..], a);
      ConsElements(a[0], Merged(cmp, a[1..], b), Merged(cmp, a, b));
    } else {
      MergedElements(cmp, a, b[1..]);
      ConsElements(b[0], b[1..], b);
      ConsElements(b[0], Merged(cmp, a, b[1..]), Merged(cmp, a, b));
    }
  }

  lemma ConsElements<T>(x: T, s: seq<T>, t: seq<T>)
    requires t == [x] + s
    ensures multiset(t) == multiset{x} + multiset(s)
  {
  }

  lemma MergedIn<T>(cmp: (T, T) --> int, a: seq<T>, b: seq<T>, x: T)
    requires Callable(cmp, a, b)
    ensures x in Merged(cmp, a, b) <==> x in a || x in b
  {
    MergedElements(cmp, a, b);
    assert x in Merged(cmp, a, b) <==> x in multiset(Merged(cmp, a, b));
  }

  lemma SortedCons<T>(cmp: (T, T) --> int, o: seq<T>, x: T, s: seq<T>)
    requires Sorted(cmp, o, s)
    requires forall y :: y in s ==> Before(cmp, o, x, y)
    ensures Sorted(cmp, o, [x] + s)
  {
  }

  lemma SortedHead<T>(cmp: (T, T) --> int, o: seq<T>, s: seq<T>)
    requires Sorted(cmp, o, s) && s != []
    ensures forall y :: y in s[1..] ==> Before(cmp, o, s[0], y)
    ensures Sorted(cmp, o, s[1..])
  {
  }

  /** Merging sorted sequences, one all earlier than the other, gives a sorted sequence. */
  lemma {:induction false} MergedSorted<T>(cmp: (T, T) --> int, o: seq<T>, a: seq<T>, b: seq<T>)
    requires Comparator(cmp, o) && AllEarlier(o, a, b) && Callable(cmp, a, b)
    requires Sorted(cmp, o, a) && Sorted(cmp, o, b)
    ensures Sorted(cmp, o, Merged(cmp, a, b))
    decreases |a| + |b|
  {
    if a == [] || b == [] {
    } else if cmp(a[0], b[0]) <= 0 {
      var x, s := a[0], Merged(cmp, a[1..], b);
      SortedHead(cmp, o, a);
      MergedSorted(cmp, o, a[1..], b);
      forall y | y in s ensures Before(cmp, o, x, y)
      {
        MergedIn(cmp, a[1..], b, y);
        if y in b { HeadFirst(cmp, o, x, b, y); }
      }
      SortedCons(cmp, o, x, s);
    } else {
      var x, s := b[0], Merged(cmp, a, b[1..]);
      SortedHead(cmp, o, b);
      MergedSorted(cmp, o, a, b[1..]);
      forall y | y in s ensures Before(cmp, o, x, y)
      {
        MergedIn(cmp, a, b[1..], y);
        if y in a { HeadFirst(cmp, o, x, a, y); }
      }
      SortedCons(cmp, o, x, s);
    }
  }

  lemma HeadFirst<T>(cmp: (T, T) --> int, o: seq<T>, x: T, s: seq<T>, y: T)
    requires Comparator(cmp, o) && Sorted(cmp, o, s) && s != [] && y in s
    requires Before(cmp, o, x, s[0])
    ensures Before(cmp, o, x, y)
  {
    if y != s[0] {
      var i :| 0 < i < |s| && s[i] == y;
      assert Before(cmp, o, s[0], s[i]);
    }
  }

  // ---------------------------------------------------------------- comparators that are weak orders

  /** "Sorts after" is a strict weak order on the input: asymmetric and negatively transitive. */
  ghost predicate StrictWeakOrder<T>(cmp: (T, T) -> int, o: seq<T>) {
    && (forall x, y :: x in o && y in o && cmp(x, y) > 0 ==> cmp(y, x) <= 0)
    && (forall x, y, z :: x in o && y in o && z in o && cmp(x, z) > 0 ==> cmp(x, y) > 0 || cmp(y, z) > 0)
  }

  /** Such a comparator is what the sort asks for ... */
  lemma WeakOrderIsComparator<T>(cmp: (T, T) -> int, o: seq<T>)
    requires NoDup(o) && StrictWeakOrder(cmp, o)
    ensures Comparator(cmp, o)
  {
    forall x, y, z | x in o && y in o && z in o && Before(cmp, o, x, y) && Before(cmp, o, y, z)
      ensures Before(cmp, o, x, z)
    {
      assert cmp(x, y) <= 0 && cmp(y, z) <= 0 && cmp(x, z) <= 0;
      if Pos(o, x) >= Pos(o, z) {
        assert cmp(y, x) > 0 || cmp(z, y) > 0;
        assert cmp(z, x) > 0;
        assert x != z;
      }
    }
  }

  /** ... and what comes out is in order by it, equal elements as they were in the input. */
  lemma SortedIsStable<T>(cmp: (T, T) -> int, o: seq<T>, s: seq<T>)
    requires NoDup(o) && StrictWeakOrder(cmp, o) && Sorted(cmp, o, s)
    ensures forall i, j :: 0 <= i < j < |s| ==> cmp(s[i], s[j]) <= 0
    ensures forall i, j :: 0 <= i < j < |s| && cmp(s[j], s[i]) <= 0 ==> Earlier(o, s[i], s[j])
  {
    forall i, j | 0 <= i < j < |s|
      ensures cmp(s[i], s[j]) <= 0 && (cmp(s[j], s[i]) <= 0 ==> Earlier(o, s[i], s[j]))
    {
      assert Before(cmp, o, s[i], s[j]);
    }
  }
}
