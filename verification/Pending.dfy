/**
 The sizes of the pending sublists of `list_sort` as a function of `count`, the number of elements in them.
 */
module Pending {

  /** `2^k`. */
  function Exp2(k: nat): (e: nat)
    ensures e > 0
  {
    if k == 0 then 1 else 2 * Exp2(k - 1)
  }

  function Bit(c: nat, k: nat): (b: nat)
    ensures b <= 1
  {
    if k == 0 then c % 2 else Bit(c / 2, k - 1)
  }

  function Copies(n: nat, u: nat): (s: seq<nat>)
    requires n <= 2
    ensures |s| == n
    ensures forall i :: 0 <= i < n ==> s[i] == u
  {
    if n == 0 then [] else if n == 1 then [u] else [u, u]
  }

  /** Sizes 2^k and up, smallest first, when `c` is what is left of `count` from bit k on and `b` is bit k - 1. */
  function SizesFrom(c: nat, b: nat, k: nat): seq<nat>
    requires b <= 1
    decreases c
  {
    if c == 0 then [] else Copies(b + 1 - c % 2, Exp2(k)) + SizesFrom(c / 2, c % 2, k + 1)
  }

  /** The sizes of the pending sublists, newest first (the bit below bit 0 counts as set). */
  function Sizes(count: nat): seq<nat> {
    SizesFrom(count, 1, 0)
  }

  /** The number of trailing ones: how far `list_sort` walks down the pending sublists. */
  function TrailingOnes(c: nat): nat
    decreases c
  {
    if c % 2 == 1 then 1 + TrailingOnes(c / 2) else 0
  }

  /** What is left of `c` above its trailing ones: the `bits` variable after the walk. */
  function AboveOnes(c: nat): nat
    decreases c
  {
    if c % 2 == 1 then AboveOnes(c / 2) else c
  }

  /** Sublists `k` and `k + 1` made one. */
  function JoinAt(s: seq<nat>, k: nat): seq<nat>
    requires k + 1 < |s|
  {
    s[..k] + [s[k] + s[k + 1]] + s[k + 2..]
  }

  lemma OddSizes(c: nat, k: nat)
    requires c % 2 == 1
    ensures SizesFrom(c, 1, k) == [Exp2(k)] + SizesFrom(c / 2, 1, k + 1)
    ensures SizesFrom(c, 0, k) == SizesFrom(c / 2, 1, k + 1)
    ensures SizesFrom(c + 1, 0, k) == [Exp2(k)] + SizesFrom(c / 2 + 1, 0, k + 1)
  {
    assert (c + 1) / 2 == c / 2 + 1;
  }

  lemma EvenSizes(c: nat, k: nat)
    requires c > 0 && c % 2 == 0
    ensures SizesFrom(c, 1, k) == [Exp2(k), Exp2(k)] + SizesFrom(c / 2, 0, k + 1)
    ensures SizesFrom(c, 0, k) == [Exp2(k)] + SizesFrom(c / 2, 0, k + 1)
    ensures SizesFrom(c + 1, 0, k) == SizesFrom(c / 2, 1, k + 1)
  {
    assert (c + 1) / 2 == c / 2;
  }

  /** A set bit below adds one sublist of the size. */
  lemma FirstLarger(c: nat, k: nat)
    requires c > 0
    ensures SizesFrom(c, 1, k) == [Exp2(k)] + SizesFrom(c, 0, k)
  {
    if c % 2 == 1 { OddSizes(c, k); } else { EvenSizes(c, k); }
  }

  /** The walk stays within the pending sublists, and finds two of equal size to merge unless it has come to
      the end of them. */
  lemma {:induction false} WalkFinds(c: nat, k: nat)
    ensures var n, s := TrailingOnes(c), SizesFrom(c, 1, k);
            && n <= |s|
            && (AboveOnes(c) == 0 ==> n == |s|)
            && (AboveOnes(c) != 0 ==> n + 1 < |s| && s[n] == s[n + 1] == Exp2(k + n))
            && (forall i :: 0 <= i < n ==> s[i] == Exp2(k + i))
    decreases c
  {
    hide SizesFrom, Exp2;
    if c % 2 == 1 {
      var s := SizesFrom(c / 2, 1, k + 1);
      WalkFinds(c / 2, k + 1);
      OddSizes(c, k);
      assert forall i :: 0 < i <= |s| ==> ([Exp2(k)] + s)[i] == s[i - 1];
    } else if c > 0 {
      EvenSizes(c, k);
    } else {
      NoSizes(k);
    }
  }

  /** One round: merge what the walk found, then put a new element in front. */
  lemma {:induction false} MergeRound(c: nat, k: nat)
    ensures var n, s := TrailingOnes(c), SizesFrom(c, 1, k);
            && (AboveOnes(c) == 0 ==> SizesFrom(c + 1, 0, k) == s)
            && (AboveOnes(c) != 0 ==> n + 1 < |s| && SizesFrom(c + 1, 0, k) == JoinAt(s, n))
    decreases c
  {
    hide SizesFrom;
    WalkFinds(c, k);
    if c % 2 == 1 {
      var s := SizesFrom(c / 2, 1, k + 1);
      MergeRound(c / 2, k + 1);
      OddSizes(c, k);
      if AboveOnes(c) != 0 {
        JoinCons(Exp2(k), s, TrailingOnes(c / 2));
      }
    } else if c > 0 {
      EvenSizes(c, k);
      FirstLarger(c / 2, k + 1);
    } else {
      NoSizes(k);
    }
  }

  lemma NoSizes(k: nat)
    ensures SizesFrom(0, 1, k) == [] == SizesFrom(1, 0, k)
  {
  }

  lemma JoinCons(u: nat, s: seq<nat>, k: nat)
    requires k + 1 < |s|
    ensures JoinAt([u] + s, k + 1) == [u] + JoinAt(s, k)
  {
    var t := [u] + s;
    assert t[..k + 1] == [u] + s[..k];
    assert t[k + 3..] == s[k + 2..];
  }

  lemma NextSizes(c: nat)
    ensures var n, s := TrailingOnes(c), Sizes(c);
            && n <= |s|
            && (AboveOnes(c) == 0 ==> n == |s| && Sizes(c + 1) == [1] + s)
            && (AboveOnes(c) != 0 ==> n + 1 < |s| && s[n] == s[n + 1] == Exp2(n) && Sizes(c + 1) == [1] + JoinAt(s, n))
  {
    hide SizesFrom;
    MergeRound(c, 0);
    WalkFinds(c, 0);
    FirstLarger(c + 1, 0);
  }

  /** With two elements or more, two sublists or more are pending. */
  lemma TwoPending(c: nat)
    requires c >= 2
    ensures |Sizes(c)| >= 2
  {
    hide SizesFrom;
    if c % 2 == 1 {
      OddSizes(c, 0);
      FirstLarger(c / 2, 1);
    } else {
      EvenSizes(c, 0);
    }
  }

  // ---------------------------------------------------------------- the six states

  function BitBelow(c: nat, k: nat): nat {
    if k == 0 then 1 else Bit(c, k - 1)
  }

  function Occurrences(s: seq<nat>, x: nat): nat {
    if s == [] then 0 else (if s[0] == x then 1 else 0) + Occurrences(s[1..], x)
  }

  lemma {:induction false} OccurrencesSplit(s: seq<nat>, t: seq<nat>, x: nat)
    ensures Occurrences(s + t, x) == Occurrences(s, x) + Occurrences(t, x)
  {
    if s == [] {
      assert s + t == t;
    } else {
      assert (s + t)[1..] == s[1..] + t;
      OccurrencesSplit(s[1..], t, x);
    }
  }

  lemma OccurrencesCopies(n: nat, u: nat, x: nat)
    requires n <= 2
    ensures Occurrences(Copies(n, u), x) == if u == x then n else 0
  {
    assert Occurrences([], x) == 0;
    assert [u][1..] == [];
    assert Occurrences([u], x) == if u == x then 1 else 0;
    assert [u, u][1..] == [u];
  }

  lemma {:induction false} ExpIncreasing(j: nat, k: nat)
    requires j < k
    ensures Exp2(j) < Exp2(k)
  {
    if j + 1 < k { ExpIncreasing(j, k - 1); }
  }

  lemma {:induction false} NoSmaller(c: nat, b: nat, j: nat, k: nat)
    requires b <= 1 && j < k
    ensures Occurrences(SizesFrom(c, b, k), Exp2(j)) == 0
    decreases c
  {
    if c > 0 {
      NoSmaller(c / 2, c % 2, j, k + 1);
      ExpIncreasing(j, k);
    }
    OccurrencesStep(c, b, k, Exp2(j));
  }

  lemma {:induction false} OccurrencesOf(c: nat, b: nat, j: nat, k: nat)
    requires b <= 1
    ensures Occurrences(SizesFrom(c, b, j), Exp2(j + k)) ==
            if c < Exp2(k) then 0 else (if k == 0 then b else Bit(c, k - 1)) + 1 - Bit(c, k)
    decreases k
  {
    hide SizesFrom, Occurrences, Exp2;
    OccurrencesStep(c, b, j, Exp2(j + k));
    ExpUnfold(k);
    if k == 0 {
      NoSmaller(c / 2, c % 2, j, j + 1);
    } else if c > 0 {
      ExpIncreasing(j, j + k);
      OccurrencesOf(c / 2, c % 2, j + 1, k - 1);
    }
  }

  lemma ExpUnfold(k: nat)
    ensures Exp2(k) == if k == 0 then 1 else 2 * Exp2(k - 1)
  {
  }

  lemma OccurrencesStep(c: nat, b: nat, j: nat, x: nat)
    requires b <= 1
    ensures Occurrences(SizesFrom(c, b, j), x) ==
            if c == 0 then 0
            else (if Exp2(j) == x then b + 1 - c % 2 else 0) + Occurrences(SizesFrom(c / 2, c % 2, j + 1), x)
  {
    if c > 0 {
      OccurrencesSplit(Copies(b + 1 - c % 2, Exp2(j)), SizesFrom(c / 2, c % 2, j + 1), x);
      OccurrencesCopies(b + 1 - c % 2, Exp2(j), x);
    }
  }

  lemma {:induction false} BitRange(c: nat, k: nat)
    ensures c < Exp2(k) ==> Bit(c, k) == 0
    ensures Exp2(k) <= c < 2 * Exp2(k) ==> Bit(c, k) == 1
  {
    if k > 0 { BitRange(c / 2, k - 1); }
  }

  /** How many elements are in sublists smaller than `x`. */
  function SumBelow(s: seq<nat>, x: nat): nat {
    if s == [] then 0 else (if s[0] < x then s[0] else 0) + SumBelow(s[1..], x)
  }

  lemma {:induction false} SumSplit(s: seq<nat>, t: seq<nat>, x: nat)
    ensures SumBelow(s + t, x) == SumBelow(s, x) + SumBelow(t, x)
  {
    if s == [] {
      assert s + t == t;
    } else {
      assert (s + t)[1..] == s[1..] + t;
      SumSplit(s[1..], t, x);
    }
  }

  lemma SumCopies(n: nat, u: nat, x: nat)
    requires n <= 2
    ensures SumBelow(Copies(n, u), x) == if u < x then Total(n, u) else 0
  {
    assert SumBelow([], x) == 0;
    assert [u][1..] == [];
    assert SumBelow([u], x) == if u < x then u else 0;
    assert [u, u][1..] == [u];
  }

  lemma SumStep(c: nat, b: nat, j: nat, x: nat)
    requires b <= 1
    ensures SumBelow(SizesFrom(c, b, j), x) ==
            if c == 0 then 0
            else (if Exp2(j) < x then Total(b + 1 - c % 2, Exp2(j)) else 0)
                 + SumBelow(SizesFrom(c / 2, c % 2, j + 1), x)
  {
    if c > 0 {
      SumSplit(Copies(b + 1 - c % 2, Exp2(j)), SizesFrom(c / 2, c % 2, j + 1), x);
      SumCopies(b + 1 - c % 2, Exp2(j), x);
    }
  }

  lemma {:induction false} NoneBelow(c: nat, b: nat, j: nat, k: nat)
    requires b <= 1 && j <= k
    ensures SumBelow(SizesFrom(c, b, k), Exp2(j)) == 0
    decreases c
  {
    if c > 0 {
      NoneBelow(c / 2, c % 2, j, k + 1);
      if j < k { ExpIncreasing(j, k); }
    }
    SumStep(c, b, k, Exp2(j));
  }

  /** The `d` lowest bits of `c`, the lowest counting 2^j. */
  function Low(c: nat, d: nat, j: nat): nat
    decreases d
  {
    if d == 0 then 0 else (if c % 2 == 1 then Exp2(j) else 0) + Low(c / 2, d - 1, j + 1)
  }

  lemma {:induction false} LowTop(c: nat, d: nat, j: nat)
    ensures Low(c, d + 1, j) == Low(c, d, j) + if Bit(c, d) == 1 then Exp2(j + d) else 0
    decreases d
  {
    if d > 0 { LowTop(c / 2, d - 1, j + 1); }
  }

  lemma {:induction false} SumFrom(c: nat, b: nat, j: nat, d: nat)
    requires b <= 1 && c > 0 && d > 0
    ensures SumBelow(SizesFrom(c, b, j), Exp2(j + d)) + (if b == 0 then Exp2(j) else 0)
            == Low(c, d, j) + if Bit(c, d - 1) == 0 && c >= Exp2(d) then Exp2(j + d) else 0
    decreases d
  {
    hide SizesFrom, SumBelow, Exp2;
    SumStep(c, b, j, Exp2(j + d));
    ExpIncreasing(j, j + d);
    ExpUnfold(d);
    ExpUnfold(j + 1);
    ExpUnfold(0);
    if d == 1 {
      NoneBelow(c / 2, c % 2, j + 1, j + 1);
    } else if c == 1 {
      SumStep(0, 1, j + 1, Exp2(j + d));
      LowNone(d - 1, j + 1);
      BitNone(d - 2);
    } else {
      SumFrom(c / 2, c % 2, j + 1, d - 1);
    }
  }

  lemma {:induction false} LowNone(d: nat, j: nat)
    ensures Low(0, d, j) == 0
    decreases d
  {
    if d > 0 { LowNone(d - 1, j + 1); }
  }

  lemma {:induction false} BitNone(k: nat)
    ensures Bit(0, k) == 0
  {
    if k > 0 { BitNone(k - 1); }
  }

  /** How many sublists of size 2^k are pending, and how many elements in smaller ones, depends on bits k and k - 1, on
      whether there are higher ones, and on the bits `x` below. */
  lemma SixStates(count: nat, k: nat)
    ensures var pending, bit, below, higher := Occurrences(Sizes(count), Exp2(k)), Bit(count, k), BitBelow(count, k),
                                               count >= 2 * Exp2(k);
            && (!higher && bit == 0 && below == 0 ==> pending == 0)
            && (!higher && bit == 0 && below == 1 ==> pending == 0)
            && (bit == 1 && below == 0 ==> pending == 0)
            && (bit == 1 && below == 1 ==> pending == 1)
            && (higher && bit == 0 && below == 0 ==> pending == 1)
            && (higher && bit == 0 && below == 1 ==> pending == 2)
    ensures k > 0 ==>
            var rest, bit, below, higher := SumBelow(Sizes(count), Exp2(k)), Bit(count, k), BitBelow(count, k),
                                            count >= 2 * Exp2(k);
            var x := Low(count, k - 1, 0);
            && (!higher && bit == 0 && below == 0 ==> rest == x)
            && (!higher && bit == 0 && below == 1 ==> rest == Exp2(k - 1) + x)
            && (bit == 1 && below == 0 ==> rest == Exp2(k) + x)
            && (bit == 1 && below == 1 ==> rest == Exp2(k - 1) + x)
            && (higher && bit == 0 && below == 0 ==> rest == Exp2(k) + x)
            && (higher && bit == 0 && below == 1 ==> rest == Exp2(k - 1) + x)
  {
    hide SizesFrom, Occurrences, SumBelow, Exp2, Bit, Low;
    OccurrencesOf(count, 1, 0, k);
    BitRange(count, k);
    if k > 0 {
      LowTop(count, k - 1, 0);
      if count > 0 {
        SumFrom(count, 1, 0, k);
      } else {
        SumStep(0, 1, 0, Exp2(k));
        LowNone(k, 0);
        LowNone(k - 1, 0);
        BitNone(k - 1);
        BitNone(k);
        ExpUnfold(k);
      }
    }
  }

  // ---------------------------------------------------------------- the final merges

  /** Merged from the front on, starting with `n` elements, no list is more than twice as long as the other. */
  ghost predicate Balanced(n: nat, s: seq<nat>)
    decreases s
  {
    s == [] || (s[0] <= 2 * n && n < 2 * s[0] && Balanced(n + s[0], s[1..]))
  }

  function Total(m: nat, u: nat): nat
    requires m <= 2
  {
    if m == 0 then 0 else if m == 1 then u else u + u
  }

  lemma {:induction false} BalancedFrom(c: nat, b: nat, k: nat, n: nat)
    requires b <= 1 && k > 0
    requires b == 1 ==> Exp2(k - 1) <= n < Exp2(k)
    requires b == 0 ==> Exp2(k) <= n < Exp2(k) + Exp2(k - 1)
    ensures Balanced(n, SizesFrom(c, b, k))
    decreases c
  {
    if c > 0 {
      var m, u, r := b + 1 - c % 2, Exp2(k), SizesFrom(c / 2, c % 2, k + 1);
      assert Exp2(k + 1) == 2 * u;
      BalancedFrom(c / 2, c % 2, k + 1, n + Total(m, u));
      BalancedCopies(n, m, u, r);
    }
  }

  lemma BalancedCopies(n: nat, m: nat, u: nat, r: seq<nat>)
    requires m <= 2 && u > 0 && Balanced(n + Total(m, u), r)
    requires m > 0 ==> u <= 2 * n && n < 2 * u
    requires m == 2 ==> n < u
    ensures Balanced(n, Copies(m, u) + r)
  {
    if m == 0 {
      assert Copies(m, u) + r == r;
    } else if m == 1 {
      assert (Copies(m, u) + r)[1..] == r;
    } else {
      assert (Copies(m, u) + r)[1..] == [u] + r;
      assert ([u] + r)[1..] == r;
      assert Balanced(n + u, [u] + r);
    }
  }

  /** The merges at the end of the input, smallest sublist first, are at worst 2:1. */
  lemma FinalMerges(count: nat)
    requires count > 0
    ensures |Sizes(count)| >= 1 && Balanced(Sizes(count)[0], Sizes(count)[1..])
  {
    hide SizesFrom, Balanced;
    if count % 2 == 1 {
      OddSizes(count, 0);
      assert Sizes(count)[1..] == SizesFrom(count / 2, 1, 1);
      BalancedFrom(count / 2, 1, 1, 1);
    } else {
      EvenSizes(count, 0);
      var r := SizesFrom(count / 2, 0, 1);
      assert Sizes(count)[1..] == Copies(1, 1) + r;
      BalancedFrom(count / 2, 0, 1, 2);
      BalancedCopies(1, 1, 1, r);
    }
  }
}
