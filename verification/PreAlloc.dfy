/**
 Allocation of several pages at once: the pages taken are reported to the kernel as runs of consecutive frame
 numbers, and labelled with the addresses they are mapped at.
 */
module PreAlloc {

  const PAGE_SIZE: nat := 4096

  /** `pfn`, and `more` frames after it. */
  datatype Run = Run(pfn: nat, more: nat)

  // ---------------------------------------------------------------- runs

  function Frames(r: Run): (q: seq<nat>)
    ensures |q| == r.more + 1 && forall i :: 0 <= i < |q| ==> q[i] == r.pfn + i
  {
    seq(r.more + 1, i => r.pfn + i)
  }

  /** What the kernel makes of the runs. */
  function Expand(rs: seq<Run>): seq<nat> {
    if rs == [] then [] else Expand(rs[..|rs| - 1]) + Frames(rs[|rs| - 1])
  }

  /** The frame that would go on a run. */
  function After(r: Run): nat {
    r.pfn + r.more + 1
  }

  ghost predicate Maximal(rs: seq<Run>) {
    forall i :: 0 < i < |rs| ==> After(rs[i - 1]) != rs[i].pfn
  }

  /** One more frame: it goes on the last run if it can, or begins one. */
  function Grow(rs: seq<Run>, x: nat): seq<Run> {
    if rs != [] && After(rs[|rs| - 1]) == x then rs[..|rs| - 1] + [rs[|rs| - 1].(more := rs[|rs| - 1].more + 1)]
    else rs + [Run(x, 0)]
  }

  /** The runs of a sequence of frames. */
  function RunsOf(q: seq<nat>): (rs: seq<Run>)
    ensures q == [] <==> rs == []
    ensures |rs| <= |q|
  {
    if q == [] then [] else Grow(RunsOf(q[..|q| - 1]), q[|q| - 1])
  }

  lemma RunsSnoc(q: seq<nat>, x: nat)
    ensures RunsOf(q + [x]) == Grow(RunsOf(q), x)
  {
    assert (q + [x])[..|q|] == q;
  }

  lemma ExpandSnoc(rs: seq<Run>, r: Run)
    ensures Expand(rs + [r]) == Expand(rs) + Frames(r)
  {
    assert (rs + [r])[..|rs|] == rs;
  }

  lemma FramesGrow(r: Run)
    ensures Frames(r.(more := r.more + 1)) == Frames(r) + [After(r)]
  {
  }

  lemma GrowOn(rs: seq<Run>, r: Run)
    ensures Grow(rs + [r], After(r)) == rs + [r.(more := r.more + 1)]
  {
    assert (rs + [r])[..|rs|] == rs;
  }

  lemma GrowExpand(rs: seq<Run>, x: nat)
    ensures Expand(Grow(rs, x)) == Expand(rs) + [x]
  {
    hide Expand, Frames, Grow;
    if rs != [] && After(rs[|rs| - 1]) == x {
      var init, r := rs[..|rs| - 1], rs[|rs| - 1];
      assert rs == init + [r];
      GrowOn(init, r);
      ExpandSnoc(init, r);
      ExpandSnoc(init, r.(more := r.more + 1));
      FramesGrow(r);
      assert Expand(init) + (Frames(r) + [x]) == (Expand(init) + Frames(r)) + [x];
    } else {
      GrowNew(rs, x);
      ExpandSnoc(rs, Run(x, 0));
      assert Frames(Run(x, 0)) == [x];
    }
  }

  lemma GrowNew(rs: seq<Run>, x: nat)
    requires rs == [] || After(rs[|rs| - 1]) != x
    ensures Grow(rs, x) == rs + [Run(x, 0)]
  {
  }

  lemma GrowMaximal(rs: seq<Run>, x: nat)
    requires Maximal(rs)
    ensures Maximal(Grow(rs, x))
  {
  }

  /** Decoding the runs gives the frames back, in order; and no two neighbouring runs could have been one. */
  lemma {:induction false} RunsRoundTrip(q: seq<nat>)
    ensures Expand(RunsOf(q)) == q && Maximal(RunsOf(q))
  {
    hide Grow, Maximal;
    if q == [] {
      assert Maximal([]) by { NoneMaximal(); }
    } else {
      var p, x := q[..|q| - 1], q[|q| - 1];
      RunsRoundTrip(p);
      assert q == p + [x];
      GrowExpand(RunsOf(p), x);
      GrowMaximal(RunsOf(p), x);
    }
  }

  lemma NoneMaximal()
    ensures Maximal([])
  {
  }

  /** No other runs give the frames back and are maximal ... */
  lemma {:induction false} RunsUnique(rs: seq<Run>)
    requires Maximal(rs)
    ensures RunsOf(Expand(rs)) == rs
  {
    hide RunsOf, Grow, Frames;
    if rs == [] {
      assert RunsOf([]) == [];
    } else {
      var init, r := rs[..|rs| - 1], rs[|rs| - 1];
      RunsUnique(init);
      assert rs == init + [r];
      if init != [] { assert After(rs[|rs| - 2]) != r.pfn; }
      RunsAppend(Expand(init), r);
    }
  }

  lemma {:induction false} RunsAppend(q: seq<nat>, r: Run)
    requires RunsOf(q) == [] || After(RunsOf(q)[|RunsOf(q)| - 1]) != r.pfn
    ensures RunsOf(q + Frames(r)) == RunsOf(q) + [r]
    decreases r.more
  {
    hide RunsOf, Grow;
    if r.more == 0 {
      assert Frames(r) == [r.pfn];
      RunsSnoc(q, r.pfn);
      GrowNew(RunsOf(q), r.pfn);
    } else {
      var s := r.(more := r.more - 1);
      RunsAppend(q, s);
      FramesGrow(s);
      assert q + Frames(r) == (q + Frames(s)) + [After(s)];
      RunsSnoc(q + Frames(s), After(s));
      GrowOn(RunsOf(q), s);
    }
  }

  /** ... and none that give them back are fewer. */
  lemma {:induction false} RunsFewest(rs: seq<Run>)
    ensures |RunsOf(Expand(rs))| <= |rs|
  {
    hide RunsOf, Grow, Frames;
    if rs == [] {
      assert RunsOf([]) == [];
    } else {
      var init, r := rs[..|rs| - 1], rs[|rs| - 1];
      RunsFewest(init);
      AppendAtMostOne(Expand(init), r);
    }
  }

  lemma {:induction false} AppendAtMostOne(q: seq<nat>, r: Run)
    ensures var rs := RunsOf(q + Frames(r)); rs != [] && |rs| <= |RunsOf(q)| + 1 && After(rs[|rs| - 1]) == After(r)
    decreases r.more
  {
    hide RunsOf;
    if r.more == 0 {
      assert Frames(r) == [r.pfn];
      RunsSnoc(q, r.pfn);
    } else {
      var s := r.(more := r.more - 1);
      AppendAtMostOne(q, s);
      FramesGrow(s);
      assert q + Frames(r) == (q + Frames(s)) + [After(s)];
      RunsSnoc(q + Frames(s), After(s));
    }
  }

  // ---------------------------------------------------------------- the message

  /** The part of the shared page that tells the kernel what to map. */
  class Message {
    var paddr: nat
    const pfn: array<nat>
    const count: array<nat>

    constructor (room: nat)
      ensures fresh(pfn) && fresh(count) && pfn.Length == count.Length == room
    {
      paddr := 0;
      pfn := new nat[room];
      count := new nat[room];
    }

    ghost predicate Valid()
      reads this
    {
      pfn != count && pfn.Length == count.Length
    }

    /** The first `n` runs as they stand in the message. */
    ghost function Reported(n: nat): (rs: seq<Run>)
      requires Valid() && n <= pfn.Length
      reads this, pfn, count
      ensures |rs| == n
    {
      Zip(pfn[..], count[..], n)
    }
  }

  /** The runs as reported: a count of 0 is not written for the last run, so that what stood there stays. */
  ghost function WithStale(rs: seq<Run>, stale: nat): (r: seq<Run>)
    requires rs != []
  {
    var last := rs[|rs| - 1];
    rs[..|rs| - 1] + [if last.more == 0 then last.(more := stale) else last]
  }

  /** The kernel gets the frames back exactly when the last run is longer than one frame, or its count slot was 0. */
  lemma StaleCount(q: seq<nat>, stale: nat)
    requires q != []
    ensures Expand(WithStale(RunsOf(q), stale)) == q <==> RunsOf(q)[|RunsOf(q)| - 1].more != 0 || stale == 0
  {
    RunsRoundTrip(q);
    var rs := RunsOf(q);
    var init, last := rs[..|rs| - 1], rs[|rs| - 1];
    assert rs == init + [last];
    ExpandSnoc(init, last);
    ExpandSnoc(init, last.(more := stale));
  }

  lemma Nothing()
    ensures Expand([]) == [] && RunsOf([]) == []
  {
  }

  /** Frames 5 and 9 with a 1 left in the second count slot are taken for 5, 9 and 10. */
  lemma StaleExample()
    ensures Expand(WithStale(RunsOf([5, 9]), 1)) == [5, 9, 10]
  {
    hide RunsOf, Expand, Frames;
    assert Expand([]) == [] && RunsOf([]) == [] by { Nothing(); }
    RunsSnoc([], 5);
    RunsSnoc([5], 9);
    assert [] + [5] == [5] && [5] + [9] == [5, 9];
    assert WithStale([Run(5, 0), Run(9, 0)], 1) == [Run(5, 0)] + [Run(9, 1)];
    ExpandSnoc([Run(5, 0)], Run(9, 1));
    assert [] + [Run(5, 0)] == [Run(5, 0)];
    ExpandSnoc([], Run(5, 0));
    assert Frames(Run(5, 0)) == [5] && Frames(Run(9, 1)) == [9, 10];
  }

  /** How far the runs of `q` have been written: all but the count of the last. */
  ghost predicate Written(pfns: seq<nat>, counts: seq<nat>, was: seq<nat>, q: seq<nat>, pos: nat, vpfn: nat,
                          count: nat)
  {
    var rs := RunsOf(q);
    && pos < |pfns| == |counts| == |was| && |rs| == pos + 1
    && rs[pos] == Run(pfns[pos], count) && vpfn == After(rs[pos])
    && (forall i :: 0 <= i < pos ==> rs[i] == Run(pfns[i], counts[i]))
    && counts[pos..] == was[pos..]
  }

  lemma WrittenFirst(pfns: seq<nat>, was: seq<nat>, x: nat)
    requires 1 <= |pfns| == |was| && pfns[0] == x
    ensures Written(pfns, was, was, [x], 0, x + 1, 0)
  {
    RunsSnoc([], x);
    assert [] + [x] == [x];
  }

  lemma WrittenOn(pfns: seq<nat>, counts: seq<nat>, was: seq<nat>, q: seq<nat>, pos: nat, vpfn: nat, count: nat)
    requires Written(pfns, counts, was, q, pos, vpfn, count)
    ensures Written(pfns, counts, was, q + [vpfn], pos, vpfn + 1, count + 1)
  {
    hide RunsOf;
    RunsSnoc(q, vpfn);
  }

  lemma WrittenNew(pfns: seq<nat>, counts: seq<nat>, was: seq<nat>, q: seq<nat>, pos: nat, vpfn: nat, count: nat,
                   x: nat)
    requires Written(pfns, counts, was, q, pos, vpfn, count) && x != vpfn && pos + 1 < |pfns|
    ensures Written(pfns[pos + 1 := x], counts[pos := count], was, q + [x], pos + 1, x + 1, 0)
  {
    hide RunsOf;
    RunsSnoc(q, x);
    assert counts[pos := count][pos + 1..] == counts[pos..][1..];
    assert was[pos + 1..] == was[pos..][1..];
  }

  lemma Room(pfns: seq<nat>, counts: seq<nat>, stale: seq<nat>, q: seq<nat>, pos: nat, vpfn: nat, count: nat)
    requires Written(pfns, counts, stale, q, pos, vpfn, count)
    ensures pos < |pfns| == |counts| == |stale| && |RunsOf(q)| == pos + 1 <= |q|
  {
  }

  ghost function Zip(pfns: seq<nat>, counts: seq<nat>, n: nat): (rs: seq<Run>)
    requires n <= |pfns| == |counts|
  {
    seq(n, i requires 0 <= i < n => Run(pfns[i], counts[i]))
  }

  lemma WrittenAll(pfns: seq<nat>, counts: seq<nat>, was: seq<nat>, q: seq<nat>, pos: nat, vpfn: nat, count: nat)
    requires Written(pfns, counts, was, q, pos, vpfn, count)
    ensures var final := if count != 0 then counts[pos := count] else counts;
            Zip(pfns, final, pos + 1) == WithStale(RunsOf(q), was[pos])
  {
    hide RunsOf;
    assert counts[pos] == counts[pos..][0] == was[pos..][0];
  }

  lemma {:induction false} RunsMonotone(q: seq<nat>, i: nat)
    requires i <= |q|
    ensures |RunsOf(q[..i])| <= |RunsOf(q)|
    decreases |q|
  {
    if i == |q| {
      assert q[..i] == q;
    } else {
      RunsMonotone(q[..|q| - 1], i);
      assert q[..|q| - 1][..i] == q[..i];
    }
  }

  /** The last frame of `q` begins the first run that does not fit in the message; the runs before it are there. */
  ghost predicate CutOff(q: seq<nat>, reported: seq<Run>) {
    q != [] && RunsOf(q) == reported + [Run(q[|q| - 1], 0)]
  }

  /** The message tells the frames `q`, but for what stood in its last count slot. */
  ghost predicate Tells(m: Message, stale: seq<nat>, q: seq<nat>)
    requires m.Valid()
    reads m, m.pfn, m.count
  {
    var rs := RunsOf(q);
    1 <= |rs| <= m.pfn.Length && |rs| <= |stale| && m.Reported(|rs|) == WithStale(rs, stale[|rs| - 1])
  }

  lemma CutOffNow(pfns: seq<nat>, counts: seq<nat>, stale: seq<nat>, q: seq<nat>, pos: nat, vpfn: nat, count: nat,
                  x: nat)
    requires Written(pfns, counts, stale, q, pos, vpfn, count) && x != vpfn && pos + 1 == |pfns|
    ensures CutOff(q + [x], Zip(pfns, counts[pos := count], |pfns|))
  {
    hide RunsOf;
    RunsSnoc(q, x);
    assert RunsOf(q) == Zip(pfns, counts[pos := count], |pfns|);
  }

  /** One frame more goes on the last run, or begins one, if there is a slot for it. */
  method PutFrame(m: Message, ghost stale: seq<nat>, ghost q: seq<nat>, pos: nat, vpfn: nat, count: nat, pfn: nat)
    returns (pos': nat, count': nat, overran: bool)
    requires m.Valid() && Written(m.pfn[..], m.count[..], stale, q, pos, vpfn, count)
    modifies m.pfn, m.count
    ensures !overran ==> Written(m.pfn[..], m.count[..], stale, q + [pfn], pos', pfn + 1, count')
    ensures overran ==> CutOff(q + [pfn], m.Reported(m.pfn.Length))
  {
    hide RunsOf, Written, CutOff;
    Room(m.pfn[..], m.count[..], stale, q, pos, vpfn, count);
    if vpfn == pfn {
      WrittenOn(m.pfn[..], m.count[..], stale, q, pos, vpfn, count);
      return pos, count + 1, false;
    }
    if pos + 1 == m.pfn.Length {
      CutOffNow(m.pfn[..], m.count[..], stale, q, pos, vpfn, count, pfn);
      m.count[pos] := count;
      return pos, count, true;
    }
    WrittenNew(m.pfn[..], m.count[..], stale, q, pos, vpfn, count, pfn);
    m.count[pos] := count;
    m.pfn[pos + 1] := pfn;
    return pos + 1, 0, false;
  }

  lemma CutOffRuns(q: seq<nat>, reported: seq<Run>, all: seq<nat>)
    requires CutOff(q, reported) && q <= all
    ensures |RunsOf(all)| > |reported|
  {
    assert all[..|q|] == q;
    RunsMonotone(all, |q|);
  }

  lemma CutOffFirst(x: nat)
    ensures CutOff([x], [])
  {
    RunsSnoc([], x);
    assert [] + [x] == [x];
  }

  /** What has been taken is the beginning of what `n` pages would be. */
  lemma TakenFrom(was: seq<nat>, first: nat, rest: seq<nat>, free: seq<nat>, n: nat)
    requires was == [first] + (rest + free) && |rest| + 1 <= n <= |was|
    ensures ([first] + rest) + free == was && ([first] + rest)[1..] == rest && rest <= was[..n][1..]
    ensures n == |rest| + 1 ==> was[..n] == [first] + rest
  {
    assert was[..n] == [first] + (rest + free[..n - |rest| - 1]);
  }

  lemma TellsFits(m: Message, stale: seq<nat>, q: seq<nat>)
    requires m.Valid() && Tells(m, stale, q)
    ensures |RunsOf(q)| <= m.pfn.Length
  {
  }

  /** The count of the last run is written, if it is not 0. */
  method PutCount(m: Message, ghost stale: seq<nat>, ghost q: seq<nat>, pos: nat, ghost vpfn: nat, count: nat)
    requires m.Valid() && Written(m.pfn[..], m.count[..], stale, q, pos, vpfn, count)
    modifies m.count
    ensures Tells(m, stale, q)
  {
    hide RunsOf, Written, WithStale;
    Room(m.pfn[..], m.count[..], stale, q, pos, vpfn, count);
    WrittenAll(m.pfn[..], m.count[..], stale, q, pos, vpfn, count);
    if count != 0 {
      m.count[pos] := count;
    }
  }

  /** Every second frame. */
  function Scatter(n: nat): (q: seq<nat>)
    ensures |q| == n
  {
    if n == 0 then [] else Scatter(n - 1) + [2 * n]
  }

  /** They make as many runs as there are frames, so that for every size of message some pages do not fit. */
  lemma {:induction false} ScatterRuns(n: nat)
    ensures var rs := RunsOf(Scatter(n)); |rs| == n && (n > 0 ==> rs[n - 1] == Run(2 * n, 0))
  {
    hide RunsOf;
    if n == 0 {
      Nothing();
    } else {
      ScatterRuns(n - 1);
      RunsSnoc(Scatter(n - 1), 2 * n);
    }
  }

  // ---------------------------------------------------------------- the pool

  datatype Owner = Owner(process: nat, address: nat)

  function Min(a: int, b: int): int {
    if a < b then a else b
  }

  /** How many pages a request for `nr` takes: one more than asked for, and two at least. */
  function Taken(available: nat, nr: int): nat {
    Min(available, if nr < 1 then 2 else nr + 1)
  }

  class Pool {
    var free: seq<nat>        // freeList, by frame number
    var used: seq<nat>        // usedList
    var owner: map<nat, Owner>
    var usedMemory: int

    /** The loop of `get_pages_prep`: up to `left` pages more, after the one that begins the first run. */
    method PrepMore(first: nat, left: nat, m: Message) returns (more: seq<nat>, overran: bool)
      requires m.Valid() && m.pfn.Length > 0 && m.pfn[0] == first
      modifies this`free, m.pfn, m.count
      ensures more + free == old(free) && |more| <= left
      ensures !overran ==> (free == [] || |more| == left) && Tells(m, old(m.count[..]), [first] + more)
      ensures overran ==> CutOff([first] + more, m.Reported(m.pfn.Length))
    {
      hide RunsOf, Written, CutOff, Tells;
      ghost var was, stale := free, m.count[..];
      more, overran := [], false;
      var pos: nat, vpfn: nat, count: nat := 0, first + 1, 0;
      WrittenFirst(m.pfn[..], m.count[..], first);
      assert [first] + more == [first];
      while |more| < left && free != []
        invariant |more| <= left && more + free == was
        invariant Written(m.pfn[..], m.count[..], stale, [first] + more, pos, vpfn, count)
        decreases |free|
      {
        var pfn := free[0];
        assert ([first] + more) + [pfn] == [first] + (more + [pfn]);
        pos, count, overran := PutFrame(m, stale, [first] + more, pos, vpfn, count, pfn);
        more, free := more + [pfn], free[1..];
        if overran {
          return;
        }
        vpfn := pfn + 1;
      }
      PutCount(m, stale, [first] + more, pos, vpfn, count);
    }

    /** The pages after the first one: one at least, and up to `left` more. */
    method PrepRuns(left: nat, m: Message) returns (rest: seq<nat>, overran: bool)
      requires m.Valid() && free != []
      modifies this`free, m.pfn, m.count
      ensures rest + free == old(free) && 1 <= |rest| <= left + 1
      ensures !overran ==> (free == [] || |rest| == left + 1) && Tells(m, old(m.count[..]), rest)
      ensures overran ==> CutOff(rest, m.Reported(m.pfn.Length))
    {
      hide RunsOf, CutOff, Tells;
      var vpfn := free[0];
      free := free[1..];
      if m.pfn.Length == 0 {
        assert m.Reported(0) == [];
        CutOffFirst(vpfn);
        return [vpfn], true;
      }
      m.pfn[0] := vpfn;
      var more: seq<nat>;
      more, overran := PrepMore(vpfn, left, m);
      rest := [vpfn] + more;
    }

    /** `get_pages_prep`, up to the first run that is written beyond the message, if there is one. */
    method GetPagesPrep(placeholder: seq<nat>, nr: int, m: Message) returns (pages: seq<nat>, r: int, overran: bool)
      requires m.Valid()
      modifies this`free, m, m.pfn, m.count
      ensures var n := Taken(|old(free)|, nr);
              var q := old(free)[..n];
              && (q != [] ==> m.paddr == q[0])
              && (n < 2 ==> m.pfn[..] == old(m.pfn[..]) && m.count[..] == old(m.count[..]))
              && (overran <==> n >= 2 && |RunsOf(q[1..])| > m.pfn.Length)
              && (!overran ==> pages == placeholder + q && r == if n < 2 then n else n - 1)
              && (!overran && n >= 2 ==> Tells(m, old(m.count[..]), q[1..]))
      ensures var all := |old(free)|;
              var taken := |pages| - |placeholder|;
              !overran ==>
                && taken == |old(free)| - |free|
                && (nr >= 1 && all > nr ==> taken == nr + 1 && r == nr)
                && (nr < 1 && all >= 2 ==> taken == 2 && r == 1)
                && (all < 2 || (nr >= 1 && all <= nr) ==> taken == all && r == if all < 2 then all else all - 1)
      ensures exists taken ::
                && pages == placeholder + taken && taken + free == old(free)
                && (overran ==> taken != [] && CutOff(taken[1..], m.Reported(m.pfn.Length)))
    {
      hide RunsOf, CutOff, Tells;
      ghost var was := free;
      pages, overran := placeholder, false;
      if free == [] {
        assert pages == placeholder + [];
        return pages, 0, false;
      }
      var first := free[0];
      m.paddr, free := first, free[1..];
      if free == [] {
        assert was == [first];
        return pages + [first], 1, false;
      }
      var rest: seq<nat>;
      rest, overran := PrepRuns(if nr > 1 then nr - 1 else 0, m);
      pages, r := pages + ([first] + rest), |rest|;
      ghost var n := Taken(|was|, nr);
      TakenFrom(was, first, rest, free, n);
      if overran {
        CutOffRuns(rest, m.Reported(m.pfn.Length), was[..n][1..]);
      } else {
        TellsFits(m, old(m.count[..]), rest);
      }
    }

    /** `consume_pages_acct`. */
    method ConsumePagesAcct(pages: seq<nat>, address: nat, origin: nat)
      modifies this
      ensures used == old(used) + pages && free == old(free)
      ensures usedMemory == old(usedMemory) + PAGE_SIZE * |pages|
      ensures owner == Labelled(old(owner), pages, address, origin)
    {
      var addr := address;
      for i := 0 to |pages|
        invariant addr == address + PAGE_SIZE * i
        invariant used == old(used) + pages[..i] && free == old(free)
        invariant usedMemory == old(usedMemory) + PAGE_SIZE * i
        invariant owner == Labelled(old(owner), pages[..i], address, origin)
      {
        assert pages[..i + 1][..i] == pages[..i];
        owner := owner[pages[i] := Owner(origin, addr)];
        used := used + [pages[i]];
        usedMemory := usedMemory + PAGE_SIZE;
        addr := addr + PAGE_SIZE;
      }
      assert pages[..|pages|] == pages;
    }
  }

  /** The labels after the pages have been given consecutive addresses. */
  function Labelled(owner: map<nat, Owner>, pages: seq<nat>, address: nat, origin: nat): map<nat, Owner> {
    if pages == [] then owner
    else
      var i := |pages| - 1;
      Labelled(owner, pages[..i], address, origin)[pages[i] := Owner(origin, address + PAGE_SIZE * i)]
  }

  /** The i-th page is labelled with the i-th address, and no other page is touched. */
  lemma {:induction false} LabelledAt(owner: map<nat, Owner>, pages: seq<nat>, address: nat, origin: nat, p: nat)
    requires forall i, j :: 0 <= i < j < |pages| ==> pages[i] != pages[j]
    ensures var t := Labelled(owner, pages, address, origin);
            && (p in t <==> p in owner || p in pages)
            && (p in owner && p !in pages ==> t[p] == owner[p])
            && (forall i :: 0 <= i < |pages| && pages[i] == p ==> t[p] == Owner(origin, address + 4096 * i))
  {
    if pages != [] {
      var i := |pages| - 1;
      var init := pages[..i];
      LabelledAt(owner, init, address, origin, p);
      assert p in pages <==> p in init || p == pages[i] by { assert pages == init + [pages[i]]; }
      forall j | 0 <= j < |pages| && pages[j] == p
        ensures Labelled(owner, pages, address, origin)[p] == Owner(origin, address + PAGE_SIZE * j)
      {
        if j < i { assert init[j] == p && pages[j] != pages[i]; }
      }
    }
  }

  /** The kernel and the pool agree: of a fault at `address` served with the pages `q`, the first page is mapped there
      and the others, as the kernel decodes them from the runs, at the pages that follow; and so they are labelled. */
  lemma MappedAsLabelled(owner: map<nat, Owner>, q: seq<nat>, address: nat, origin: nat, i: nat)
    requires forall i, j :: 0 <= i < j < |q| ==> q[i] != q[j]
    requires i < |q|
    ensures var mapped := [q[0]] + Expand(RunsOf(q[1..]));
            var t := Labelled(owner, q, address, origin);
            i < |mapped| == |q| && mapped[i] in t && t[mapped[i]] == Owner(origin, address + PAGE_SIZE * i)
  {
    RunsRoundTrip(q[1..]);
    assert [q[0]] + q[1..] == q;
    LabelledAt(owner, q, address, origin, q[i]);
  }
}
