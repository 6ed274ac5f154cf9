/**
 The order in which pages and slots leave the lists of `Paging`, over runs: which used page is picked, which free page
 is taken and which slot is written next. And how often a page that has been given up is freed.
 */
module PagingQueues {
  import opened Paging
  import opened PagingRuns
  import opened PagingOrder
  import ListOps

  // ---------------------------------------------------------------- lists

  /** Taking a member off a list is what `list_del` does: the others keep their order. */
  lemma {:induction false} WithoutAt(s: seq<nat>, i: nat)
    requires NoDup(s) && i < |s|
    ensures Without(s, s[i]) == s[..i] + s[i + 1..] == ListOps.Removed(s, i)
  {
    NoDupTail(s);
    if i == 0 {
      WithoutSize(s[1..], s[0]);
    } else {
      WithoutAt(s[1..], i - 1);
      assert s[1..][..i - 1] == s[1..i] && s[1..][i..] == s[i + 1..];
      assert s[..i] == [s[0]] + s[1..i];
    }
  }

  /** The first `x` of `q` is in front of every `y`. */
  ghost predicate Ahead(q: seq<nat>, x: nat, y: nat) {
    x != y && exists i :: 0 <= i < |q| && q[i] == x && y !in q[..i]
  }

  /** What a step does to a list. */
  datatype Change =
    | Same
    | First              // the first member goes
    | Off(x: nat)        // `x` goes
    | Front(x: nat)      // `x` comes to the front
    | Back(x: nat)       // `x` comes to the end
    | OffFront(x: nat)   // `x` goes from where it is to the front
    | OffBack(x: nat)    // `x` goes from where it is to the end

  ghost function Apply(q: seq<nat>, c: Change): seq<nat> {
    match c
    case Same => q
    case First => if q == [] then [] else q[1..]
    case Off(x) => Without(q, x)
    case Front(x) => [x] + q
    case Back(x) => q + [x]
    case OffFront(x) => [x] + Without(q, x)
    case OffBack(x) => Without(q, x) + [x]
  }

  lemma {:induction false} AheadWithout(q: seq<nat>, x: nat, y: nat, z: nat)
    requires Ahead(q, x, y) && z != x
    ensures Ahead(Without(q, z), x, y)
  {
    var i :| 0 <= i < |q| && q[i] == x && y !in q[..i];
    if i == 0 {
      assert Without(q, z)[0] == x;
    } else {
      assert q[1..][i - 1] == x && y !in q[1..][..i - 1] by {
        forall j | 0 <= j < i - 1 ensures q[1..][j] != y { assert q[j + 1] in q[..i]; }
      }
      AheadWithout(q[1..], x, y, z);
      if q[0] != z {
        assert q[0] in q[..i];
        AheadFront(Without(q[1..], z), x, y, q[0]);
      }
    }
  }

  lemma AheadFront(q: seq<nat>, x: nat, y: nat, z: nat)
    requires Ahead(q, x, y) && z != y
    ensures Ahead([z] + q, x, y)
  {
    var i :| 0 <= i < |q| && q[i] == x && y !in q[..i];
    var p := [z] + q;
    assert p[i + 1] == x && p[..i + 1] == [z] + q[..i];
  }

  lemma AheadBack(q: seq<nat>, x: nat, y: nat, z: nat)
    requires Ahead(q, x, y)
    ensures Ahead(q + [z], x, y)
  {
    var i :| 0 <= i < |q| && q[i] == x && y !in q[..i];
    assert (q + [z])[i] == x && (q + [z])[..i] == q[..i];
  }

  lemma AheadTail(q: seq<nat>, x: nat, y: nat)
    requires Ahead(q, x, y) && q[0] != x
    ensures Ahead(q[1..], x, y)
  {
    var i :| 0 <= i < |q| && q[i] == x && y !in q[..i];
    assert q[1..][i - 1] == x;
    assert y !in q[1..][..i - 1] by {
      forall j | 0 <= j < i - 1 ensures q[1..][j] != y { assert q[j + 1] in q[..i]; }
    }
  }

  /** Every change keeps the order of two members, unless the one in front goes or the other comes to the front. */
  lemma AheadKept(q: seq<nat>, c: Change, x: nat, y: nat)
    requires Ahead(q, x, y) && (c.First? ==> q[0] != x) && !((c.Off? || c.OffFront? || c.OffBack?) && c.x == x)
    requires !((c.Front? || c.OffFront?) && c.x == y)
    ensures Ahead(Apply(q, c), x, y)
  {
    hide Ahead, Without;
    match c
    case Same =>
    case First => AheadTail(q, x, y);
    case Off(z) => AheadWithout(q, x, y, z);
    case Front(z) => AheadFront(q, x, y, z);
    case Back(z) => AheadBack(q, x, y, z);
    case OffFront(z) =>
      AheadWithout(q, x, y, z);
      AheadFront(Without(q, z), x, y, z);
    case OffBack(z) =>
      AheadWithout(q, x, y, z);
      AheadBack(Without(q, z), x, y, z);
  }

  lemma HeadKept(q: seq<nat>, c: Change, x: nat)
    requires q != [] && q[0] == x && !c.First? && !c.Front? && !c.OffFront? && !((c.Off? || c.OffBack?) && c.x == x)
    ensures Apply(q, c) != [] && Apply(q, c)[0] == x
  {
  }

  lemma NotHead(q: seq<nat>, x: nat, y: nat)
    requires Ahead(q, x, y)
    ensures q != [] && q[0] != y
  {
    var i :| 0 <= i < |q| && q[i] == x && y !in q[..i];
    if i > 0 { assert q[0] in q[..i]; }
  }

  lemma AddedLast(q: seq<nat>, x: nat, y: nat)
    requires x in q && y !in q
    ensures Ahead(q + [y], x, y)
  {
    var i :| 0 <= i < |q| && q[i] == x;
    assert (q + [y])[..i] == q[..i];
  }

  // ---------------------------------------------------------------- what the steps do to the lists

  ghost function UsedChange<D>(s: State<D>, l: Step<D>): Change {
    match l
    case AllocLink(_, p) => Back(p)
    case EvictHold(e, _) => if e in s.picks then Off(s.picks[e]) else Same
    case EvictDead(e) => if e in s.picks then Off(s.picks[e]) else Same
    case FreePage(p) => Off(p)
    case InRestore(_, _, p) => Front(p)
    case _ => Same
  }

  ghost function FreeChange<D>(s: State<D>, l: Step<D>): Change {
    match l
    case AllocTake(_) => First
    case InTake(_, _) => First
    case InRetry(_, _) => First
    case AllocFail(_, p) => Front(p)
    case EvictHold(e, _) => if e in s.picks then Off(s.picks[e]) else Same
    case EvictDead(e) => if e in s.picks then OffFront(s.picks[e]) else Same
    case FreePage(p) => OffBack(p)
    case OutCommit(n) => if n in s.nodes && !s.nodes[n].retaken then Front(s.nodes[n].page) else Same
    case InFail(_, _, p) => Back(p)
    case _ => Same
  }

  ghost function SlotChange<D>(s: State<D>, l: Step<D>): Change {
    match l
    case EvictHold(_, _) => First
    case OutCommit(n) => if n in s.nodes && s.nodes[n].retaken then Back(s.nodes[n].slot) else Same
    case InRelease(n) => if n in s.nodes then Back(s.nodes[n].slot) else Same
    case _ => Same
  }

  ghost function OwnerAfter<D>(s: State<D>, l: Step<D>): map<Page, Addr> {
    match l
    case AllocLink(a, p) => s.owner[p := a]
    case FreePage(p) => s.owner[p := Addr(0, 0)]
    case InRestore(_, n, p) => if n in s.nodes then s.owner[p := s.nodes[n].addr] else s.owner
    case _ => s.owner
  }

  ghost function EventsAfter<D>(s: State<D>, l: Step<D>): multiset<Page> {
    match l
    case Unmap(_, p) => s.events + multiset{p}
    case FreePage(p) => s.events - multiset{p}
    case _ => s.events
  }

  ghost function ReleasingAfter<D>(s: State<D>, l: Step<D>): set<NodeId> {
    match l
    case InRestore(_, n, _) => s.releasing + {n}
    case InRelease(n) => s.releasing - {n}
    case _ => s.releasing
  }

  ghost function PicksAfter<D>(s: State<D>, l: Step<D>): map<nat, Page> {
    match l
    case EvictPick(e) => if s.used == [] then s.picks else s.picks[e := s.used[0]]
    case EvictHold(e, _) => s.picks - {e}
    case EvictDead(e) => s.picks - {e}
    case _ => s.picks
  }

  ghost function CacheChange<D>(l: Step<D>): Change {
    match l
    case OutCache(n) => Front(n)
    case OutCommit(n) => Off(n)
    case _ => Same
  }

  ghost predicate Changed<D>(s: State<D>, l: Step<D>, t: State<D>) {
    && t.used == Apply(s.used, UsedChange(s, l)) && t.free == Apply(s.free, FreeChange(s, l))
    && t.freeSlots == Apply(s.freeSlots, SlotChange(s, l)) && t.owner == OwnerAfter(s, l)
    && t.events == EventsAfter(s, l) && t.releasing == ReleasingAfter(s, l)
    && t.picks == PicksAfter(s, l) && t.cache == Apply(s.cache, CacheChange(l))
  }

  ghost predicate SameLists<D>(s: State<D>, t: State<D>) {
    && t.used == s.used && t.free == s.free && t.freeSlots == s.freeSlots
    && t.owner == s.owner && t.events == s.events && t.releasing == s.releasing && t.picks == s.picks
  }

  lemma TakeChanged<D>(s: State<D>, t: State<D>, a: Addr)
    requires s.free != [] && t == TakePage(s, a)
    ensures Changed(s, AllocTake(a), t)
  {
    hide Without;
  }

  lemma PutBackChanged<D>(s: State<D>, t: State<D>, a: Addr, p: Page)
    requires t == PutBack(s, a, p)
    ensures Changed(s, AllocFail(a, p), t)
  {
    hide Without;
  }

  lemma MapChanged<D>(s: State<D>, t: State<D>, a: Addr, p: Page)
    requires p in s.mem && t == MapPage(s, a, p)
    ensures Changed(s, AllocMap(a, p), t)
  {
    hide Without;
  }

  lemma LinkChanged<D>(s: State<D>, t: State<D>, a: Addr, p: Page)
    requires t == LinkPage(s, a, p)
    ensures Changed(s, AllocLink(a, p), t)
  {
    hide Without;
  }

  lemma WriteChanged<D>(s: State<D>, t: State<D>, a: Addr, p: Page, d: D)
    requires t == WriteTo(s, a, p, d)
    ensures Changed(s, Write(a, d), t)
  {
    hide Without;
  }

  lemma AllocChanges<D>(s: State<D>, l: Step<D>, t: State<D>)
    requires AllocNext(s, l, t)
    ensures Changed(s, l, t)
  {
    hide Changed, TakePage, PutBack, MapPage, LinkPage, WriteTo;
    match l
    case AllocTake(a) => TakeChanged(s, t, a);
    case AllocFail(a, p) => PutBackChanged(s, t, a, p);
    case AllocMap(a, p) => MapChanged(s, t, a, p);
    case AllocLink(a, p) => LinkChanged(s, t, a, p);
    case Write(a, d) => WriteChanged(s, t, a, s.pt[a].page, d);
  }

  lemma PickChanged<D>(s: State<D>, t: State<D>, e: nat)
    requires s.used != [] && t == PickPage(s, e)
    ensures Changed(s, EvictPick(e), t)
  {
    hide Without;
  }

  lemma HoldChanged<D>(s: State<D>, t: State<D>, e: nat, n: NodeId)
    requires e in s.picks && s.picks[e] in s.owner && s.freeSlots != [] && t == StartSwapOut(s, e, s.picks[e], n)
    ensures Changed(s, EvictHold(e, n), t)
  {
    hide Without;
  }

  lemma ReclaimChanged<D>(s: State<D>, t: State<D>, e: nat)
    requires e in s.picks && t == ReclaimDead(s, e, s.picks[e])
    ensures Changed(s, EvictDead(e), t)
  {
    hide Without;
  }

  lemma UnmapChanged<D>(s: State<D>, t: State<D>, a: Addr, p: Page)
    requires t == UnmapPage(s, a, p)
    ensures Changed(s, Unmap(a, p), t)
  {
    hide Without;
  }

  lemma LeaveChanged<D>(s: State<D>, t: State<D>, a: Addr, n: NodeId)
    requires t == LeaveSlot(s, a)
    ensures Changed(s, UnmapAsleep(a, n), t)
  {
    hide Without;
  }

  lemma GiveBackChanged<D>(s: State<D>, t: State<D>, p: Page)
    requires t == GiveBack(s, p)
    ensures Changed(s, FreePage(p), t)
  {
    hide Without;
  }

  lemma EvictChanges<D>(s: State<D>, l: Step<D>, t: State<D>)
    requires EvictNext(s, l, t)
    ensures Changed(s, l, t)
  {
    hide Changed, Settled, PickPage, StartSwapOut, ReclaimDead, UnmapPage, LeaveSlot, GiveBack;
    match l
    case EvictPick(e) => PickChanged(s, t, e);
    case EvictHold(e, n) => HoldChanged(s, t, e, n);
    case EvictDead(e) => ReclaimChanged(s, t, e);
    case Unmap(a, p) => UnmapChanged(s, t, a, p);
    case UnmapAsleep(a, n) => LeaveChanged(s, t, a, n);
    case FreePage(p) => GiveBackChanged(s, t, p);
  }

  lemma OutSameLists<D>(s: State<D>, n: NodeId, v: ToSwap)
    ensures SameLists(s, EnterCache(s, n)) && SameLists(s, ClearPte(s, n, v)) && SameLists(s, SeekOut(s, n, v))
    ensures EnterCache(s, n).cache == [n] + s.cache
    ensures ClearPte(s, n, v).cache == s.cache && SeekOut(s, n, v).cache == s.cache
    ensures v.page in s.mem ==> SameLists(s, WriteSlot(s, n, v)) && WriteSlot(s, n, v).cache == s.cache
  {
  }

  lemma CommitLists<D>(s: State<D>, n: NodeId, v: ToSwap)
    ensures var t := AbandonSwapOut(s, n, v);
            && SameLists(s, t.(freeSlots := s.freeSlots)) && t.freeSlots == s.freeSlots + [v.slot]
            && t.cache == Without(s.cache, n)
    ensures var t := FinishSwapOut(s, n, v);
            && SameLists(s, t.(free := s.free)) && t.free == [v.page] + s.free && t.cache == Without(s.cache, n)
  {
    hide Without;
  }

  lemma OutChanges<D>(s: State<D>, l: Step<D>, t: State<D>)
    requires OutNext(s, l, t)
    ensures Changed(s, l, t)
  {
    hide Without, EnterCache, ClearPte, SeekOut, WriteSlot, AbandonSwapOut, FinishSwapOut;
    if l.OutCommit? {
      CommitLists(s, l.n, s.nodes[l.n]);
    } else {
      OutSameLists(s, l.n, s.nodes[l.n]);
    }
  }

  lemma FaultChanges<D>(s: State<D>, l: Step<D>, t: State<D>)
    requires FaultNext(s, l, t)
    ensures Changed(s, l, t)
  {
    hide Without, FindCached;
  }

  lemma TakeChanges<D>(s: State<D>, l: Step<D>, t: State<D>)
    requires TakeNext(s, l, t)
    ensures Changed(s, l, t)
  {
    hide Without;
  }

  lemma InChanges<D>(s: State<D>, l: Step<D>, t: State<D>)
    requires InNext(s, l, t)
    ensures Changed(s, l, t)
  {
    hide Without;
  }

  lemma ListsChange<D>(s: State<D>, l: Step<D>, t: State<D>)
    requires Next(s, l, t)
    ensures Changed(s, l, t)
  {
    hide AllocNext, EvictNext, OutNext, FaultNext, TakeNext, InNext, Changed;
    if AllocNext(s, l, t) {
      AllocChanges(s, l, t);
    } else if EvictNext(s, l, t) {
      EvictChanges(s, l, t);
    } else if OutNext(s, l, t) {
      OutChanges(s, l, t);
    } else if FaultNext(s, l, t) {
      FaultChanges(s, l, t);
    } else if TakeNext(s, l, t) {
      TakeChanges(s, l, t);
    } else {
      InChanges(s, l, t);
    }
  }

  lemma UsedChanges<D>(s: State<D>, l: Step<D>, t: State<D>)
    requires Next(s, l, t)
    ensures t.used == Apply(s.used, UsedChange(s, l))
  {
    hide Next, Apply, UsedChange;
    ListsChange(s, l, t);
  }

  lemma FreeChanges<D>(s: State<D>, l: Step<D>, t: State<D>)
    requires Next(s, l, t)
    ensures t.free == Apply(s.free, FreeChange(s, l))
  {
    hide Next, Apply, FreeChange;
    ListsChange(s, l, t);
  }

  lemma SlotChanges<D>(s: State<D>, l: Step<D>, t: State<D>)
    requires Next(s, l, t)
    ensures t.freeSlots == Apply(s.freeSlots, SlotChange(s, l))
  {
    hide Next, Apply, SlotChange;
    ListsChange(s, l, t);
  }

  // ---------------------------------------------------------------- used pages

  lemma {:induction false} UsedAhead<D>(r: Run<D>, p: Page, q: Page, j: nat, k: nat)
    requires IsRun(r) && j <= k < |r.states| && Ahead(r.states[j].used, p, q)
    requires forall i :: j <= i < k ==> !TakesOff(r.states[i], r.steps[i], p)
    requires forall i :: j <= i < k ==> !(r.steps[i].InRestore? && r.steps[i].p == q)
    ensures Ahead(r.states[k].used, p, q)
    decreases k - j
  {
    hide Next, Init, Ahead, Apply;
    if j < k {
      UsedAhead(r, p, q, j, k - 1);
      UsedChanges(r.states[k - 1], r.steps[k - 1], r.states[k]);
      AheadKept(r.states[k - 1].used, UsedChange(r.states[k - 1], r.steps[k - 1]), p, q);
    }
  }

  /** In every run: of two used pages the one behind is not picked for eviction before the one in front has been taken
      off the list, unless it has been swapped in again. */
  lemma UsedInOrder<D>(r: Run<D>, p: Page, q: Page, e: nat, j: nat, k: nat)
    requires IsRun(r) && j <= k < |r.steps| && r.steps[k] == EvictPick(e) && Ahead(r.states[j].used, p, q)
    requires forall i :: j <= i < k ==> !TakesOff(r.states[i], r.steps[i], p)
    requires forall i :: j <= i < k ==> !(r.steps[i].InRestore? && r.steps[i].p == q)
    ensures e in r.states[k + 1].picks && r.states[k + 1].picks[e] != q
  {
    hide Next, Init, Ahead;
    UsedAhead(r, p, q, j, k);
    NotHead(r.states[k].used, p, q);
    assert Next(r.states[k], r.steps[k], r.states[k + 1]);
    Picked(r.states[k], e, r.states[k + 1]);
  }

  /** In every run: when the first used page has been taken off the list, the next to be picked is the one that stood
      behind it, unless a page has been swapped in or this one has been taken off, too. */
  lemma NextVictim<D>(r: Run<D>, p: Page, q: Page, e: nat, j: nat, k: nat)
    requires IsRun(r) && j < k < |r.steps| && r.steps[k] == EvictPick(e)
    requires |r.states[j].used| >= 2 && r.states[j].used[0] == p && r.states[j].used[1] == q && p != q
    requires TakesOff(r.states[j], r.steps[j], p)
    requires forall i :: j < i < k ==> !r.steps[i].InRestore? && !TakesOff(r.states[i], r.steps[i], q)
    ensures e in r.states[k + 1].picks && r.states[k + 1].picks[e] == q
  {
    hide Next, Init, TakesOff;
    assert Next(r.states[j], r.steps[j], r.states[j + 1]) && Next(r.states[k], r.steps[k], r.states[k + 1]);
    SecondFirst(r.states[j], r.steps[j], r.states[j + 1], p, q);
    FirstStays(r, q, j + 1, k);
    Picked(r.states[k], e, r.states[k + 1]);
  }

  lemma SecondFirst<D>(s: State<D>, l: Step<D>, t: State<D>, p: Page, q: Page)
    requires Next(s, l, t) && |s.used| >= 2 && s.used[0] == p && s.used[1] == q && p != q && TakesOff(s, l, p)
    ensures t.used != [] && t.used[0] == q
  {
    hide Next;
    UsedChanges(s, l, t);
    assert s.used[1..][0] == q;
    assert t.used == Without(s.used, p);
  }

  // ---------------------------------------------------------------- free pages

  /** The step takes page `x` from the free list. */
  ghost predicate Gets<D>(s: State<D>, l: Step<D>, t: State<D>, x: Page) {
    || ((l.AllocTake? || l.InRetry?) && In(t, l.a, Allocating(x)))
    || (l.InTake? && In(t, l.a, Fetching(l.n, x)))
  }

  lemma GetsFirst<D>(s: State<D>, l: Step<D>, t: State<D>)
    requires Next(s, l, t) && (l.AllocTake? || l.InRetry? || l.InTake?)
    ensures s.free != [] && Gets(s, l, t, s.free[0])
    ensures forall x :: Gets(s, l, t, x) ==> x == s.free[0]
  {
    hide EvictNext, OutNext, FaultNext, InNext, TakePage, TakeForRead, PutBack, MapPage, LinkPage, WriteTo, Turn;
    if s.free != [] { TakenPage(s, l.a, if l.InTake? then l.n else 0); }
  }

  lemma TakenPage<D>(s: State<D>, a: Addr, n: NodeId)
    requires s.free != []
    ensures In(TakePage(s, a), a, Allocating(s.free[0])) && In(TakeForRead(s, a, n), a, Fetching(n, s.free[0]))
  {
  }

  /** The step frees page `p`, to be taken next: a mapping that failed, a reclaim, the end of a swap-out. */
  predicate FreesFirst<D>(s: State<D>, l: Step<D>, p: Page) {
    match l
    case AllocFail(_, q) => q == p
    case EvictDead(e) => e in s.picks && s.picks[e] == p
    case OutCommit(n) => n in s.nodes && !s.nodes[n].retaken && s.nodes[n].page == p
    case _ => false
  }

  /** ... or to be taken last: a free event, a read that failed. */
  predicate FreesLast<D>(l: Step<D>, p: Page) {
    match l
    case FreePage(q) => q == p
    case InFail(_, _, q) => q == p
    case _ => false
  }

  lemma FreedHead<D>(s: State<D>, l: Step<D>, t: State<D>, p: Page)
    requires Next(s, l, t) && FreesFirst(s, l, p)
    ensures t.free != [] && t.free[0] == p
  {
    hide Next, Without;
    FreeChanges(s, l, t);
  }

  lemma FreeHeadKept<D>(s: State<D>, l: Step<D>, t: State<D>, p: Page)
    requires Next(s, l, t) && s.free != [] && s.free[0] == p && !l.AllocTake? && !l.InRetry? && !l.InTake?
    requires (forall x :: !FreesFirst(s, l, x)) && !TakesOff(s, l, p)
    ensures t.free != [] && t.free[0] == p
  {
    hide Next, Apply;
    FreeChanges(s, l, t);
    NotFreedFirst(s, l);
    HeadKept(s.free, FreeChange(s, l), p);
  }

  lemma {:induction false} FreeHead<D>(r: Run<D>, p: Page, j: nat, k: nat)
    requires IsRun(r) && j < k < |r.states| && FreesFirst(r.states[j], r.steps[j], p)
    requires forall i :: j < i < k ==> !r.steps[i].AllocTake? && !r.steps[i].InRetry? && !r.steps[i].InTake?
    requires forall i, x :: j < i < k ==> !FreesFirst(r.states[i], r.steps[i], x)
    requires forall i :: j < i < k ==> !TakesOff(r.states[i], r.steps[i], p)
    ensures r.states[k].free != [] && r.states[k].free[0] == p
  {
    hide Next, Init, FreesFirst, TakesOff;
    var s, l, t := r.states[k - 1], r.steps[k - 1], r.states[k];
    if k == j + 1 {
      FreedHead(s, l, t, p);
    } else {
      FreeHead(r, p, j, k - 1);
      FreeHeadKept(s, l, t, p);
    }
  }

  lemma NotFreedFirst<D>(s: State<D>, l: Step<D>)
    requires forall x :: !FreesFirst(s, l, x)
    ensures !FreeChange(s, l).Front? && !FreeChange(s, l).OffFront?
  {
    var c := FreeChange(s, l);
    if c.Front? || c.OffFront? { assert FreesFirst(s, l, c.x); }
  }

  /** In every run: a page freed by a mapping that failed, a reclaim or a swap-out is the next to be taken, unless
      another is freed so or it is moved in between. */
  lemma FreedTakenNext<D>(r: Run<D>, p: Page, j: nat, k: nat)
    requires IsRun(r) && j < k < |r.steps| && FreesFirst(r.states[j], r.steps[j], p)
    requires r.steps[k].AllocTake? || r.steps[k].InRetry? || r.steps[k].InTake?
    requires forall i :: j < i < k ==> !r.steps[i].AllocTake? && !r.steps[i].InRetry? && !r.steps[i].InTake?
    requires forall i, x :: j < i < k ==> !FreesFirst(r.states[i], r.steps[i], x)
    requires forall i :: j < i < k ==> !TakesOff(r.states[i], r.steps[i], p)
    ensures Gets(r.states[k], r.steps[k], r.states[k + 1], p)
  {
    hide Next, Init, FreesFirst, TakesOff, Gets;
    FreeHead(r, p, j, k);
    assert Next(r.states[k], r.steps[k], r.states[k + 1]);
    GetsFirst(r.states[k], r.steps[k], r.states[k + 1]);
  }

  lemma FreeAheadKept<D>(s: State<D>, l: Step<D>, t: State<D>, p: Page, q: Page)
    requires Next(s, l, t) && Ahead(s.free, q, p)
    requires !Gets(s, l, t, q) && !TakesOff(s, l, q) && !FreesFirst(s, l, p)
    ensures Ahead(t.free, q, p)
  {
    hide Next, Ahead, Apply, Gets;
    FreeChanges(s, l, t);
    if l.AllocTake? || l.InRetry? || l.InTake? { GetsFirst(s, l, t); }
    AheadKept(s.free, FreeChange(s, l), q, p);
  }

  lemma {:induction false} FreeAhead<D>(r: Run<D>, p: Page, q: Page, j: nat, k: nat)
    requires IsRun(r) && j <= k < |r.states| && Ahead(r.states[j].free, q, p)
    requires forall i :: j <= i < k ==> !Gets(r.states[i], r.steps[i], r.states[i + 1], q)
    requires forall i :: j <= i < k ==> !TakesOff(r.states[i], r.steps[i], q) && !FreesFirst(r.states[i], r.steps[i], p)
    ensures Ahead(r.states[k].free, q, p)
    decreases k - j
  {
    hide Next, Init, Ahead, Gets, TakesOff, FreesFirst;
    if j < k {
      FreeAhead(r, p, q, j, k - 1);
      var _ := r.steps[k - 1];
      FreeAheadKept(r.states[k - 1], r.steps[k - 1], r.states[k], p, q);
    }
  }

  /** In every careful run: a page freed by a free event or after a read that failed is not taken before the pages that
      were free then, unless these are moved or it is freed again in between. */
  lemma FreedTakenLast<D>(r: Run<D>, p: Page, q: Page, j: nat, k: nat)
    requires IsRun(r) && j < k < |r.steps| && CarefulTo(r, j + 1) && FreesLast(r.steps[j], p)
    requires q in r.states[j].free
    requires forall i :: j < i < k ==> !Gets(r.states[i], r.steps[i], r.states[i + 1], q)
    requires forall i :: j < i < k ==> !TakesOff(r.states[i], r.steps[i], q) && !FreesFirst(r.states[i], r.steps[i], p)
    ensures !Gets(r.states[k], r.steps[k], r.states[k + 1], p)
  {
    hide Next, Init, Inv, Ahead, Careful, FreesFirst, TakesOff;
    assert Next(r.states[j], r.steps[j], r.states[j + 1]) && Next(r.states[k], r.steps[k], r.states[k + 1]);
    RunInv(r, j);
    FreedLastAhead(r.states[j], r.steps[j], r.states[j + 1], p, q);
    FreeAhead(r, p, q, j + 1, k);
    NotHead(r.states[k].free, q, p);
    if Gets(r.states[k], r.steps[k], r.states[k + 1], p) { GetsFirst(r.states[k], r.steps[k], r.states[k + 1]); }
  }

  lemma FreedLastAhead<D>(s: State<D>, l: Step<D>, t: State<D>, p: Page, q: Page)
    requires Inv(s) && Next(s, l, t) && Careful(s, l) && FreesLast(l, p) && q in s.free
    ensures Ahead(t.free, q, p)
  {
    hide Next, Ahead, NoDup, Inv, Careful, Without;
    FreeChanges(s, l, t);
    NotYetFree(s, l, t, p);
    WithoutSize(s.free, p);
    AddedLast(s.free, q, p);
  }

  lemma NotYetFree<D>(s: State<D>, l: Step<D>, t: State<D>, p: Page)
    requires Inv(s) && Next(s, l, t) && Careful(s, l) && FreesLast(l, p)
    ensures NoDup(s.free) && p !in s.free
  {
    hide AllocNext, EvictNext, OutNext, FaultNext, TakeNext;
    if l.FreePage? {
      assert PageOk(s, p);
    } else {
      assert PhaseOk(s, l.a) && PageOk(s, p);
    }
  }

  // ---------------------------------------------------------------- slots

  /** The step begins a swap-out to slot `x`. */
  ghost predicate Uses<D>(l: Step<D>, t: State<D>, x: Slot) {
    l.EvictHold? && l.n in t.nodes && t.nodes[l.n].slot == x
  }

  lemma UsesFirst<D>(s: State<D>, l: Step<D>, t: State<D>)
    requires Next(s, l, t) && l.EvictHold?
    ensures s.freeSlots != [] && forall x :: Uses(l, t, x) <==> x == s.freeSlots[0]
  {
    hide AllocNext, OutNext, FaultNext, TakeNext, InNext, Without;
    assert t == StartSwapOut(s, l.e, s.picks[l.e], l.n);
  }

  lemma {:induction false} SlotAhead<D>(r: Run<D>, x: Slot, y: Slot, j: nat, k: nat)
    requires IsRun(r) && j <= k < |r.states| && Ahead(r.states[j].freeSlots, x, y)
    requires forall i :: j <= i < k ==> !Uses(r.steps[i], r.states[i + 1], x)
    ensures Ahead(r.states[k].freeSlots, x, y)
    decreases k - j
  {
    hide Next, Init, Ahead, Apply, Uses;
    if j < k {
      SlotAhead(r, x, y, j, k - 1);
      var s, l, t := r.states[k - 1], r.steps[k - 1], r.states[k];
      SlotChanges(s, l, t);
      if l.EvictHold? { UsesFirst(s, l, t); }
      AheadKept(s.freeSlots, SlotChange(s, l), x, y);
    }
  }

  /** In every careful run: a slot that is given back, after a swap-in or by a swap-out that was abandoned, is used
      again only after every slot that was free then. */
  lemma SlotReusedLast<D>(r: Run<D>, n: NodeId, x: Slot, j: nat, k: nat)
    requires IsRun(r) && j < k < |r.steps| && CarefulTo(r, j) && x in r.states[j].freeSlots && n in r.states[j].nodes
    requires r.steps[j] == InRelease(n) || (r.steps[j] == OutCommit(n) && r.states[j].nodes[n].retaken)
    requires forall i :: j < i < k ==> !Uses(r.steps[i], r.states[i + 1], x)
    ensures !Uses(r.steps[k], r.states[k + 1], r.states[j].nodes[n].slot)
  {
    hide Next, Init, Inv, Ahead, Careful, Uses;
    assert Next(r.states[j], r.steps[j], r.states[j + 1]) && Next(r.states[k], r.steps[k], r.states[k + 1]);
    var y := r.states[j].nodes[n].slot;
    RunInv(r, j);
    NodeSlot(r.states[j], n);
    SlotChanges(r.states[j], r.steps[j], r.states[j + 1]);
    AddedLast(r.states[j].freeSlots, x, y);
    SlotAhead(r, x, y, j + 1, k);
    NotHead(r.states[k].freeSlots, x, y);
    if r.steps[k].EvictHold? {
      UsesFirst(r.states[k], r.steps[k], r.states[k + 1]);
    } else {
      UsesNone(r.steps[k], r.states[k + 1], y);
    }
  }

  lemma UsesNone<D>(l: Step<D>, t: State<D>, x: Slot)
    requires !l.EvictHold?
    ensures !Uses(l, t, x)
  {
  }

  lemma NodeSlot<D>(s: State<D>, n: NodeId)
    requires Inv(s) && n in s.nodes
    ensures s.nodes[n].slot !in s.freeSlots
  {
    assert NodeOk(s, n);
  }

  /** In every careful run: after a swap-in its node and slot can be given back, until they are; the slot is free
      then. */
  lemma ReleaseDue<D>(r: Run<D>, a: Addr, n: NodeId, p: Page, j: nat, k: nat) returns (t: State<D>)
    requires IsRun(r) && j < k < |r.states| && CarefulTo(r, k) && r.steps[j] == InRestore(a, n, p)
    requires forall i :: j < i < k ==> r.steps[i] != InRelease(n)
    ensures n in r.states[k].nodes && Next(r.states[k], InRelease(n), t)
    ensures n !in t.nodes && r.states[k].nodes[n].slot in t.freeSlots
  {
    hide Next, Init, Careful, PhaseOk, PageOk, NodeOk, SlotOk;
    Releasing(r, a, n, p, j, k);
    RunInv(r, k);
    assert n in r.states[k].nodes.Keys;
    t := ReleaseSlot(r.states[k], n);
    ReleaseEnabled(r.states[k], n);
  }

  lemma ReleaseEnabled<D>(s: State<D>, n: NodeId)
    requires n in s.releasing && n in s.nodes
    ensures Next(s, InRelease(n), ReleaseSlot(s, n))
  {
    hide AllocNext, EvictNext, OutNext, FaultNext, TakeNext, ReleaseSlot;
    assert InNext(s, InRelease(n), ReleaseSlot(s, n));
  }

  lemma {:induction false} Releasing<D>(r: Run<D>, a: Addr, n: NodeId, p: Page, j: nat, k: nat)
    requires IsRun(r) && j < k < |r.states| && r.steps[j] == InRestore(a, n, p)
    requires forall i :: j < i < k ==> r.steps[i] != InRelease(n)
    ensures n in r.states[k].releasing
  {
    hide Next, Init, Apply;
    var _ := r.steps[k - 1];
    ListsChange(r.states[k - 1], r.steps[k - 1], r.states[k]);
    if k > j + 1 { Releasing(r, a, n, p, j, k - 1); }
  }

  // ---------------------------------------------------------------- events and labels

  lemma EventsStep<D>(s: State<D>, l: Step<D>, t: State<D>, p: Page)
    requires Next(s, l, t)
    ensures t.events[p] + (if l == FreePage(p) then 1 else 0) ==
            s.events[p] + if l.Unmap? && l.p == p then 1 else 0
  {
    hide Next, Apply;
    ListsChange(s, l, t);
    if l.FreePage? { EventThere(s, l, t); }
  }

  ghost function FreedBy<D>(steps: seq<Step<D>>, p: Page, k: nat): set<nat>
    requires k <= |steps|
  {
    set i: nat | i < k && steps[i] == FreePage(p)
  }

  ghost function GivenUpBy<D>(steps: seq<Step<D>>, p: Page, k: nat): set<nat>
    requires k <= |steps|
  {
    set i: nat | i < k && steps[i].Unmap? && steps[i].p == p
  }

  lemma FreedMore<D>(steps: seq<Step<D>>, p: Page, k: nat)
    requires k < |steps|
    ensures |FreedBy(steps, p, k + 1)| == |FreedBy(steps, p, k)| + if steps[k] == FreePage(p) then 1 else 0
  {
    assert FreedBy(steps, p, k + 1) == FreedBy(steps, p, k) + if steps[k] == FreePage(p) then {k} else {};
  }

  lemma GivenUpMore<D>(steps: seq<Step<D>>, p: Page, k: nat)
    requires k < |steps|
    ensures |GivenUpBy(steps, p, k + 1)| ==
            |GivenUpBy(steps, p, k)| + if steps[k].Unmap? && steps[k].p == p then 1 else 0
  {
    assert GivenUpBy(steps, p, k + 1) ==
           GivenUpBy(steps, p, k) + if steps[k].Unmap? && steps[k].p == p then {k} else {};
  }

  /** In every run: of the free events for a page there are as many to be handled as addresses were given up with it,
      less those that have been handled. */
  lemma {:induction false} EventsAddUp<D>(r: Run<D>, p: Page, k: nat)
    requires IsRun(r) && k < |r.states|
    ensures r.states[k].events[p] + |FreedBy(r.steps, p, k)| == |GivenUpBy(r.steps, p, k)|
    decreases k, 0
  {
    hide Next, Init, FreedBy, GivenUpBy;
    if k == 0 {
      NoEvents(r.states[0], r.steps, p);
    } else {
      EventsLater(r, p, k - 1);
    }
  }

  lemma NoEvents<D>(s: State<D>, steps: seq<Step<D>>, p: Page)
    requires Init(s)
    ensures s.events[p] == 0 && FreedBy(steps, p, 0) == {} && GivenUpBy(steps, p, 0) == {}
  {
  }

  lemma {:induction false} EventsLater<D>(r: Run<D>, p: Page, k: nat)
    requires IsRun(r) && k < |r.steps|
    ensures r.states[k + 1].events[p] + |FreedBy(r.steps, p, k + 1)| == |GivenUpBy(r.steps, p, k + 1)|
    decreases k, 1
  {
    hide Next, Init, FreedBy, GivenUpBy;
    EventsAddUp(r, p, k);
    EventsStep(r.states[k], r.steps[k], r.states[k + 1], p);
    FreedMore(r.steps, p, k);
    GivenUpMore(r.steps, p, k);
  }

  lemma EventThere<D>(s: State<D>, l: Step<D>, t: State<D>)
    requires Next(s, l, t) && l.FreePage?
    ensures l.p in s.events
  {
    hide AllocNext, OutNext, FaultNext, TakeNext, InNext, GiveBack;
  }

  /** The step labels page `p`. */
  predicate Labels<D>(l: Step<D>, p: Page) {
    (l.AllocLink? || l.InRestore? || l.FreePage?) && l.p == p
  }

  lemma LabelStep<D>(s: State<D>, l: Step<D>, t: State<D>, p: Page)
    requires Inv(s) && Next(s, l, t)
    ensures Labels(l, p) ==> p in t.owner && t.owner[p] == if l.FreePage? then Addr(0, 0) else l.a
    ensures !Labels(l, p) && p in s.owner ==> p in t.owner && t.owner[p] == s.owner[p]
  {
    hide Next, Inv, Apply;
    ListsChange(s, l, t);
    if l.InRestore? { RestoredFor(s, l, t); }
  }

  /** In every careful run: a page is labelled with the address it was last allocated or swapped in for, and with none
      once it has been given back. */
  lemma {:induction false} LabelLast<D>(r: Run<D>, p: Page, j: nat, k: nat)
    requires IsRun(r) && j < k < |r.states| && CarefulTo(r, k) && Labels(r.steps[j], p)
    requires forall i :: j < i < k ==> !Labels(r.steps[i], p)
    ensures p in r.states[k].owner
    ensures r.states[k].owner[p] == if r.steps[j].FreePage? then Addr(0, 0) else r.steps[j].a
  {
    hide Next, Init, Inv, Careful, OwnerAfter;
    var s, l, t := r.states[k - 1], r.steps[k - 1], r.states[k];
    RunInv(r, k - 1);
    LabelStep(s, l, t, p);
    if k > j + 1 { LabelLast(r, p, j, k - 1); }
  }

  lemma RestoredFor<D>(s: State<D>, l: Step<D>, t: State<D>)
    requires Inv(s) && Next(s, l, t) && l.InRestore?
    ensures l.n in s.nodes && s.nodes[l.n].addr == l.a
  {
    hide AllocNext, EvictNext, OutNext, FaultNext, TakeNext, PageOk, NodeOk, SlotOk, ListsOk, RestoreUsed;
    assert PhaseOk(s, l.a);
  }

  // ---------------------------------------------------------------- evictors

  /** The step is one of evictor `e`. */
  predicate By<D>(l: Step<D>, e: nat) {
    (l.EvictPick? || l.EvictHold? || l.EvictDead?) && l.e == e
  }

  /** At step `j` evictor `e` picks page `p`, the first used one, and up to state `k` it does nothing more. */
  ghost predicate PicksAt<D>(r: Run<D>, e: nat, p: Page, j: nat, k: nat)
    requires k < |r.states| == |r.steps| + 1
  {
    && j < k && r.steps[j] == EvictPick(e) && r.states[j].used != [] && r.states[j].used[0] == p
    && forall i :: j < i < k ==> !By(r.steps[i], e)
  }

  lemma PicksStep<D>(s: State<D>, l: Step<D>, t: State<D>, e: nat)
    requires Next(s, l, t)
    ensures !By(l, e) ==> (e in t.picks <==> e in s.picks) && (e in s.picks ==> t.picks[e] == s.picks[e])
    ensures l == EvictPick(e) ==> e !in s.picks && s.used != [] && e in t.picks && t.picks[e] == s.used[0]
    ensures By(l, e) && !l.EvictPick? ==> e in s.picks && e !in t.picks
  {
    hide AllocNext, OutNext, FaultNext, TakeNext, InNext, Apply, Without, Settled;
    hide PickPage, StartSwapOut, ReclaimDead, UnmapPage, LeaveSlot, GiveBack;
    ListsChange(s, l, t);
  }

  lemma {:induction false} HasPicked<D>(r: Run<D>, e: nat, k: nat) returns (j: nat)
    requires IsRun(r) && k < |r.states| && e in r.states[k].picks
    ensures PicksAt(r, e, r.states[k].picks[e], j, k)
  {
    hide Next;
    if k == 0 {
      assert false;
    } else {
      var l := r.steps[k - 1];
      PicksStep(r.states[k - 1], l, r.states[k], e);
      if By(l, e) {
        j := k - 1;
      } else {
        j := HasPicked(r, e, k - 1);
      }
    }
  }

  /** In every run: what an evictor holds or reclaims is the page that stood first when it last picked one, and it has
      neither picked, held nor reclaimed any since. */
  lemma HoldsWhatItPicked<D>(r: Run<D>, e: nat, k: nat) returns (j: nat)
    requires IsRun(r) && k < |r.steps| && By(r.steps[k], e) && !r.steps[k].EvictPick?
    ensures e in r.states[k].picks && PicksAt(r, e, r.states[k].picks[e], j, k) && e !in r.states[k + 1].picks
  {
    hide Next, Init, PicksAt;
    PicksStep(r.states[k], r.steps[k], r.states[k + 1], e);
    j := HasPicked(r, e, k);
  }

  lemma {:induction false} PickStays<D>(r: Run<D>, e: nat, j: nat, k: nat)
    requires IsRun(r) && j < k < |r.states| && r.steps[j] == EvictPick(e)
    requires forall i :: j < i < k ==> !By(r.steps[i], e)
    ensures e in r.states[k].picks
  {
    hide Next, Init;
    var l := r.steps[k - 1];
    PicksStep(r.states[k - 1], l, r.states[k], e);
    if k > j + 1 { PickStays(r, e, j, k - 1); }
  }

  /** In every run: an evictor does not pick a second page before it has done with the first. */
  lemma PicksInTurn<D>(r: Run<D>, e: nat, j: nat, k: nat)
    requires IsRun(r) && j < k < |r.steps| && r.steps[j] == EvictPick(e) && r.steps[k] == EvictPick(e)
    ensures exists i :: j < i < k && By(r.steps[i], e)
  {
    hide Next, Init;
    if forall i :: j < i < k ==> !By(r.steps[i], e) {
      PickStays(r, e, j, k);
      PicksStep(r.states[k], r.steps[k], r.states[k + 1], e);
    }
  }

  // ---------------------------------------------------------------- the swap cache

  lemma CacheChanges<D>(s: State<D>, l: Step<D>, t: State<D>)
    requires Next(s, l, t)
    ensures t.cache == Apply(s.cache, CacheChange(l))
  {
    hide Next, Apply, CacheChange;
    ListsChange(s, l, t);
  }

  lemma {:induction false} NewerAhead<D>(r: Run<D>, n: NodeId, m: NodeId, j: nat, k: nat)
    requires IsRun(r) && j < k < |r.states| && r.steps[j] == OutCache(n) && m in r.states[j].cache && m != n
    requires forall i :: j < i < k ==> r.steps[i] != OutCommit(n) && r.steps[i] != OutCache(m)
    ensures Ahead(r.states[k].cache, n, m)
  {
    hide Next, Init, Ahead;
    var s, l, t := r.states[k - 1], r.steps[k - 1], r.states[k];
    CacheChanges(s, l, t);
    if k == j + 1 {
      FrontAhead(s.cache, n, m);
    } else {
      NewerAhead(r, n, m, j, k - 1);
      AheadKept(s.cache, CacheChange(l), n, m);
    }
  }

  lemma FrontAhead(q: seq<nat>, x: nat, y: nat)
    requires x != y
    ensures Ahead([x] + q, x, y)
  {
    assert ([x] + q)[0] == x;
  }

  /** In every run: of two swap-outs in the swap cache for one address, a fault finds the one that was put in last. */
  lemma NewestFound<D>(r: Run<D>, a: Addr, n: NodeId, m: NodeId, j: nat, k: nat)
    requires IsRun(r) && j < k < |r.states| && r.steps[j] == OutCache(n) && m in r.states[j].cache && m != n
    requires forall i :: j < i < k ==> r.steps[i] != OutCommit(n) && r.steps[i] != OutCache(m)
    requires n in r.states[k].nodes && r.states[k].nodes[n].addr == a
    ensures FindCached(r.states[k].cache, r.states[k].nodes, a) != [m]
  {
    hide Next, Init, Ahead;
    NewerAhead(r, n, m, j, k);
    AheadFound(r.states[k].cache, r.states[k].nodes, a, n, m);
  }

  lemma {:induction false} AheadFound(cache: seq<NodeId>, nodes: map<NodeId, ToSwap>, a: Addr, n: NodeId, m: NodeId)
    requires Ahead(cache, n, m) && n in nodes && nodes[n].addr == a
    ensures FindCached(cache, nodes, a) != [m]
  {
    if cache[0] != n {
      NotHead(cache, n, m);
      AheadTail(cache, n, m);
      AheadFound(cache[1..], nodes, a, n, m);
    }
  }

  // ---------------------------------------------------------------- exactly these steps

  /** The steps that take a used page off the list are exactly those of `TakesOff`, in every state. */
  lemma TakesOffExactly<D>(s: State<D>, l: Step<D>, t: State<D>, p: Page)
    requires Next(s, l, t) && p in s.used
    ensures TakesOff(s, l, p) <==> p !in t.used
  {
    hide AllocNext, OutNext, FaultNext, TakeNext, InNext;
    UsedChanges(s, l, t);
  }
}
