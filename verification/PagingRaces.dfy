/**
 Runs of `Paging` in which two threads get at one page or at the file position: what the code lets happen between
 picking a page and holding it, between reclaiming a page and handling its free event, between finding an entry in the
 swap cache and marking it, and between a seek and its transfer. And runs that retake a page from the swap cache, try a
 failed swap-in again, and map a page anew.
 */
module PagingRaces {
  import opened Paging
  import opened PagingRuns

  // ---------------------------------------------------------------- building runs

  ghost function Last<D>(r: Run<D>): State<D>
    requires |r.states| > 0
  {
    r.states[|r.states| - 1]
  }

  ghost function Then<D>(r: Run<D>, l: Step<D>, t: State<D>): Run<D> {
    Run(r.states + [t], r.steps + [l])
  }

  ghost predicate AllCareful<D>(r: Run<D>) {
    |r.steps| < |r.states| && CarefulTo(r, |r.steps|)
  }

  /** `q` goes on from where `r` ends, and carefully so if `r` is careful and `careful` holds. */
  ghost predicate GoesOn<D>(r: Run<D>, q: Run<D>, careful: bool) {
    && |r.states| > 0 && |q.states| > 0 && IsRun(q) && q.states[0] == r.states[0]
    && (AllCareful(r) && careful ==> AllCareful(q))
  }

  lemma Do<D>(r: Run<D>, l: Step<D>, t: State<D>) returns (q: Run<D>)
    requires |r.states| > 0 && IsRun(r) && Next(Last(r), l, t)
    ensures q == Then(r, l, t) && |q.states| == |r.states| + 1 && Last(q) == t
    ensures GoesOn(r, q, Careful(Last(r), l))
  {
    hide Careful, Next, Init;
    q := Then(r, l, t);
    if AllCareful(r) && Careful(Last(r), l) {
      forall i | 0 <= i < |q.steps| ensures Careful(q.states[i], q.steps[i])
      {
        if i < |r.steps| { assert Careful(r.states[i], r.steps[i]); }
      }
    }
  }

  lemma Begin<D>(s: State<D>) returns (r: Run<D>)
    requires Init(s)
    ensures |r.states| > 0 && IsRun(r) && r.states[0] == s && Last(r) == s && AllCareful(r)
  {
    r := Run([s], []);
  }

  /** Nobody is at work. */
  ghost predicate Quiet<D>(s: State<D>) {
    s.picks == map[] && s.hits == map[] && s.out == map[] && s.cache == [] && s.dying == {} && NoDup(s.free)
  }

  lemma InitQuiet<D>(s: State<D>)
    requires Init(s)
    ensures Quiet(s) && s.phase == map[] && s.used == [] && s.nodes == map[] && s.usedMemory == 0
    ensures forall i :: 0 <= i < |s.free| ==> s.free[i] in s.mem
    ensures forall i :: 0 <= i < |s.freeSlots| ==> s.freeSlots[i] in s.disk
    ensures NoDup(s.free) && NoDup(s.freeSlots)
  {
  }

  // ---------------------------------------------------------------- first allocation

  ghost function Allocated<D>(s: State<D>, a: Addr, p: Page): State<D>
    requires s.free != [] && p in s.mem
  {
    LinkPage(MapPage(TakePage(s, a), a, p), a, p)
  }

  /** What a first allocation of page `p` at `a` makes of `s`. */
  ghost predicate AllocatedAt<D>(s: State<D>, t: State<D>, a: Addr, p: Page) {
    && p in s.mem && s.free != [] && s.free[0] == p && t.free == s.free[1..] && p !in t.free && NoDup(t.free)
    && t.used == s.used + [p] && t.owner == s.owner[p := a] && t.usedMemory == s.usedMemory + PAGE_SIZE
    && t.pt == s.pt[a := Present(p)] && t.phase == s.phase[a := Resident(p)] && t.view == s.view[a := s.mem[p]]
    && t.mem == s.mem && t.disk == s.disk && t.zero == s.zero && t.picks == s.picks && t.hits == s.hits
    && t.dying == s.dying && t.events == s.events && t.freeSlots == s.freeSlots && t.holder == s.holder
    && t.nodes == s.nodes && t.out == s.out && t.cache == s.cache
  }

  lemma AllocatedFields<D>(s: State<D>, a: Addr, p: Page)
    requires s.free != [] && s.free[0] == p && p in s.mem && NoDup(s.free)
    ensures AllocatedAt(s, Allocated(s, a, p), a, p)
  {
    NoDupTail(s.free);
  }

  lemma Allocate<D>(r: Run<D>, a: Addr, p: Page) returns (q: Run<D>)
    requires |r.states| > 0 && IsRun(r)
    requires a !in Last(r).phase && p in Last(r).mem
    requires Last(r).free != [] && Last(r).free[0] == p && NoDup(Last(r).free)
    ensures GoesOn(r, q, true) && AllocatedAt(Last(r), Last(q), a, p)
    ensures |q.steps| > 1 && q.steps[|q.steps| - 2] == AllocMap(a, p) && q.steps[|q.steps| - 1] == AllocLink(a, p)
  {
    hide IsRun, Then, AllCareful, Next, NoDup, AllocatedAt, TakePage, MapPage, LinkPage;
    var s := Last(r);
    AllocEnabled(s, a, p);
    var s1 := TakePage(s, a);
    var s2 := MapPage(s1, a, p);
    var r1 := Do(r, AllocTake(a), s1);
    var r2 := Do(r1, AllocMap(a, p), s2);
    q := Do(r2, AllocLink(a, p), LinkPage(s2, a, p));
    AllocatedFields(s, a, p);
    Ends(r1, AllocMap(a, p), s2, AllocLink(a, p), LinkPage(s2, a, p));
  }

  lemma AllocEnabled<D>(s: State<D>, a: Addr, p: Page)
    requires a !in s.phase && s.free != [] && s.free[0] == p && p in s.mem
    ensures var t := TakePage(s, a);
            && Next(s, AllocTake(a), t) && p in t.mem && Next(t, AllocMap(a, p), MapPage(t, a, p))
            && Next(MapPage(t, a, p), AllocLink(a, p), LinkPage(MapPage(t, a, p), a, p))
  {
    hide EvictNext, OutNext, FaultNext, TakeNext, InNext;
  }

  lemma Ends<D>(r: Run<D>, l: Step<D>, t: State<D>, m: Step<D>, u: State<D>)
    ensures var q := Then(Then(r, l, t), m, u);
            |q.steps| > 1 && q.steps[|q.steps| - 2] == l && q.steps[|q.steps| - 1] == m
  {
  }

  lemma WriteAt<D>(r: Run<D>, a: Addr, p: Page, d: D) returns (q: Run<D>)
    requires |r.states| > 0 && IsRun(r) && a in Last(r).pt && Last(r).pt[a] == Present(p)
    ensures GoesOn(r, q, true) && Last(q) == WriteTo(Last(r), a, p, d) && q == Then(r, Write(a, d), Last(q))
  {
    hide IsRun, AllCareful, EvictNext, OutNext, FaultNext, TakeNext, InNext;
    q := Do(r, Write(a, d), WriteTo(Last(r), a, p, d));
  }

  // ---------------------------------------------------------------- swap-out

  /** Evictor `e` picks the first used page ... */
  lemma Pick<D>(r: Run<D>, e: nat) returns (q: Run<D>)
    requires |r.states| > 0 && IsRun(r) && Last(r).used != [] && e !in Last(r).picks
    ensures GoesOn(r, q, true) && Last(q) == PickPage(Last(r), e)
  {
    hide IsRun, Then, AllCareful, AllocNext, OutNext, FaultNext, TakeNext, InNext;
    q := Do(r, EvictPick(e), PickPage(Last(r), e));
  }

  /** ... and holds it. */
  lemma Hold<D>(r: Run<D>, e: nat, p: Page, n: NodeId) returns (q: Run<D>)
    requires |r.states| > 0 && IsRun(r)
    requires var s := Last(r);
             e in s.picks && s.picks[e] == p && p !in s.dying && p in s.owner && s.freeSlots != [] && n !in s.nodes
    ensures GoesOn(r, q, Settled(Last(r), Last(r).owner[p], p)) && Last(q) == StartSwapOut(Last(r), e, p, n)
  {
    hide IsRun, Then, AllCareful, AllocNext, OutNext, FaultNext, TakeNext, InNext, Without, Settled;
    q := Do(r, EvictHold(e, n), StartSwapOut(Last(r), e, p, n));
  }

  /** A page that is held is put into the swap cache and taken out of the page table, ... */
  lemma CacheAndClear<D>(r: Run<D>, n: NodeId) returns (q: Run<D>)
    requires |r.states| > 0 && IsRun(r) && AtOut(Last(r), n, Created)
    ensures GoesOn(r, q, true) && Last(q) == ClearPte(EnterCache(Last(r), n), n, Last(r).nodes[n])
  {
    hide IsRun, Then, AllCareful, AllocNext, EvictNext, FaultNext, TakeNext, InNext;
    var s := Last(r);
    var r1 := Do(r, OutCache(n), EnterCache(s, n));
    q := Do(r1, OutClear(n), ClearPte(EnterCache(s, n), n, s.nodes[n]));
  }

  /** ... written to its slot, ... */
  lemma SeekAndWrite<D>(r: Run<D>, n: NodeId) returns (q: Run<D>)
    requires |r.states| > 0 && IsRun(r) && AtOut(Last(r), n, Cleared) && Last(r).nodes[n].page in Last(r).mem
    ensures GoesOn(r, q, true)
    ensures Last(q) == WriteSlot(SeekOut(Last(r), n, Last(r).nodes[n]), n, Last(r).nodes[n])
  {
    hide IsRun, Then, AllCareful, AllocNext, EvictNext, FaultNext, TakeNext, InNext;
    var s := Last(r);
    var s1 := SeekOut(s, n, s.nodes[n]);
    var r1 := Do(r, OutSeek(n), s1);
    q := Do(r1, OutWrite(n), WriteSlot(s1, n, s.nodes[n]));
  }

  /** ... and freed. */
  lemma Commit<D>(r: Run<D>, n: NodeId) returns (q: Run<D>)
    requires |r.states| > 0 && IsRun(r) && AtOut(Last(r), n, Written) && !Last(r).nodes[n].retaken
    ensures GoesOn(r, q, true) && Last(q) == FinishSwapOut(Last(r), n, Last(r).nodes[n])
  {
    hide IsRun, Then, AllCareful, AllocNext, EvictNext, FaultNext, TakeNext, InNext, Without;
    q := Do(r, OutCommit(n), FinishSwapOut(Last(r), n, Last(r).nodes[n]));
  }

  /** Page `p` of `a` is the next to go, and can. */
  ghost predicate Evictable<D>(s: State<D>, a: Addr, p: Page) {
    && Quiet(s) && s.used != [] && s.used[0] == p && p in s.owner && s.owner[p] == a && In(s, a, Resident(p))
    && p in s.mem && p !in s.free && s.freeSlots != [] && s.freeSlots[0] in s.disk
  }

  /** Page `p` of `a` has been picked, held, put into the swap cache and taken out of the page table. */
  ghost predicate TakenOut<D>(s: State<D>, t: State<D>, a: Addr, p: Page, n: NodeId) {
    s.freeSlots != [] &&
    var k := s.freeSlots[0];
    && t.nodes == s.nodes[n := ToSwap(a, p, k, false)] && t.holder == s.holder[k := n]
    && t.freeSlots == s.freeSlots[1..]
    && t.pt == s.pt[a := Swapped(k)] && t.phase == s.phase[a := Leaving(n)] && t.used == Without(s.used, p)
    && t.out == map[n := Cleared] && t.cache == [n] && t.picks == map[] && t.hits == map[] && t.dying == {}
    && t.free == s.free && t.mem == s.mem && t.disk == s.disk && t.owner == s.owner && t.view == s.view
    && t.usedMemory == s.usedMemory && t.zero == s.zero
  }

  lemma TakenOutFields<D>(s: State<D>, a: Addr, p: Page, e: nat, n: NodeId)
    requires Evictable(s, a, p)
    ensures var v := ToSwap(a, p, s.freeSlots[0], false);
            TakenOut(s, ClearPte(EnterCache(StartSwapOut(PickPage(s, e), e, p, n), n), n, v), a, p, n)
  {
    hide Without, NoDup;
    WithoutSize(s.free, p);
  }

  lemma TakeOut<D>(r: Run<D>, a: Addr, p: Page, e: nat, n: NodeId) returns (q: Run<D>)
    requires |r.states| > 0 && IsRun(r) && Evictable(Last(r), a, p) && n !in Last(r).nodes
    ensures GoesOn(r, q, true) && TakenOut(Last(r), Last(q), a, p, n)
  {
    hide IsRun, AllCareful, Without, NoDup, TakenOut, Next;
    var r1 := Pick(r, e);
    var r2 := Hold(r1, e, p, n);
    q := CacheAndClear(r2, n);
    TakenOutFields(Last(r), a, p, e, n);
  }

  /** Page `p` of `a` is in the first free slot, and free. */
  ghost predicate SwappedOut<D>(s: State<D>, t: State<D>, a: Addr, p: Page, n: NodeId) {
    p in s.mem && s.freeSlots != [] &&
    var k := s.freeSlots[0];
    && t.nodes == s.nodes[n := ToSwap(a, p, k, false)] && t.holder == s.holder[k := n]
    && t.freeSlots == s.freeSlots[1..]
    && t.pt == s.pt[a := Swapped(k)] && t.phase == s.phase[a := Asleep(n)] && t.used == Without(s.used, p)
    && t.free == [p] + s.free && t.mem == s.mem && t.disk == s.disk[k := s.mem[p]] && t.owner == s.owner
    && t.view == s.view && t.usedMemory == s.usedMemory - PAGE_SIZE && t.zero == s.zero && Quiet(t)
  }

  lemma SwappedOutFields<D>(s: State<D>, u: State<D>, a: Addr, p: Page, n: NodeId)
    requires Evictable(s, a, p) && TakenOut(s, u, a, p, n)
    ensures var v := u.nodes[n]; SwappedOut(s, FinishSwapOut(WriteSlot(SeekOut(u, n, v), n, v), n, v), a, p, n)
  {
    NoDupEnds(s.free, p);
    assert Without([n], n) == [];
  }

  /** A swap-out from beginning to end, with nobody else in between. */
  lemma SwapOut<D>(r: Run<D>, a: Addr, p: Page, e: nat, n: NodeId) returns (q: Run<D>)
    requires |r.states| > 0 && IsRun(r) && Evictable(Last(r), a, p) && n !in Last(r).nodes
    ensures GoesOn(r, q, true) && SwappedOut(Last(r), Last(q), a, p, n)
  {
    hide IsRun, AllCareful, Without, NoDup, SwappedOut, Next;
    var r1 := TakeOut(r, a, p, e, n);
    var r2 := SeekAndWrite(r1, n);
    q := Commit(r2, n);
    SwappedOutFields(Last(r), Last(r1), a, p, n);
  }

  // ---------------------------------------------------------------- a page mapped anew

  lemma Start<D>(s: State<D>, a: Addr, d: D) returns (r: Run<D>)
    requires Init(s) && s.free != []
    ensures |r.states| > 0 && IsRun(r) && r.states[0] == s && AllCareful(r) && Started(s, Last(r), a, d)
  {
    hide IsRun, AllCareful, Init, Quiet, NoDup;
    InitQuiet(s);
    var r0 := Begin(s);
    var r1 := Allocate(r0, a, s.free[0]);
    r := WriteAt(r1, a, s.free[0], d);
    StartedFields(s, Last(r1), a, d);
  }

  /** The first free page is mapped at `a`, which nothing else is, and holds `d`. */
  ghost predicate Started<D>(s: State<D>, t: State<D>, a: Addr, d: D) {
    s.free != [] &&
    var p := s.free[0];
    && t.free == s.free[1..] && p !in t.free && p in s.mem && t.mem == s.mem[p := d] && t.disk == s.disk
    && t.used == [p] && p in t.owner && t.owner[p] == a && a in t.pt && t.pt[a] == Present(p)
    && t.phase == map[a := Resident(p)] && a in t.view && t.view[a] == d && t.usedMemory == PAGE_SIZE
    && t.zero == s.zero && t.freeSlots == s.freeSlots && t.nodes == map[] && Quiet(t)
  }

  lemma StartedFields<D>(s: State<D>, u: State<D>, a: Addr, d: D)
    requires Quiet(s) && s.phase == map[] && s.used == [] && s.nodes == map[] && s.usedMemory == 0 && s.free != []
    requires AllocatedAt(s, u, a, s.free[0])
    ensures Started(s, WriteTo(u, a, s.free[0], d), a, d)
  {
  }

  lemma StartedEvictable<D>(s: State<D>, t: State<D>, a: Addr, d: D)
    requires Init(s) && s.freeSlots != [] && Started(s, t, a, d)
    ensures Evictable(t, a, s.free[0])
  {
    assert s.freeSlots[0] in s.freeSlots;
  }

  /** From every start with a page and a slot, in a careful run: what one process wrote is what the next one finds at an
      address that has just been mapped for it. */
  lemma ShownAnew<D>(s: State<D>, a: Addr, b: Addr, d: D, e: nat, n: NodeId) returns (r: Run<D>)
    requires Init(s) && s.free != [] && s.freeSlots != [] && a != b
    ensures |r.states| > 0 && IsRun(r) && r.states[0] == s && AllCareful(r)
    ensures |r.steps| > 1 && r.steps[|r.steps| - 2] == AllocMap(b, s.free[0])
    ensures var t := Last(r); b in t.pt && t.pt[b] == Present(s.free[0]) && s.free[0] in t.mem && t.mem[s.free[0]] == d
  {
    hide IsRun, AllCareful, Init, NoDup, Without;
    var p := s.free[0];
    var r1 := Start(s, a, d);
    StartedEvictable(s, Last(r1), a, d);
    var r2 := SwapOut(r1, a, p, e, n);
    r := Allocate(r2, b, p);
  }

  // ---------------------------------------------------------------- a page evicted twice

  /** A node whose swap-out has just begun. */
  ghost predicate Ready<D>(s: State<D>, n: NodeId, p: Page) {
    AtOut(s, n, Created) && !s.nodes[n].retaken && s.nodes[n].page == p && p in s.mem
  }

  /** Evictors `e` and `f` both pick page `p` ... */
  lemma PickTwice<D>(r: Run<D>, p: Page, e: nat, f: nat) returns (q: Run<D>)
    requires |r.states| > 0 && IsRun(r) && e != f
    requires Last(r).used != [] && Last(r).used[0] == p && e !in Last(r).picks && f !in Last(r).picks
    ensures GoesOn(r, q, true) && Last(q) == Last(r).(picks := Last(r).picks[e := p][f := p])
  {
    hide IsRun, AllCareful, Next;
    var r1 := Pick(r, e);
    q := Pick(r1, f);
  }

  /** ... and then both hold it. */
  lemma HoldTwice<D>(r: Run<D>, p: Page, e: nat, f: nat, m: NodeId, n: NodeId) returns (q: Run<D>)
    requires |r.states| > 0 && IsRun(r) && e != f && m != n
    requires var s := Last(r);
             && e in s.picks && s.picks[e] == p && f in s.picks && s.picks[f] == p
             && p in s.owner && p !in s.dying && |s.freeSlots| >= 2 && p in s.mem
             && m !in s.nodes && n !in s.nodes && p !in s.free && NoDup(s.free)
    ensures GoesOn(r, q, false) && Ready(Last(q), m, p) && Ready(Last(q), n, p)
    ensures Last(q).free == Last(r).free && Last(q).usedMemory == Last(r).usedMemory
  {
    hide IsRun, AllCareful, Next, Without, NoDup, Settled, StartSwapOut, Ready;
    var r1 := Hold(r, e, p, m);
    HeldFields(Last(r), p, e, m);
    q := Hold(r1, f, p, n);
    HeldFields(Last(r1), p, f, n);
  }

  lemma HeldFields<D>(s: State<D>, p: Page, e: nat, m: NodeId)
    requires p in s.owner && s.freeSlots != [] && p in s.mem && m !in s.nodes && p !in s.free && NoDup(s.free)
    ensures var t := StartSwapOut(s, e, p, m);
            && Ready(t, m, p) && (forall n :: n != m && Ready(s, n, p) ==> Ready(t, n, p))
            && t.free == s.free && t.usedMemory == s.usedMemory && t.owner == s.owner && t.dying == s.dying
            && t.mem == s.mem && t.freeSlots == s.freeSlots[1..] && t.picks == s.picks - {e}
            && t.nodes.Keys == s.nodes.Keys + {m}
  {
    hide Without, NoDup;
    WithoutSize(s.free, p);
  }

  /** A swap-out that has begun goes on to its end, whatever becomes of another one for the same page. */
  lemma Through<D>(r: Run<D>, n: NodeId, p: Page, m: NodeId) returns (q: Run<D>)
    requires |r.states| > 0 && IsRun(r) && Ready(Last(r), n, p) && m != n
    ensures GoesOn(r, q, true)
    ensures Last(q).free == [p] + Last(r).free && Last(q).usedMemory == Last(r).usedMemory - PAGE_SIZE
    ensures Ready(Last(r), m, p) ==> Ready(Last(q), m, p)
  {
    hide IsRun, AllCareful, Next, Without;
    var r1 := CacheAndClear(r, n);
    var r2 := SeekAndWrite(r1, n);
    q := Commit(r2, n);
  }

  /** From every start with a page and two slots: two evictors that pick the page before either holds it put it on the
      free list twice, and `usedMemory` is a page too low. */
  lemma EvictedTwice<D>(s: State<D>, a: Addr, d: D, e: nat, f: nat, m: NodeId, n: NodeId) returns (r: Run<D>)
    requires Init(s) && s.free != [] && |s.freeSlots| >= 2 && e != f && m != n
    ensures |r.states| > 0 && IsRun(r) && r.states[0] == s
    ensures Last(r).free == [s.free[0]] + s.free && Last(r).usedMemory == 0 - PAGE_SIZE
  {
    hide IsRun, Init, Next, Ready, NoDup, AllCareful;
    var p := s.free[0];
    var r1 := Start(s, a, d);
    var r2 := PickTwice(r1, p, e, f);
    var r3 := HoldTwice(r2, p, e, f, m, n);
    var r4 := Through(r3, m, p, n);
    r := Through(r4, n, p, m);
    assert [p] + s.free[1..] == s.free;
  }

  // ---------------------------------------------------------------- a page freed after it was reclaimed

  lemma GiveUp<D>(r: Run<D>, a: Addr, p: Page) returns (q: Run<D>)
    requires |r.states| > 0 && IsRun(r) && Settled(Last(r), a, p)
    ensures GoesOn(r, q, true) && Last(q) == UnmapPage(Last(r), a, p)
  {
    hide IsRun, Then, AllCareful, AllocNext, OutNext, FaultNext, TakeNext, InNext, Settled;
    q := Do(r, Unmap(a, p), UnmapPage(Last(r), a, p));
  }

  lemma ReclaimPicked<D>(r: Run<D>, p: Page, e: nat) returns (q: Run<D>)
    requires |r.states| > 0 && IsRun(r) && e in Last(r).picks && Last(r).picks[e] == p && p in Last(r).dying
    ensures GoesOn(r, q, true) && Last(q) == ReclaimDead(Last(r), e, p)
  {
    hide IsRun, Then, AllCareful, AllocNext, OutNext, FaultNext, TakeNext, InNext, Without;
    q := Do(r, EvictDead(e), ReclaimDead(Last(r), e, p));
  }

  /** The only address in use is given up, and an evictor that has picked its page reclaims it. */
  lemma Reclaim<D>(r: Run<D>, a: Addr, p: Page, e: nat) returns (q: Run<D>)
    requires |r.states| > 0 && IsRun(r)
    requires var s := Last(r);
             && s.used == [p] && s.phase == map[a := Resident(p)] && s.out == map[] && e !in s.picks
             && p !in s.free && NoDup(s.free)
    ensures GoesOn(r, q, true)
    ensures var s, t := Last(r), Last(q);
            && t.phase == map[] && t.free == [p] + s.free && t.mem == s.mem && t.zero == s.zero
            && t.usedMemory == s.usedMemory - PAGE_SIZE && p in t.events
  {
    hide IsRun, Next, AllCareful, Without, NoDup;
    WithoutSize(Last(r).free, p);
    var r1 := GiveUp(r, a, p);
    var r2 := Pick(r1, e);
    q := ReclaimPicked(r2, p, e);
  }

  /** A process writes to its page, and the event for an earlier use of the page is handled. */
  lemma WriteAndFree<D>(r: Run<D>, b: Addr, p: Page, d: D) returns (q: Run<D>)
    requires |r.states| > 0 && IsRun(r) && b in Last(r).pt && Last(r).pt[b] == Present(p) && p in Last(r).events
    ensures GoesOn(r, q, false)
    ensures |q.states| == |q.steps| + 1 && |q.steps| == |r.steps| + 2 && q.steps[|r.steps|] == Write(b, d)
    ensures Mapped(q, b, |r.steps| + 1, |q.steps|) && NotWritten(q, b, |r.steps| + 1, |q.steps|)
    ensures var s, t := Last(r), Last(q);
            && b in t.pt && t.pt[b] == Present(p) && p in t.mem && t.mem[p] == s.zero && p in t.free
            && t.usedMemory == s.usedMemory - PAGE_SIZE
  {
    hide AllCareful, Next, Init, WriteTo, GiveBack;
    var r1 := WriteAt(r, b, p, d);
    LateFields(Last(r), b, p, d);
    q := HandleEvent(r1, p);
  }

  lemma LateFields<D>(s: State<D>, b: Addr, p: Page, d: D)
    requires b in s.pt && s.pt[b] == Present(p) && p in s.events
    ensures var t, u := WriteTo(s, b, p, d), GiveBack(WriteTo(s, b, p, d), p);
            && p in t.events && b in t.pt && b in u.pt && u.pt[b] == Present(p) && p in u.mem && u.mem[p] == s.zero
            && p in u.free && u.usedMemory == s.usedMemory - PAGE_SIZE
  {
    hide Without;
  }

  lemma HandleEvent<D>(r: Run<D>, p: Page) returns (q: Run<D>)
    requires |r.states| > 0 && IsRun(r) && p in Last(r).events
    ensures q == Then(r, FreePage(p), GiveBack(Last(r), p)) && GoesOn(r, q, p in Last(r).dying)
  {
    hide IsRun, AllCareful, AllocNext, OutNext, FaultNext, TakeNext, InNext, GiveBack;
    q := Do(r, FreePage(p), GiveBack(Last(r), p));
  }

  /** From every start with a page: a page that is reclaimed, and allocated again before the event for it is handled,
      is cleared under the process that has it now. That process reads something it has not written, the page is mapped
      and free at once, and `usedMemory` is 0 with the page in use. */
  lemma FreedLate<D>(s: State<D>, a: Addr, b: Addr, e: nat, d: D) returns (r: Run<D>, k: nat)
    requires Init(s) && s.free != []
    ensures |r.states| > 0 && IsRun(r) && r.states[0] == s
    ensures k < |r.steps| && r.steps[k] == Write(b, d)
    ensures Mapped(r, b, k + 1, |r.steps|) && NotWritten(r, b, k + 1, |r.steps|)
    ensures var t, p := Last(r), s.free[0];
            b in t.pt && t.pt[b] == Present(p) && p in t.mem && t.mem[p] == s.zero && p in t.free && t.usedMemory == 0
  {
    hide IsRun, Init, Next, Mapped, NotWritten, AllCareful, NoDup;
    var p := s.free[0];
    var r1 := Start(s, a, d);
    var r2 := Reclaim(r1, a, p, e);
    NoDupEnds(Last(r1).free, p);
    var r3 := Allocate(r2, b, p);
    k := |r3.steps|;
    r := WriteAndFree(r3, b, p, d);
  }

  // ---------------------------------------------------------------- a page retaken

  /** `a` faults and an entry for it is found in the swap cache, ... */
  lemma Hit<D>(r: Run<D>, a: Addr, n: NodeId) returns (q: Run<D>)
    requires |r.states| > 0 && IsRun(r) && SwapFault(Last(r), a)
    requires Last(r).cache == [n] && n in Last(r).nodes && Last(r).nodes[n].addr == a
    ensures GoesOn(r, q, true) && Last(q) == HitCache(Last(r), a, n)
  {
    hide IsRun, Then, AllCareful, AllocNext, EvictNext, OutNext, TakeNext, InNext, SwapFault;
    var s := Last(r);
    assert FindCached(s.cache, s.nodes, a) == [n];
    q := Do(r, FaultHit(a), HitCache(s, a, n));
  }

  /** ... which is marked, and its page mapped again. */
  lemma MarkAndMap<D>(r: Run<D>, a: Addr, n: NodeId) returns (q: Run<D>)
    requires |r.states| > 0 && IsRun(r) && a in Last(r).hits && Last(r).hits[a] == n && n in Last(r).nodes
    ensures GoesOn(r, q, In(Last(r), a, Leaving(n)))
    ensures Last(q) == MapRetaken(Retake(Last(r), a, n), a, n, Last(r).nodes[n].page)
  {
    hide IsRun, Then, AllCareful, AllocNext, EvictNext, OutNext, TakeNext, InNext, FindCached;
    var s := Last(r);
    var r1 := Do(r, FaultRetake(a), Retake(s, a, n));
    q := Do(r1, RetakeMap(a, n, s.nodes[n].page), MapRetaken(Retake(s, a, n), a, n, s.nodes[n].page));
  }

  /** From every start with a page and a slot: a page can come to be retaken, in a careful run. */
  lemma RetakenRun<D>(s: State<D>, a: Addr, d: D, e: nat, n: NodeId) returns (r: Run<D>)
    requires Init(s) && s.free != [] && s.freeSlots != []
    ensures |r.states| > 0 && IsRun(r) && r.states[0] == s && AllCareful(r)
    ensures In(Last(r), a, Parked(n, s.free[0])) && Last(r).picks == map[]
  {
    hide IsRun, Init, Next, AllCareful, NoDup, Without;
    var r1 := Start(s, a, d);
    StartedEvictable(s, Last(r1), a, d);
    var r2 := TakeOut(r1, a, s.free[0], e, n);
    var r3 := Hit(r2, a, n);
    r := MarkAndMap(r3, a, n);
  }

  /** A page is written to its slot, and only then found in the swap cache; ... */
  lemma WriteThenHit<D>(r: Run<D>, a: Addr, n: NodeId) returns (q: Run<D>)
    requires |r.states| > 0 && IsRun(r) && AtOut(Last(r), n, Cleared) && SwapFault(Last(r), a)
    requires Last(r).cache == [n] && Last(r).nodes[n].addr == a && Last(r).nodes[n].page in Last(r).mem
    ensures GoesOn(r, q, true) && AtOut(Last(q), n, Written) && a in Last(q).hits && Last(q).hits[a] == n
    ensures var s, t := Last(r), Last(q); t.nodes == s.nodes && t.free == s.free && t.mem == s.mem && t.phase == s.phase
  {
    hide IsRun, Next, AllCareful;
    var r1 := SeekAndWrite(r, n);
    q := Hit(r1, a, n);
  }

  /** ... its swap-out ends, and only then it is marked. */
  lemma CommitThenMark<D>(r: Run<D>, a: Addr, n: NodeId) returns (q: Run<D>)
    requires |r.states| > 0 && IsRun(r) && AtOut(Last(r), n, Written) && !Last(r).nodes[n].retaken
    requires Last(r).nodes[n].addr == a && a in Last(r).hits && Last(r).hits[a] == n
    ensures GoesOn(r, q, false)
    ensures var s, t, p := Last(r), Last(q), Last(r).nodes[n].page;
            && a in t.pt && t.pt[a] == Present(p) && t.free == [p] + s.free && t.mem == s.mem
            && t.phase == s.phase[a := Parked(n, p)]
  {
    hide IsRun, Next, AllCareful, FinishSwapOut, Retake, MapRetaken;
    CommitThenMarkFields(Last(r), a, n, Last(r).nodes[n]);
    var r1 := Commit(r, n);
    q := MarkAndMap(r1, a, n);
  }

  lemma CommitThenMarkFields<D>(s: State<D>, a: Addr, n: NodeId, v: ToSwap)
    requires n in s.nodes && s.nodes[n] == v && v.addr == a
    ensures var u := FinishSwapOut(s, n, v);
            && u.hits == s.hits && u.nodes == s.nodes
            && var t := MapRetaken(Retake(u, a, n), a, n, v.page);
               && a in t.pt && t.pt[a] == Present(v.page) && t.free == [v.page] + s.free && t.mem == s.mem
               && t.phase == s.phase[a := Parked(n, v.page)]
  {
    hide Without;
  }

  /** From every start with a page and a slot: an entry that is found in the swap cache and marked after its swap-out
      has ended gives the address back a page that is free; the next allocation maps it at another address too. */
  lemma MarkedLate<D>(s: State<D>, a: Addr, b: Addr, d: D, e: nat, n: NodeId) returns (r: Run<D>)
    requires Init(s) && s.free != [] && s.freeSlots != [] && a != b
    ensures |r.states| > 0 && IsRun(r) && r.states[0] == s
    ensures var t, p := Last(r), s.free[0]; a in t.pt && t.pt[a] == Present(p) && b in t.pt && t.pt[b] == Present(p)
  {
    hide IsRun, Init, Next, AllCareful, NoDup, Without;
    var p := s.free[0];
    var r1 := Start(s, a, d);
    StartedEvictable(s, Last(r1), a, d);
    var r2 := TakeOut(r1, a, p, e, n);
    var r3 := WriteThenHit(r2, a, n);
    var r4 := CommitThenMark(r3, a, n);
    NoDupEnds(Last(r1).free, p);
    r := Allocate(r4, b, p);
  }

  // ---------------------------------------------------------------- crossed swap-ins

  /** Address `a` is asleep in slot `k`, under node `n`. */
  ghost predicate SleepsIn<D>(s: State<D>, a: Addr, n: NodeId, k: Slot) {
    && In(s, a, Asleep(n)) && a in s.pt && s.pt[a] == Swapped(k) && a !in s.hits
    && FindCached(s.cache, s.nodes, a) == []
    && k in s.holder && s.holder[k] == n && n in s.nodes && s.nodes[n].slot == k
  }

  /** `a` faults, its node is found and the file position set, ... */
  lemma Aim<D>(r: Run<D>, a: Addr, n: NodeId, k: Slot) returns (q: Run<D>)
    requires |r.states| > 0 && IsRun(r) && SleepsIn(Last(r), a, n, k)
    ensures GoesOn(r, q, true) && Last(q) == Last(r).(phase := Last(r).phase[a := Aimed(n)], pos := k)
  {
    hide IsRun, Then, AllCareful, AllocNext, EvictNext, OutNext, InNext, FindCached;
    var s := Last(r);
    var s1 := Turn(s, a, Found(n), s.pos);
    var r1 := Do(r, FaultSwapIn(a), s1);
    q := Do(r1, InSeek(a, n), Turn(s1, a, Aimed(n), k));
    assert s1.phase[a := Aimed(n)] == s.phase[a := Aimed(n)];
  }

  /** ... a page taken, ... */
  lemma TakeOne<D>(r: Run<D>, a: Addr, n: NodeId) returns (q: Run<D>)
    requires |r.states| > 0 && IsRun(r) && In(Last(r), a, Aimed(n)) && Last(r).free != []
    ensures GoesOn(r, q, true) && Last(q) == TakeForRead(Last(r), a, n)
  {
    hide IsRun, Then, AllCareful, AllocNext, EvictNext, OutNext, FaultNext, InNext;
    q := Do(r, InTake(a, n), TakeForRead(Last(r), a, n));
  }

  /** ... read into and mapped. */
  lemma ReadAndMap<D>(r: Run<D>, a: Addr, n: NodeId, p: Page) returns (q: Run<D>)
    requires |r.states| > 0 && IsRun(r) && In(Last(r), a, Fetching(n, p)) && n in Last(r).nodes
    requires Last(r).pos in Last(r).disk
    ensures GoesOn(r, q, ReadsWell(Last(r), n)) && Last(q) == MapLoaded(ReadSlot(Last(r), a, n, p), a, n, p)
  {
    hide IsRun, Then, AllCareful, AllocNext, EvictNext, OutNext, FaultNext, TakeNext, ReadsWell;
    var s1 := ReadSlot(Last(r), a, n, p);
    var r1 := Do(r, InRead(a, n, p), s1);
    q := Do(r1, InMap(a, n, p), MapLoaded(s1, a, n, p));
  }

  /** Addresses `a` and `b` are asleep, with `d` and `x` in their slots. */
  ghost predicate BothAsleep<D>(t: State<D>, a: Addr, b: Addr, d: D, x: D, m: NodeId, n: NodeId, j: Slot, k: Slot) {
    && SleepsIn(t, a, m, j) && SleepsIn(t, b, n, k) && t.free != []
    && j in t.disk && t.disk[j] == d && k in t.disk && t.disk[k] == x && a in t.view && t.view[a] == d
  }

  /** The page of `a` is swapped out and used for `b`: what there is then. */
  ghost predicate Reused<D>(s: State<D>, t: State<D>, a: Addr, b: Addr, d: D, x: D, m: NodeId) {
    |s.freeSlots| >= 2 && s.free != [] &&
    var p, j := s.free[0], s.freeSlots[0];
    && Evictable(t, b, p) && t.freeSlots == s.freeSlots[1..] && t.free == s.free[1..] && p in t.mem && t.mem[p] == x
    && t.nodes == map[m := ToSwap(a, p, j, false)] && j in t.holder && t.holder[j] == m
    && a in t.pt && t.pt[a] == Swapped(j) && t.phase == map[a := Asleep(m), b := Resident(p)]
    && t.disk == s.disk[j := d] && a in t.view && t.view[a] == d
  }

  lemma ReusedFields<D>(s: State<D>, u: State<D>, v: State<D>, w: State<D>, a: Addr, b: Addr, d: D, x: D, m: NodeId)
    requires NoDup(s.free) && |s.freeSlots| >= 2 && a != b && s.freeSlots[0] in s.disk && s.freeSlots[1] in s.disk
    requires Started(s, u, a, d) && SwappedOut(u, v, a, s.free[0], m) && AllocatedAt(v, w, b, s.free[0])
    ensures Reused(s, WriteTo(w, b, s.free[0], x), a, b, d, x, m)
  {
    hide Evictable, Quiet, NoDup, Without;
    ReusedEvictable(s, u, v, w, a, b, d, x, m);
  }

  lemma ReusedEvictable<D>(s: State<D>, u: State<D>, v: State<D>, w: State<D>, a: Addr, b: Addr, d: D, x: D, m: NodeId)
    requires |s.freeSlots| >= 2 && s.freeSlots[1] in s.disk
    requires Started(s, u, a, d) && SwappedOut(u, v, a, s.free[0], m) && AllocatedAt(v, w, b, s.free[0])
    ensures Evictable(WriteTo(w, b, s.free[0], x), b, s.free[0])
  {
    assert Without([s.free[0]], s.free[0]) == [];
  }

  lemma Reuse<D>(s: State<D>, a: Addr, b: Addr, d: D, x: D, e: nat, m: NodeId) returns (r: Run<D>)
    requires Init(s) && s.free != [] && |s.freeSlots| >= 2 && a != b
    ensures |r.states| > 0 && IsRun(r) && r.states[0] == s && AllCareful(r) && Reused(s, Last(r), a, b, d, x, m)
  {
    hide IsRun, Init, Next, AllCareful, NoDup, Without, Quiet, Reused;
    InitQuiet(s);
    var p := s.free[0];
    var r1 := Start(s, a, d);
    StartedEvictable(s, Last(r1), a, d);
    var r2 := SwapOut(r1, a, p, e, m);
    QuietFree(Last(r2));
    var r3 := Allocate(r2, b, p);
    r := WriteAt(r3, b, p, x);
    ReusedFields(s, Last(r1), Last(r2), Last(r3), a, b, d, x, m);
  }

  lemma QuietFree<D>(s: State<D>)
    requires Quiet(s)
    ensures NoDup(s.free)
  {
  }

  lemma AsleepFields<D>(s: State<D>, u: State<D>, t: State<D>, a: Addr, b: Addr, d: D, x: D, m: NodeId, n: NodeId)
    requires Reused(s, u, a, b, d, x, m) && SwappedOut(u, t, b, s.free[0], n) && a != b && m != n && NoDup(s.freeSlots)
    ensures BothAsleep(t, a, b, d, x, m, n, s.freeSlots[0], s.freeSlots[1])
    ensures t.free == s.free
  {
  }

  /** Two addresses are written to and swapped out, carefully. */
  lemma SleepBoth<D>(s: State<D>, a: Addr, b: Addr, d: D, x: D, e: nat, m: NodeId, n: NodeId) returns (r: Run<D>)
    requires Init(s) && s.free != [] && |s.freeSlots| >= 2 && a != b && m != n
    ensures |r.states| > 0 && IsRun(r) && r.states[0] == s && AllCareful(r)
    ensures BothAsleep(Last(r), a, b, d, x, m, n, s.freeSlots[0], s.freeSlots[1])
  {
    hide IsRun, Init, Next, AllCareful, NoDup, Without, Evictable, BothAsleep;
    InitQuiet(s);
    var r1 := Reuse(s, a, b, d, x, e, m);
    r := SwapOut(r1, b, s.free[0], e, n);
    AsleepFields(s, Last(r1), Last(r), a, b, d, x, m, n);
  }

  /** From every start with a page and two slots: two swap-ins that set the file position one after the other before
      the first of them reads. The first process then finds what the second one wrote. */
  lemma CrossedReads<D>(s: State<D>, a: Addr, b: Addr, d: D, x: D, e: nat, m: NodeId, n: NodeId) returns (r: Run<D>)
    requires Init(s) && s.free != [] && |s.freeSlots| >= 2 && a != b && m != n
    ensures |r.states| > 0 && IsRun(r) && r.states[0] == s
    ensures var t := Last(r);
            && a in t.view && t.view[a] == d
            && a in t.pt && t.pt[a].Present? && t.pt[a].page in t.mem && t.mem[t.pt[a].page] == x
  {
    hide IsRun, Init, Next, AllCareful;
    var r1 := SleepBoth(s, a, b, d, x, e, m, n);
    var r2 := Aim(r1, a, m, s.freeSlots[0]);
    var r3 := Aim(r2, b, n, s.freeSlots[1]);
    var r4 := TakeOne(r3, a, m);
    r := ReadAndMap(r4, a, m, Last(r3).free[0]);
  }

  // ---------------------------------------------------------------- a swap-in that crosses a swap-out

  lemma SeekOnly<D>(r: Run<D>, n: NodeId) returns (q: Run<D>)
    requires |r.states| > 0 && IsRun(r) && AtOut(Last(r), n, Cleared)
    ensures GoesOn(r, q, true) && Last(q) == SeekOut(Last(r), n, Last(r).nodes[n])
  {
    hide IsRun, Then, AllCareful, AllocNext, EvictNext, FaultNext, TakeNext, InNext;
    q := Do(r, OutSeek(n), SeekOut(Last(r), n, Last(r).nodes[n]));
  }

  lemma WriteOnly<D>(r: Run<D>, n: NodeId) returns (q: Run<D>)
    requires |r.states| > 0 && IsRun(r) && AtOut(Last(r), n, Sought) && Last(r).nodes[n].page in Last(r).mem
    ensures GoesOn(r, q, false) && Last(q) == WriteSlot(Last(r), n, Last(r).nodes[n])
  {
    hide IsRun, Then, AllCareful, AllocNext, EvictNext, FaultNext, TakeNext, InNext;
    q := Do(r, OutWrite(n), WriteSlot(Last(r), n, Last(r).nodes[n]));
  }

  lemma LeavesWhileAsleep<D>(s: State<D>, u: State<D>, v: State<D>, a: Addr, b: Addr, d: D, x: D, m: NodeId, n: NodeId)
    requires Reused(s, u, a, b, d, x, m) && TakenOut(u, v, b, s.free[0], n) && a != b && m != n
    requires NoDup(s.freeSlots)
    ensures var t := SeekOut(v, n, v.nodes[n]); SleepsIn(t, a, m, s.freeSlots[0]) && AtOut(t, n, Sought)
    ensures AtOut(v, n, Cleared) && v.nodes[n].page in v.mem
  {
  }

  /** What the write of `b` does when the position is that of `a`. */
  lemma CrossedFields<D>(s: State<D>, u: State<D>, v: State<D>, a: Addr, b: Addr, d: D, x: D, m: NodeId, n: NodeId)
    requires Reused(s, u, a, b, d, x, m) && TakenOut(u, v, b, s.free[0], n) && a != b && m != n
    requires NoDup(s.freeSlots) && s.freeSlots[1] in s.disk
    ensures var j, k, v' := s.freeSlots[0], s.freeSlots[1], SeekOut(v, n, v.nodes[n]);
            var t := WriteSlot(v'.(phase := v'.phase[a := Aimed(m)], pos := j), n, v.nodes[n]);
            && a in t.view && t.view[a] == d && Needs(t, a, j) && j in t.disk && t.disk[j] == x
            && AtOut(t, n, Written) && t.nodes[n].slot == k && k in t.disk && t.disk[k] == s.disk[k]
  {
  }

  /** From every start with a page and two slots: a swap-in that sets the file position between the seek and the write
      of a swap-out. The page goes into the slot of the other address, whose contents are lost; its own slot is left as
      it was. */
  lemma CrossedWrite<D>(s: State<D>, a: Addr, b: Addr, d: D, x: D, e: nat, m: NodeId, n: NodeId) returns (r: Run<D>)
    requires Init(s) && s.free != [] && |s.freeSlots| >= 2 && a != b && m != n
    ensures |r.states| > 0 && IsRun(r) && r.states[0] == s
    ensures var t, j, k := Last(r), s.freeSlots[0], s.freeSlots[1];
            && a in t.view && t.view[a] == d && Needs(t, a, j) && j in t.disk && t.disk[j] == x
            && AtOut(t, n, Written) && t.nodes[n].slot == k && k in t.disk && k in s.disk && t.disk[k] == s.disk[k]
  {
    hide IsRun, Init, Next, AllCareful, NoDup, Without, SleepsIn, Evictable, Needs, WriteSlot;
    InitQuiet(s);
    var r1 := Reuse(s, a, b, d, x, e, m);
    var r2 := TakeOut(r1, b, s.free[0], e, n);
    LeavesWhileAsleep(s, Last(r1), Last(r2), a, b, d, x, m, n);
    CrossedFields(s, Last(r1), Last(r2), a, b, d, x, m, n);
    var r3 := SeekOnly(r2, n);
    var r4 := Aim(r3, a, m, s.freeSlots[0]);
    r := WriteOnly(r4, n);
  }

  // ---------------------------------------------------------------- a swap-in tried again as a first allocation

  lemma Refuse<D>(r: Run<D>, a: Addr, n: NodeId) returns (q: Run<D>)
    requires |r.states| > 0 && IsRun(r) && In(Last(r), a, Aimed(n)) && Last(r).free == []
    ensures GoesOn(r, q, true) && Last(q) == Turn(Last(r), a, Refused(n), Last(r).pos)
  {
    hide IsRun, Then, AllCareful, AllocNext, EvictNext, OutNext, FaultNext, InNext;
    q := Do(r, InRefuse(a, n), Turn(Last(r), a, Refused(n), Last(r).pos));
  }

  lemma Retry<D>(r: Run<D>, a: Addr, n: NodeId, p: Page) returns (q: Run<D>)
    requires |r.states| > 0 && IsRun(r) && In(Last(r), a, Refused(n))
    requires Last(r).free != [] && Last(r).free[0] == p && p in Last(r).mem
    ensures GoesOn(r, q, false) && Last(q) == MapPage(TakePage(Last(r), a), a, p)
    ensures |q.states| == |r.states| + 2 && q.states[|r.states|] == TakePage(Last(r), a)
  {
    hide IsRun, AllCareful, EvictNext, OutNext, FaultNext, InNext;
    var s1 := TakePage(Last(r), a);
    var r1 := Do(r, InRetry(a, n), s1);
    q := Do(r1, AllocMap(a, p), MapPage(s1, a, p));
  }

  lemma ReusedSleeps<D>(s: State<D>, t: State<D>, a: Addr, b: Addr, d: D, x: D, m: NodeId)
    requires Reused(s, t, a, b, d, x, m) && a != b
    ensures SleepsIn(t, a, m, s.freeSlots[0])
  {
  }

  lemma RefusedEvictable<D>(s: State<D>, u: State<D>, a: Addr, b: Addr, d: D, x: D, m: NodeId, pos: nat)
    requires Reused(s, u, a, b, d, x, m) && a != b
    ensures Evictable(u.(phase := u.phase[a := Refused(m)], pos := pos), b, s.free[0])
  {
  }

  /** From every start with one page and two slots: a swap-in that finds no free page is tried again as a first
      allocation once a page has been evicted. Up to then the process has last written `d`; what it finds is what
      another process wrote. */
  lemma RetriedAfresh<D>(s: State<D>, a: Addr, b: Addr, d: D, x: D, e: nat, m: NodeId, n: NodeId) returns (r: Run<D>)
    requires Init(s) && |s.free| == 1 && |s.freeSlots| >= 2 && a != b && m != n
    ensures |r.states| > 1 && IsRun(r) && r.states[0] == s
    ensures var t, u, p := r.states[|r.states| - 2], Last(r), s.free[0];
            && a in t.view && t.view[a] == d && a in t.pt && t.pt[a].Swapped?
            && a in u.pt && u.pt[a] == Present(p) && p in u.mem && u.mem[p] == x
  {
    hide IsRun, Init, Next, AllCareful, NoDup, Without, Evictable, SleepsIn;
    var p := s.free[0];
    var r1 := Reuse(s, a, b, d, x, e, m);
    var t1 := Last(r1);
    ReusedSleeps(s, t1, a, b, d, x, m);
    var r2 := Aim(r1, a, m, s.freeSlots[0]);
    var r3 := Refuse(r2, a, m);
    assert Last(r3) == t1.(phase := t1.phase[a := Refused(m)], pos := s.freeSlots[0]);
    RefusedEvictable(s, t1, a, b, d, x, m, s.freeSlots[0]);
    var r4 := SwapOut(r3, b, p, e, n);
    r := Retry(r4, a, m, p);
  }
}
