/**
 What was begun can go on: in every state `Paging` can be in, the conditions of its steps that stand for the pointers
 the code follows without a test hold.
 */
module PagingProgress {
  import opened Paging
  import opened PagingRuns

  /** A fault on a swapped address, asleep or being swapped out, can be served, from the swap cache or from its slot,
      whatever goes on at other addresses, as soon as no service of an earlier fault is under way there. */
  lemma FaultServed<D>(s: State<D>, a: Addr) returns (l: Step<D>, t: State<D>)
    requires Inv(s) && a in s.pt && s.pt[a].Swapped? && a !in s.hits
    requires a in s.phase && (s.phase[a].Asleep? || s.phase[a].Leaving?)
    ensures Next(s, l, t) && (l == FaultHit(a) || l == FaultSwapIn(a))
  {
    hide AllocNext, EvictNext, OutNext, TakeNext, InNext, Inv;
    var found := FindCached(s.cache, s.nodes, a);
    if found != [] {
      CacheFindsPage(s, a);
      l, t := FaultHit(a), HitCache(s, a, found[0]);
    } else {
      EntryFindsNode(s, a);
      l, t := FaultSwapIn(a), Turn(s, a, Found(s.holder[s.pt[a].slot]), s.pos);
    }
  }

  /** An entry found in the swap cache can be marked, and its page mapped again. */
  lemma HitGoesOn<D>(s: State<D>, a: Addr) returns (t: State<D>, u: State<D>)
    requires Inv(s) && a in s.hits
    ensures Next(s, FaultRetake(a), t) && a in t.phase && UnderWay(t.phase[a])
    ensures s.hits[a] in s.nodes && Next(t, RetakeMap(a, s.hits[a], s.nodes[s.hits[a]].page), u)
  {
    hide AllocNext, EvictNext, OutNext, TakeNext, InNext, Inv, FindCached;
    HitPage(s, a);
    t := Retake(s, a, s.hits[a]);
    u := MapRetaken(t, a, s.hits[a], s.nodes[s.hits[a]].page);
  }

  /** The allocation or fault service under way at an address. */
  predicate UnderWay(ph: Phase) {
    || ph.Allocating? || ph.Linking? || ph.Retaking? || ph.Found? || ph.Aimed? || ph.Fetching? || ph.Refused?
    || ph.Loaded? || ph.Remapped?
  }

  /** Steps it has left, at most: a swap-in that fails is tried once more, as a first allocation. */
  function StepsLeft(ph: Phase): nat {
    match ph
    case Allocating(_) => 2
    case Linking(_) => 1
    case Retaking(_, _) => 1
    case Found(_) => 6
    case Aimed(_) => 5
    case Fetching(_, _) => 4
    case Refused(_) => 3
    case Loaded(_, _) => 2
    case Remapped(_, _) => 1
    case _ => 0
  }

  /** It can take its next step, which leaves fewer. */
  lemma ServiceGoesOn<D>(s: State<D>, a: Addr) returns (l: Step<D>, t: State<D>)
    requires Inv(s) && a in s.phase && UnderWay(s.phase[a])
    ensures Next(s, l, t) && a in t.phase && StepsLeft(t.phase[a]) < StepsLeft(s.phase[a]) <= 6
  {
    hide Inv, AllocNext, EvictNext, OutNext, FaultNext, TakeNext, InNext;
    match s.phase[a]
    case Found(n) =>
      ServiceNode(s, a);
      l, t := FoundGoesOn(s, a, n);
    case Aimed(n) => l, t := AimedGoesOn(s, a, n);
    case Refused(n) => l, t := RefusedGoesOn(s, a, n);
    case Fetching(n, p) =>
      ServiceNode(s, a);
      l, t := FetchingGoesOn(s, a, n, p);
    case Loaded(n, p) =>
      ServiceNode(s, a);
      l, t := LoadedGoesOn(s, a, n, p);
    case Remapped(n, p) =>
      ServiceNode(s, a);
      l, t := LoadedGoesOn(s, a, n, p);
    case _ => l, t := MappingGoesOn(s, a);
  }

  lemma ServiceNode<D>(s: State<D>, a: Addr)
    requires Inv(s) && a in s.phase
    requires var ph := s.phase[a]; Sleeping(ph) || ph.Fetching? || ph.Loaded? || ph.Remapped?
    ensures s.phase[a].node in s.nodes
  {
    assert PhaseOk(s, a);
  }

  lemma FoundGoesOn<D>(s: State<D>, a: Addr, n: NodeId) returns (l: Step<D>, t: State<D>)
    requires In(s, a, Found(n)) && n in s.nodes
    ensures TakeNext(s, l, t) && a in t.phase && StepsLeft(t.phase[a]) < StepsLeft(s.phase[a])
  {
    l, t := InSeek(a, n), Turn(s, a, Aimed(n), s.nodes[n].slot);
  }

  lemma AimedGoesOn<D>(s: State<D>, a: Addr, n: NodeId) returns (l: Step<D>, t: State<D>)
    requires In(s, a, Aimed(n))
    ensures TakeNext(s, l, t) && a in t.phase && StepsLeft(t.phase[a]) < StepsLeft(s.phase[a])
  {
    if s.free != [] {
      l, t := InTake(a, n), TakeForRead(s, a, n);
    } else {
      l, t := InRefuse(a, n), Turn(s, a, Refused(n), s.pos);
    }
  }

  lemma RefusedGoesOn<D>(s: State<D>, a: Addr, n: NodeId) returns (l: Step<D>, t: State<D>)
    requires In(s, a, Refused(n))
    ensures TakeNext(s, l, t) && a in t.phase && StepsLeft(t.phase[a]) < StepsLeft(s.phase[a])
  {
    if s.free != [] {
      l, t := InRetry(a, n), TakePage(s, a);
    } else {
      l, t := InGiveUp(a, n), Turn(s, a, Asleep(n), s.pos);
    }
  }

  lemma FetchingGoesOn<D>(s: State<D>, a: Addr, n: NodeId, p: Page) returns (l: Step<D>, t: State<D>)
    requires In(s, a, Fetching(n, p)) && n in s.nodes
    ensures InNext(s, l, t) && a in t.phase && StepsLeft(t.phase[a]) < StepsLeft(s.phase[a])
  {
    if s.pos in s.disk {
      l, t := InRead(a, n, p), ReadSlot(s, a, n, p);
    } else {
      l, t := InFail(a, n, p), FailRead(s, a, n, p);
    }
  }

  lemma LoadedGoesOn<D>(s: State<D>, a: Addr, n: NodeId, p: Page) returns (l: Step<D>, t: State<D>)
    requires (In(s, a, Loaded(n, p)) || In(s, a, Remapped(n, p))) && n in s.nodes
    ensures InNext(s, l, t) && a in t.phase && StepsLeft(t.phase[a]) < StepsLeft(s.phase[a])
  {
    if s.phase[a].Loaded? {
      l, t := InMap(a, n, p), MapLoaded(s, a, n, p);
    } else {
      l, t := InRestore(a, n, p), RestoreUsed(s, a, n, p);
    }
  }

  lemma MappingGoesOn<D>(s: State<D>, a: Addr) returns (l: Step<D>, t: State<D>)
    requires Inv(s) && a in s.phase && (s.phase[a].Allocating? || s.phase[a].Linking? || s.phase[a].Retaking?)
    ensures AllocNext(s, l, t) || FaultNext(s, l, t)
    ensures a in t.phase && StepsLeft(t.phase[a]) < StepsLeft(s.phase[a])
  {
    hide PageOk, SlotOk, NodeOk, ListsOk;
    assert PhaseOk(s, a);
    match s.phase[a]
    case Allocating(p) => l, t := AllocMap(a, p), MapPage(s, a, p);
    case Linking(p) => l, t := AllocLink(a, p), LinkPage(s, a, p);
    case Retaking(n, p) => l, t := RetakeMap(a, n, p), MapRetaken(s, a, n, p);
  }

  /** A swap-out can take its next step, and one that has written its slot can end. */
  lemma SwapOutGoesOn<D>(s: State<D>, n: NodeId) returns (l: Step<D>, t: State<D>)
    requires Inv(s) && n in s.out
    ensures n in s.nodes && Next(s, l, t)
    ensures match s.out[n]
            case Created => n in t.out && t.out[n] == Cached
            case Cached => n in t.out && t.out[n] == Cleared
            case Cleared => n in t.out && t.out[n] == Sought && t.pos == s.nodes[n].slot
            case Sought => n in t.out && t.out[n] == Written
            case Written => n !in t.out
  {
    hide AllocNext, EvictNext, OutNext, FaultNext, TakeNext, InNext, PhaseOk, PageOk, SlotOk;
    hide EnterCache, ClearPte, SeekOut, WriteSlot, FinishSwapOut, AbandonSwapOut;
    assert n in s.nodes && NodeOk(s, n);
    var v := s.nodes[n];
    SwapOutEnabled(s, n, v);
    match s.out[n]
    case Created =>
      CacheFields(s, n, v);
      l, t := OutCache(n), EnterCache(s, n);
    case Cached =>
      CacheFields(s, n, v);
      l, t := OutClear(n), ClearPte(s, n, v);
    case Cleared =>
      SeekFields(s, n, v);
      l, t := OutSeek(n), SeekOut(s, n, v);
    case Sought =>
      WriteFields(s, n, v);
      l, t := OutWrite(n), WriteSlot(s, n, v);
    case Written =>
      CommitFields(s, n, v);
      l, t := OutCommit(n), if v.retaken then AbandonSwapOut(s, n, v) else FinishSwapOut(s, n, v);
  }

  lemma SwapOutEnabled<D>(s: State<D>, n: NodeId, v: ToSwap)
    requires n in s.nodes && s.nodes[n] == v && v.page in s.mem
    ensures AtOut(s, n, Created) ==> OutNext(s, OutCache(n), EnterCache(s, n))
    ensures AtOut(s, n, Cached) ==> OutNext(s, OutClear(n), ClearPte(s, n, v))
    ensures AtOut(s, n, Cleared) ==> OutNext(s, OutSeek(n), SeekOut(s, n, v))
    ensures AtOut(s, n, Sought) ==> OutNext(s, OutWrite(n), WriteSlot(s, n, v))
    ensures AtOut(s, n, Written) && v.retaken ==> OutNext(s, OutCommit(n), AbandonSwapOut(s, n, v))
    ensures AtOut(s, n, Written) && !v.retaken ==> OutNext(s, OutCommit(n), FinishSwapOut(s, n, v))
  {
    hide EnterCache, ClearPte, SeekOut, WriteSlot, AbandonSwapOut, FinishSwapOut;
  }

  lemma UsedHead<D>(s: State<D>)
    requires Inv(s) && s.used != []
    ensures s.used[0] !in s.dying ==> s.used[0] in s.owner && Settled(s, s.owner[s.used[0]], s.used[0])
  {
    var p := s.used[0];
    assert p in s.used;
    assert PageOk(s, p);
    if p !in s.dying {
      var a := s.place[p].addr;
      assert PhaseOk(s, a);
      forall n | n in s.out && n in s.nodes ensures s.nodes[n].addr != a { assert NodeOk(s, n); }
    }
  }

  /** With a used page and a free slot an eviction can begin, or a dead page be reclaimed: the page that is picked can
      be held or reclaimed, carefully, if nobody gets in between. */
  lemma EvictionStarts<D>(s: State<D>, e: nat, n: NodeId) returns (l: Step<D>, t: State<D>, u: State<D>)
    requires Inv(s) && s.used != [] && s.freeSlots != [] && e !in s.picks && n !in s.nodes
    ensures Next(s, EvictPick(e), t) && Next(t, l, u) && Careful(t, l) && (l == EvictHold(e, n) || l == EvictDead(e))
    ensures |u.used| < |s.used|
  {
    hide PhaseOk, PageOk, NodeOk, SlotOk, NoDup, Without, FindCached, Next, Settled;
    UsedHead(s);
    WithoutSize(s.used, s.used[0]);
    t := PickPage(s, e);
    l, u := PickedGoes(s, e, n);
  }

  lemma PickedGoes<D>(s: State<D>, e: nat, n: NodeId) returns (l: Step<D>, u: State<D>)
    requires s.used != [] && s.freeSlots != [] && e !in s.picks && n !in s.nodes
    requires s.used[0] !in s.dying ==> s.used[0] in s.owner && Settled(s, s.owner[s.used[0]], s.used[0])
    ensures Next(s, EvictPick(e), PickPage(s, e)) && Next(PickPage(s, e), l, u) && Careful(PickPage(s, e), l)
    ensures (l == EvictHold(e, n) || l == EvictDead(e)) && u.used == Without(s.used, s.used[0])
  {
    hide AllocNext, OutNext, FaultNext, TakeNext, InNext, Without;
    var p, t := s.used[0], PickPage(s, e);
    if p in s.dying {
      l, u := EvictDead(e), ReclaimDead(t, e, p);
    } else {
      l, u := EvictHold(e, n), StartSwapOut(t, e, p, n);
    }
  }

  // ---------------------------------------------------------------- what a process and the kernel may do

  /** A first allocation can begin at any address where nothing is going on, as long as a page is free; its mapping may
      fail. */
  lemma AllocationBegins<D>(s: State<D>, a: Addr) returns (t: State<D>, u: State<D>)
    requires a !in s.phase && s.free != []
    ensures Next(s, AllocTake(a), t) && Next(t, AllocFail(a, s.free[0]), u)
    ensures u.free == s.free && u.usedMemory == s.usedMemory && a !in u.phase
  {
    hide EvictNext, OutNext, FaultNext, TakeNext, InNext;
    t := TakePage(s, a);
    u := PutBack(t, a, s.free[0]);
    assert [s.free[0]] + s.free[1..] == s.free;
  }

  /** A process can write wherever a page is mapped, retaken pages and pages being swapped out included. */
  lemma WriteServed<D>(s: State<D>, a: Addr, d: D) returns (t: State<D>)
    requires a in s.pt && s.pt[a].Present?
    ensures Next(s, Write(a, d), t) && s.pt[a].page in t.mem && t.mem[s.pt[a].page] == d
  {
    hide EvictNext, OutNext, FaultNext, TakeNext, InNext;
    t := WriteTo(s, a, s.pt[a].page, d);
  }

  /** It can give up an address that no swap-out and no fault service is at work on, in memory or in swap, ... */
  lemma AddressGivenUp<D>(s: State<D>, a: Addr) returns (l: Step<D>, t: State<D>)
    requires a in s.phase && a !in s.hits && (s.phase[a].Resident? || s.phase[a].Parked? || s.phase[a].Asleep?)
    requires forall n :: n in s.out && n in s.nodes ==> s.nodes[n].addr != a
    ensures Next(s, l, t) && a !in t.pt && a !in t.phase
    ensures !s.phase[a].Asleep? ==> t.events == s.events + multiset{s.phase[a].page}
  {
    hide AllocNext, OutNext, FaultNext, TakeNext, InNext;
    if s.phase[a].Asleep? {
      l, t := UnmapAsleep(a, s.phase[a].node), LeaveSlot(s, a);
    } else {
      l, t := Unmap(a, s.phase[a].page), UnmapPage(s, a, s.phase[a].page);
    }
  }

  /** ... and every event can be handled. */
  lemma EventHandled<D>(s: State<D>, p: Page) returns (t: State<D>)
    requires p in s.events
    ensures Next(s, FreePage(p), t) && p in t.free && p in t.mem && t.mem[p] == s.zero
  {
    hide AllocNext, OutNext, FaultNext, TakeNext, InNext, Without;
    t := GiveBack(s, p);
  }

  // ---------------------------------------------------------------- why a swap-in fails

  /** At this step the swap-in at `a` finds no page, or nothing at the file position to read. */
  ghost predicate Fails<D>(s: State<D>, l: Step<D>, a: Addr, n: NodeId) {
    (l == InRefuse(a, n) && s.free == []) || (l.InFail? && l.a == a && l.n == n && s.pos !in s.disk)
  }

  lemma RefusedStep<D>(s: State<D>, l: Step<D>, t: State<D>, a: Addr, n: NodeId)
    requires Next(s, l, t) && In(t, a, Refused(n))
    ensures In(s, a, Refused(n)) || Fails(s, l, a, n)
  {
    hide AllocNext, EvictNext, OutNext, FaultNext, TakeNext, InNext, In, Fails;
    if AllocNext(s, l, t) || EvictNext(s, l, t) {
      NotRefusedFirst(s, l, t, a, n);
    } else if OutNext(s, l, t) {
      NotRefusedOut(s, l, t, a, n);
    } else if FaultNext(s, l, t) {
      NotRefusedFault(s, l, t, a, n);
    } else if TakeNext(s, l, t) {
      RefusedTake(s, l, t, a, n);
    } else {
      RefusedIn(s, l, t, a, n);
    }
  }

  lemma NotRefusedFirst<D>(s: State<D>, l: Step<D>, t: State<D>, a: Addr, n: NodeId)
    requires (AllocNext(s, l, t) || EvictNext(s, l, t)) && In(t, a, Refused(n))
    ensures In(s, a, Refused(n))
  {
    hide Without, Settled;
  }

  lemma NotRefusedOut<D>(s: State<D>, l: Step<D>, t: State<D>, a: Addr, n: NodeId)
    requires OutNext(s, l, t) && In(t, a, Refused(n))
    ensures In(s, a, Refused(n))
  {
    OutPhase(s, l, t);
  }

  lemma OutPhase<D>(s: State<D>, l: Step<D>, t: State<D>)
    requires OutNext(s, l, t)
    ensures l.OutCommit? ==>
      l.n in s.nodes && (t.phase == s.phase || t.phase == s.phase[s.nodes[l.n].addr := Asleep(l.n)])
    ensures !l.OutCommit? ==> t.phase == s.phase
  {
    hide EnterCache, ClearPte, SeekOut, WriteSlot, AbandonSwapOut, FinishSwapOut;
    OutPhases(s, l.n, s.nodes[l.n]);
    CommitPhases(s, l.n, s.nodes[l.n]);
  }

  lemma OutPhases<D>(s: State<D>, n: NodeId, v: ToSwap)
    ensures EnterCache(s, n).phase == ClearPte(s, n, v).phase == SeekOut(s, n, v).phase == s.phase
    ensures v.page in s.mem ==> WriteSlot(s, n, v).phase == s.phase
  {
  }

  lemma CommitPhases<D>(s: State<D>, n: NodeId, v: ToSwap)
    ensures AbandonSwapOut(s, n, v).phase == s.phase && FinishSwapOut(s, n, v).phase == s.phase[v.addr := Asleep(n)]
  {
    hide Without;
  }

  lemma NotRefusedFault<D>(s: State<D>, l: Step<D>, t: State<D>, a: Addr, n: NodeId)
    requires FaultNext(s, l, t) && In(t, a, Refused(n))
    ensures In(s, a, Refused(n))
  {
    hide FindCached;
  }

  lemma RefusedTake<D>(s: State<D>, l: Step<D>, t: State<D>, a: Addr, n: NodeId)
    requires TakeNext(s, l, t) && In(t, a, Refused(n))
    ensures In(s, a, Refused(n)) || Fails(s, l, a, n)
  {
  }

  lemma RefusedIn<D>(s: State<D>, l: Step<D>, t: State<D>, a: Addr, n: NodeId)
    requires InNext(s, l, t) && In(t, a, Refused(n))
    ensures In(s, a, Refused(n)) || Fails(s, l, a, n)
  {
  }

  lemma {:induction false} RefusedFor<D>(r: Run<D>, a: Addr, n: NodeId, k: nat) returns (j: nat)
    requires IsRun(r) && k < |r.states| && In(r.states[k], a, Refused(n))
    ensures j < k && Fails(r.states[j], r.steps[j], a, n)
    ensures forall i :: j < i <= k ==> In(r.states[i], a, Refused(n))
  {
    hide Next, Fails;
    if k == 0 {
      assert false;
    } else {
      RefusedStep(r.states[k - 1], r.steps[k - 1], r.states[k], a, n);
      if In(r.states[k - 1], a, Refused(n)) {
        j := RefusedFor(r, a, n, k - 1);
      } else {
        j := k - 1;
      }
    }
  }

  /** In every run: a fault on a swapped address is given up only when there is no free page, and only after its swap-in
      has found none before, or has found nothing at the file position to read. */
  lemma GivenUpFor<D>(r: Run<D>, a: Addr, n: NodeId, k: nat) returns (j: nat)
    requires IsRun(r) && k < |r.steps| && r.steps[k] == InGiveUp(a, n)
    ensures r.states[k].free == []
    ensures j < k && (r.steps[j].InRefuse? || r.steps[j].InFail?) && r.steps[j].a == a && r.steps[j].n == n
    ensures if r.steps[j].InRefuse? then r.states[j].free == [] else r.states[j].pos !in r.states[j].disk
    ensures forall i :: j < i <= k ==> In(r.states[i], a, Refused(n))
  {
    hide AllocNext, EvictNext, OutNext, FaultNext, InNext, Init;
    assert Next(r.states[k], r.steps[k], r.states[k + 1]);
    j := RefusedFor(r, a, n, k);
  }
}
