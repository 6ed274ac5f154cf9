/**
 Which page goes next, and what a page shows when it is mapped anew, over runs of `Paging`.
 */
module PagingOrder {
  import opened Paging
  import opened PagingRuns

  // ---------------------------------------------------------------- the page just swapped in goes first

  /** The step takes page `p` off the used list. */
  predicate TakesOff<D>(s: State<D>, l: Step<D>, p: Page) {
    match l
    case EvictHold(e, _) => e in s.picks && s.picks[e] == p
    case EvictDead(e) => e in s.picks && s.picks[e] == p
    case FreePage(q) => q == p
    case _ => false
  }

  /** The first used page stays first as long as nothing is put before it and it is not taken off. */
  lemma HeadStays<D>(s: State<D>, l: Step<D>, t: State<D>, p: Page)
    requires Next(s, l, t) && s.used != [] && s.used[0] == p && !l.InRestore? && !TakesOff(s, l, p)
    ensures t.used != [] && t.used[0] == p
  {
    hide AllocNext, EvictNext, OutNext, FaultNext, TakeNext, InNext, TakesOff;
    if AllocNext(s, l, t) {
      AllocLeaves(s, l, t);
    } else if EvictNext(s, l, t) {
      HeadEvicts(s, l, t, p);
    } else if OutNext(s, l, t) {
      OutLeaves(s, l, t);
    } else if FaultNext(s, l, t) {
      FaultLeaves(s, l, t);
    } else if TakeNext(s, l, t) {
      TakeLeaves(s, l, t);
    } else {
      InLeaves(s, l, t);
    }
  }

  lemma HeadEvicts<D>(s: State<D>, l: Step<D>, t: State<D>, p: Page)
    requires EvictNext(s, l, t) && s.used != [] && s.used[0] == p && !TakesOff(s, l, p)
    ensures t.used != [] && t.used[0] == p
  {
    hide Settled;
  }

  /** In every run: after a page has been swapped in, the next to be picked for eviction is this page, unless another
      one has been swapped in or this one has been taken off the used list in between. */
  lemma SwappedInEvictedFirst<D>(r: Run<D>, a: Addr, n: NodeId, p: Page, e: nat, j: nat, k: nat)
    requires IsRun(r) && j < k < |r.steps| && r.steps[j] == InRestore(a, n, p) && r.steps[k] == EvictPick(e)
    requires forall i :: j < i < k ==> !r.steps[i].InRestore? && !TakesOff(r.states[i], r.steps[i], p)
    ensures e in r.states[k + 1].picks && r.states[k + 1].picks[e] == p
  {
    hide Next, Init;
    assert Next(r.states[j], r.steps[j], r.states[j + 1]) && Next(r.states[k], r.steps[k], r.states[k + 1]);
    Restored(r.states[j], a, n, p, r.states[j + 1]);
    FirstStays(r, p, j + 1, k);
    Picked(r.states[k], e, r.states[k + 1]);
  }

  lemma Picked<D>(s: State<D>, e: nat, t: State<D>)
    requires Next(s, EvictPick(e), t)
    ensures s.used != [] && t.picks == s.picks[e := s.used[0]]
  {
  }

  lemma {:induction false} FirstStays<D>(r: Run<D>, p: Page, j: nat, k: nat)
    requires IsRun(r) && j <= k < |r.states| && r.states[j].used != [] && r.states[j].used[0] == p
    requires forall i :: j <= i < k ==> !r.steps[i].InRestore? && !TakesOff(r.states[i], r.steps[i], p)
    ensures r.states[k].used != [] && r.states[k].used[0] == p
    decreases k - j
  {
    hide Next, Init, TakesOff;
    if j < k {
      FirstStays(r, p, j, k - 1);
      HeadStays(r.states[k - 1], r.steps[k - 1], r.states[k], p);
    }
  }

  lemma Restored<D>(s: State<D>, a: Addr, n: NodeId, p: Page, t: State<D>)
    requires Next(s, InRestore(a, n, p), t)
    ensures t.used == [p] + s.used
  {
  }

  // ---------------------------------------------------------------- a retaken page goes never

  ghost predicate Unpicked<D>(s: State<D>, p: Page) {
    forall e :: e in s.picks ==> s.picks[e] != p
  }

  /** A page retaken from the swap cache is on no list, and no step puts it there or picks it. */
  lemma RetakenStays<D>(s: State<D>, l: Step<D>, t: State<D>, a: Addr, n: NodeId, p: Page)
    requires Inv(s) && Next(s, l, t) && Careful(s, l) && In(s, a, Parked(n, p)) && Unpicked(s, p) && l != Unmap(a, p)
    ensures p !in s.used && In(t, a, Parked(n, p)) && Unpicked(t, p)
  {
    hide AllocNext, EvictNext, OutNext, FaultNext, TakeNext, InNext, NodeOk, SlotOk, ListsOk, Unpicked, Settled;
    assert PhaseOk(s, a) && PageOk(s, p);
    if AllocNext(s, l, t) {
      ParkedAlloc(s, l, t, a, p);
    } else if EvictNext(s, l, t) {
      if l.EvictHold? { ParkedHold(s, l.e, l.n, t, a, p); } else { ParkedEvict(s, l, t, a, p); }
    } else if OutNext(s, l, t) {
      ParkedOut(s, l, t, a, p);
    } else if FaultNext(s, l, t) {
      ParkedFault(s, l, t, a, p);
    } else if TakeNext(s, l, t) {
      ParkedTake(s, l, t, a, p);
    } else {
      ParkedIn(s, l, t, a, p);
    }
  }

  lemma ParkedAlloc<D>(s: State<D>, l: Step<D>, t: State<D>, a: Addr, p: Page)
    requires AllocNext(s, l, t) && a in s.phase && s.phase[a].Parked? && Unpicked(s, p)
    ensures In(t, a, s.phase[a]) && Unpicked(t, p)
  {
  }

  lemma ParkedHold<D>(s: State<D>, e: nat, n: NodeId, t: State<D>, a: Addr, p: Page)
    requires EvictNext(s, EvictHold(e, n), t) && Settled(s, s.owner[s.picks[e]], s.picks[e])
    requires a in s.phase && s.phase[a].Parked? && s.phase[a].page == p && Unpicked(s, p)
    ensures In(t, a, s.phase[a]) && Unpicked(t, p)
  {
    hide Without, NoSwapOut;
  }

  lemma ParkedEvict<D>(s: State<D>, l: Step<D>, t: State<D>, a: Addr, p: Page)
    requires EvictNext(s, l, t) && !l.EvictHold? && a in s.phase && s.phase[a].Parked? && s.phase[a].page == p
    requires p !in s.used && Unpicked(s, p) && l != Unmap(a, p)
    ensures In(t, a, s.phase[a]) && Unpicked(t, p)
  {
    hide Without, NoSwapOut;
    match l
    case EvictPick(e) => assert t == PickPage(s, e) && s.used[0] in s.used;
    case EvictDead(e) => assert t == ReclaimDead(s, e, s.picks[e]);
    case Unmap(b, q) => assert t == UnmapPage(s, b, q);
    case UnmapAsleep(b, n) => assert t == LeaveSlot(s, b);
    case FreePage(q) => assert t == GiveBack(s, q);
  }

  lemma ParkedOut<D>(s: State<D>, l: Step<D>, t: State<D>, a: Addr, p: Page)
    requires NodesOk(s) && OutNext(s, l, t) && a in s.phase && s.phase[a].Parked? && Unpicked(s, p)
    ensures In(t, a, s.phase[a]) && Unpicked(t, p)
  {
    hide OutNext;
    OutLeaves(s, l, t);
    assert NodeOk(s, l.n);
  }

  lemma ParkedFault<D>(s: State<D>, l: Step<D>, t: State<D>, a: Addr, p: Page)
    requires FaultNext(s, l, t) && a in s.phase && PhaseOk(s, a) && s.phase[a].Parked? && Unpicked(s, p)
    ensures In(t, a, s.phase[a]) && Unpicked(t, p)
  {
    hide FindCached;
  }

  lemma ParkedTake<D>(s: State<D>, l: Step<D>, t: State<D>, a: Addr, p: Page)
    requires TakeNext(s, l, t) && a in s.phase && s.phase[a].Parked? && Unpicked(s, p)
    ensures In(t, a, s.phase[a]) && Unpicked(t, p)
  {
  }

  lemma ParkedIn<D>(s: State<D>, l: Step<D>, t: State<D>, a: Addr, p: Page)
    requires InNext(s, l, t) && a in s.phase && s.phase[a].Parked? && Unpicked(s, p)
    ensures In(t, a, s.phase[a]) && Unpicked(t, p)
  {
    hide InNext;
    InLeaves(s, l, t);
  }

  /** In every careful run: a page that has been retaken and that no evictor has picked is never picked again, and
      stays mapped where it is, until its address is given up. */
  lemma {:induction false} RetakenForGood<D>(r: Run<D>, a: Addr, n: NodeId, p: Page, i: nat, j: nat)
    requires IsRun(r) && i <= j < |r.states| && CarefulTo(r, j)
    requires In(r.states[i], a, Parked(n, p)) && Unpicked(r.states[i], p)
    requires forall k :: i <= k < j ==> r.steps[k] != Unmap(a, p)
    ensures In(r.states[j], a, Parked(n, p)) && Unpicked(r.states[j], p) && p !in r.states[j].used
    decreases j - i
  {
    hide Next, Init, Inv, Careful, Unpicked, In;
    RunInv(r, j);
    if i < j {
      RetakenForGood(r, a, n, p, i, j - 1);
      RunInv(r, j - 1);
      RetakenStays(r.states[j - 1], r.steps[j - 1], r.states[j], a, n, p);
    }
    ParkedUnused(r.states[j], a, n, p);
  }

  lemma ParkedUnused<D>(s: State<D>, a: Addr, n: NodeId, p: Page)
    requires Inv(s) && In(s, a, Parked(n, p))
    ensures p !in s.used
  {
    assert PhaseOk(s, a) && PageOk(s, p);
  }

  // ---------------------------------------------------------------- what a page shows when it is mapped anew

  /** The step puts page `p` on the free list, other than by putting back what an allocation has just taken. */
  predicate Frees<D>(s: State<D>, l: Step<D>, p: Page) {
    match l
    case EvictDead(e) => e in s.picks && s.picks[e] == p
    case OutCommit(n) => n in s.nodes && !s.nodes[n].retaken && s.nodes[n].page == p
    case FreePage(q) => q == p
    case InFail(_, _, q) => q == p
    case _ => false
  }

  /** Page `p` is free, or taken by a first allocation that has not mapped it yet. */
  ghost predicate Waits<D>(s: State<D>, p: Page) {
    p in s.place && (s.place[p].Free? || (s.place[p].Taken? && In(s, s.place[p].addr, Allocating(p))))
  }

  /** A page that waits has waited before, and its contents are as they were, unless this step has freed it. */
  lemma WaitsUntouched<D>(s: State<D>, l: Step<D>, t: State<D>, p: Page)
    requires Inv(s) && Next(s, l, t) && Careful(s, l) && p in s.mem && Waits(t, p) && !Frees(s, l, p)
    ensures Waits(s, p) && p in t.mem && t.mem[p] == s.mem[p]
  {
    hide AllocNext, EvictNext, OutNext, FaultNext, TakeNext, InNext, Waits, Frees, Careful,
         PhaseOk, PageOk, NodeOk, SlotOk, PageListsOk, NodeListsOk;
    if AllocNext(s, l, t) {
      assert PageOk(s, p);
      if l.Write? { WaitsWrite(s, l.a, l.d, t, p); } else { WaitsAlloc(s, l, t, p); }
    } else if EvictNext(s, l, t) {
      WaitsEvict(s, l, t, p);
    } else if OutNext(s, l, t) {
      WaitsOut(s, l, t, p);
    } else if FaultNext(s, l, t) {
      WaitsFault(s, l, t, p);
    } else if TakeNext(s, l, t) {
      WaitsTake(s, l, t, p);
    } else {
      WaitsIn(s, l, t, p);
    }
  }

  lemma WaitsAlloc<D>(s: State<D>, l: Step<D>, t: State<D>, p: Page)
    requires PhasesOk(s) && PageOk(s, p) && AllocNext(s, l, t) && !l.Write? && p in s.mem && Waits(t, p)
    ensures Waits(s, p) && p in t.mem && t.mem[p] == s.mem[p]
  {
    hide TakePage, PutBack, MapPage, LinkPage, PhaseOk, PageOk, Waits;
    match l
    case AllocTake(a) => WaitsTaken(s, a, t, p);
    case AllocFail(a, q) => WaitsAllocated(s, l, t, a, q, p);
    case AllocMap(a, q) => WaitsAllocated(s, l, t, a, q, p);
    case AllocLink(a, q) => WaitsAllocated(s, l, t, a, q, p);
  }

  lemma WaitsTaken<D>(s: State<D>, a: Addr, t: State<D>, p: Page)
    requires PageOk(s, p) && a !in s.phase && s.free != [] && t == TakePage(s, a) && p in s.mem && Waits(t, p)
    ensures Waits(s, p) && p in t.mem && t.mem[p] == s.mem[p]
  {
    assert s.free[0] in s.free;
  }

  lemma WaitsAllocated<D>(s: State<D>, l: Step<D>, t: State<D>, a: Addr, q: Page, p: Page)
    requires AllocNext(s, l, t) && (l == AllocFail(a, q) || l == AllocMap(a, q) || l == AllocLink(a, q))
    requires a in s.phase && PhaseOk(s, a) && PageOk(s, p) && p in s.mem && Waits(t, p)
    ensures Waits(s, p) && p in t.mem && t.mem[p] == s.mem[p]
  {
  }

  lemma WaitsWrite<D>(s: State<D>, a: Addr, d: D, t: State<D>, p: Page)
    requires PhasesOk(s) && s.pt.Keys <= s.phase.Keys && AllocNext(s, Write(a, d), t) && p in s.mem && Waits(t, p)
    ensures Waits(s, p) && p in t.mem && t.mem[p] == s.mem[p]
  {
    assert a in s.pt.Keys && t == WriteTo(s, a, s.pt[a].page, d);
    assert PhaseOk(s, a);
  }

  lemma WaitsEvict<D>(s: State<D>, l: Step<D>, t: State<D>, p: Page)
    requires EvictNext(s, l, t) && p in s.mem && Waits(t, p) && !Frees(s, l, p)
    ensures Waits(s, p) && p in t.mem && t.mem[p] == s.mem[p]
  {
    hide Without, Settled;
  }

  lemma WaitsOut<D>(s: State<D>, l: Step<D>, t: State<D>, p: Page)
    requires NodesOk(s) && OutNext(s, l, t) && p in s.mem && Waits(t, p) && !Frees(s, l, p)
    ensures Waits(s, p) && p in t.mem && t.mem[p] == s.mem[p]
  {
    hide OutNext;
    OutLeaves(s, l, t);
    assert NodeOk(s, l.n);
  }

  lemma WaitsFault<D>(s: State<D>, l: Step<D>, t: State<D>, p: Page)
    requires FaultNext(s, l, t) && p in s.mem && Waits(t, p)
    ensures Waits(s, p) && p in t.mem && t.mem[p] == s.mem[p]
  {
    hide FindCached;
  }

  lemma WaitsTake<D>(s: State<D>, l: Step<D>, t: State<D>, p: Page)
    requires TakeNext(s, l, t) && Careful(s, l) && p in s.mem && Waits(t, p)
    ensures Waits(s, p) && p in t.mem && t.mem[p] == s.mem[p]
  {
  }

  lemma WaitsIn<D>(s: State<D>, l: Step<D>, t: State<D>, p: Page)
    requires PhasesOk(s) && InNext(s, l, t) && p in s.mem && Waits(t, p) && !Frees(s, l, p)
    ensures Waits(s, p) && p in t.mem && t.mem[p] == s.mem[p]
  {
    hide InNext;
    InLeaves(s, l, t);
    if l.InRead? { assert PhaseOk(s, l.a); }
  }

  lemma MemKept<D>(s: State<D>, l: Step<D>, t: State<D>, p: Page)
    requires Next(s, l, t) && p in s.mem
    ensures p in t.mem
  {
    hide AllocNext, EvictNext, OutNext, FaultNext, TakeNext, InNext;
    if AllocNext(s, l, t) {
      AllocLeaves(s, l, t);
    } else if EvictNext(s, l, t) {
      EvictLeaves(s, l, t);
    } else if OutNext(s, l, t) {
      OutLeaves(s, l, t);
    } else if FaultNext(s, l, t) {
      FaultLeaves(s, l, t);
    } else if TakeNext(s, l, t) {
      TakeLeaves(s, l, t);
    } else {
      InLeaves(s, l, t);
    }
  }

  lemma {:induction false} UntouchedSince<D>(r: Run<D>, p: Page, j: nat, k: nat)
    requires IsRun(r) && j <= k < |r.states| && CarefulTo(r, k) && p in r.states[j].mem
    requires forall i :: j <= i < k ==> !Frees(r.states[i], r.steps[i], p)
    ensures p in r.states[k].mem && (Waits(r.states[k], p) ==> r.states[k].mem[p] == r.states[j].mem[p])
    ensures Waits(r.states[k], p) ==> Waits(r.states[j], p)
    decreases k - j
  {
    hide Next, Init, Inv, Careful, Waits, Frees;
    if j < k {
      UntouchedSince(r, p, j, k - 1);
      RunInv(r, k - 1);
      MemKept(r.states[k - 1], r.steps[k - 1], r.states[k], p);
      if Waits(r.states[k], p) { WaitsUntouched(r.states[k - 1], r.steps[k - 1], r.states[k], p); }
    }
  }

  /** A page that is freed because its address was given up is cleared; one that is freed by a swap-out, a reclaim or a
      failed read is left as it was. */
  lemma FreedContents<D>(s: State<D>, l: Step<D>, t: State<D>, p: Page)
    requires Inv(s) && Next(s, l, t) && Frees(s, l, p)
    ensures p in s.mem && p in t.mem && t.mem[p] == if l.FreePage? then s.zero else s.mem[p]
  {
    hide EvictNext, OutNext, InNext, PhaseOk, PageOk, NodeOk, SlotOk, PageListsOk, NodeListsOk;
    hide TakePage, PutBack, MapPage, LinkPage, WriteTo, HitCache, Retake, MapRetaken, Turn, TakeForRead, FindCached;
    if EvictNext(s, l, t) {
      EvictedContents(s, l, t, p);
    } else if OutNext(s, l, t) {
      SwappedOutContents(s, l, t, p);
    } else if InNext(s, l, t) {
      UnreadContents(s, l, t, p);
    }
  }

  lemma EvictedContents<D>(s: State<D>, l: Step<D>, t: State<D>, p: Page)
    requires PageListsOk(s) && EvictNext(s, l, t) && Frees(s, l, p)
    ensures p in s.mem && p in t.mem && t.mem[p] == if l.FreePage? then s.zero else s.mem[p]
  {
    hide Without, Settled;
  }

  lemma SwappedOutContents<D>(s: State<D>, l: Step<D>, t: State<D>, p: Page)
    requires NodesOk(s) && OutNext(s, l, t) && Frees(s, l, p)
    ensures !l.FreePage? && p in s.mem && p in t.mem && t.mem[p] == s.mem[p]
  {
    hide FinishSwapOut, AbandonSwapOut, Without;
    OutLeaves(s, l, t);
    assert NodeOk(s, l.n);
  }

  lemma UnreadContents<D>(s: State<D>, l: Step<D>, t: State<D>, p: Page)
    requires PhasesOk(s) && InNext(s, l, t) && Frees(s, l, p)
    ensures !l.FreePage? && p in s.mem && p in t.mem && t.mem[p] == s.mem[p]
  {
    assert t == FailRead(s, l.a, l.n, p);
    assert PhaseOk(s, l.a);
  }

  lemma MappedContents<D>(s: State<D>, a: Addr, p: Page, t: State<D>)
    requires Inv(s) && Next(s, AllocMap(a, p), t)
    ensures Waits(s, p) && t.mem == s.mem && a in t.pt && t.pt[a] == Present(p)
  {
    hide NodeOk, SlotOk, PageOk;
    assert PhaseOk(s, a);
  }

  /** What a process finds at an address mapped for the first time, in every careful run: cleared contents if the page
      last came to the free list by `pindex_free`; otherwise what was on the page when it did, whoever's that was. */
  lemma FreshMapping<D>(r: Run<D>, a: Addr, p: Page, j: nat, k: nat)
    requires IsRun(r) && j < k < |r.steps| && CarefulTo(r, k) && r.steps[k] == AllocMap(a, p)
    requires Frees(r.states[j], r.steps[j], p) && forall i :: j < i < k ==> !Frees(r.states[i], r.steps[i], p)
    ensures var before, after := r.states[j], r.states[k + 1];
            && p in before.mem && a in after.pt && after.pt[a] == Present(p) && p in after.mem
            && after.mem[p] == (if r.steps[j].FreePage? then before.zero else before.mem[p])
            && (after.mem[p] == before.zero <==> r.steps[j].FreePage? || before.mem[p] == before.zero)
  {
    hide Next, Init, Inv, Careful, Waits, Frees;
    RunInv(r, j);
    FreedContents(r.states[j], r.steps[j], r.states[j + 1], p);
    RunInv(r, k);
    assert Next(r.states[k], r.steps[k], r.states[k + 1]);
    MappedContents(r.states[k], a, p, r.states[k + 1]);
    UntouchedSince(r, p, j + 1, k);
  }
}
