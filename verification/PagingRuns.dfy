/**
 What holds over whole runs of `Paging`: paging is invisible to the processes, and pages and slots are conserved.
 */
module PagingRuns {
  import opened Paging
  import opened PagingInv

  // ---------------------------------------------------------------- the invariant over steps

  lemma AllocStep<D>(s: State<D>, l: Step<D>, t: State<D>)
    requires Inv(s) && AllocNext(s, l, t)
    ensures Inv(t)
  {
    hide Inv, TakePage, PutBack, MapPage, LinkPage, WriteTo;
    match l
    case AllocTake(a) => TakePageKeeps(s, t, a);
    case AllocFail(a, p) => PutBackKeeps(s, t, a, p);
    case AllocMap(a, p) => MapPageKeeps(s, t, a, p);
    case AllocLink(a, p) => LinkPageKeeps(s, t, a, p);
    case Write(a, d) => WriteToKeeps(s, t, a, s.pt[a].page, d);
  }

  lemma EvictStep<D>(s: State<D>, l: Step<D>, t: State<D>)
    requires Inv(s) && EvictNext(s, l, t) && Careful(s, l)
    ensures Inv(t)
  {
    hide Inv, PickPage, StartSwapOut, ReclaimDead, UnmapPage, LeaveSlot, GiveBack, Settled;
    match l
    case EvictPick(e) => PickPageKeeps(s, t, e);
    case EvictHold(e, n) => StartSwapOutKeeps(s, t, e, s.picks[e], n);
    case EvictDead(e) => ReclaimDeadKeeps(s, t, e, s.picks[e]);
    case Unmap(a, p) => UnmapPageKeeps(s, t, a, p);
    case UnmapAsleep(a, n) => LeaveSlotKeeps(s, t, a);
    case FreePage(p) => GiveBackKeeps(s, t, p);
  }

  lemma OutStep<D>(s: State<D>, l: Step<D>, t: State<D>)
    requires Inv(s) && OutNext(s, l, t) && Careful(s, l)
    ensures Inv(t)
  {
    hide Inv, EnterCache, ClearPte, SeekOut, WriteSlot, FinishSwapOut, AbandonSwapOut, WritesWell;
    match l
    case OutCache(n) => EnterCacheKeeps(s, t, n);
    case OutClear(n) => ClearPteKeeps(s, t, n);
    case OutSeek(n) => SeekOutKeeps(s, t, n);
    case OutWrite(n) => WriteSlotKeeps(s, t, n);
    case OutCommit(n) =>
      if s.nodes[n].retaken { AbandonSwapOutKeeps(s, t, n); } else { FinishSwapOutKeeps(s, t, n); }
  }

  /** A fault on a swapped address that is not in the swap cache finds, through its entry, the node it sleeps in. */
  lemma EntryFindsNode<D>(s: State<D>, a: Addr)
    requires Inv(s) && SwapFault(s, a) && FindCached(s.cache, s.nodes, a) == []
    ensures s.pt[a].slot in s.holder && In(s, a, Asleep(s.holder[s.pt[a].slot])) && PhaseOk(s, a)
  {
    assert PhaseOk(s, a);
    assert NodeOk(s, s.phase[a].node);
  }

  /** One that is in the swap cache finds the page it is leaving. */
  lemma CacheFindsPage<D>(s: State<D>, a: Addr)
    requires Inv(s) && SwapFault(s, a) && FindCached(s.cache, s.nodes, a) != []
    ensures var n := FindCached(s.cache, s.nodes, a)[0];
            && n in s.cache && n in s.nodes && s.nodes[n].addr == a && NodeOk(s, n)
            && PhaseOk(s, a) && In(s, a, Leaving(n))
  {
    var n := FindCached(s.cache, s.nodes, a)[0];
    assert PhaseOk(s, a) && NodeOk(s, n);
  }

  /** What has been found is still there, or has gone to its slot and nothing has happened since. */
  lemma HitPage<D>(s: State<D>, a: Addr)
    requires Inv(s) && a in s.hits
    ensures s.hits[a] in s.nodes && a in s.phase && PhaseOk(s, a) && a in s.pt && s.pt[a].Swapped?
    ensures In(s, a, Leaving(s.hits[a])) || In(s, a, Asleep(s.hits[a]))
  {
    assert PhaseOk(s, a);
  }

  lemma FaultStep<D>(s: State<D>, l: Step<D>, t: State<D>)
    requires Inv(s) && FaultNext(s, l, t) && Careful(s, l)
    ensures Inv(t)
  {
    hide Inv, FindCached, HitCache, Retake, MapRetaken, Turn, PhaseOk, NodeOk;
    match l
    case FaultHit(a) =>
      CacheFindsPage(s, a);
      HitCacheKeeps(s, t, a, FindCached(s.cache, s.nodes, a)[0]);
    case FaultRetake(a) =>
      HitPage(s, a);
      RetakeKeeps(s, t, a, s.hits[a]);
    case RetakeMap(a, n, p) => MapRetakenKeeps(s, t, a, n, p);
    case FaultSwapIn(a) =>
      EntryFindsNode(s, a);
      TurnKeeps(s, t, a, Found(s.holder[s.pt[a].slot]), s.pos);
  }

  lemma TakeStep<D>(s: State<D>, l: Step<D>, t: State<D>)
    requires Inv(s) && TakeNext(s, l, t) && Careful(s, l)
    ensures Inv(t)
  {
    hide Inv, Turn, TakeForRead, PhaseOk;
    Unhit(s, l.a);
    match l
    case InSeek(a, n) => TurnKeeps(s, t, a, Aimed(n), s.nodes[n].slot);
    case InTake(a, n) => TakeForReadKeeps(s, t, a, n);
    case InRefuse(a, n) => TurnKeeps(s, t, a, Refused(n), s.pos);
    case InGiveUp(a, n) => TurnKeeps(s, t, a, Asleep(n), s.pos);
  }

  lemma Unhit<D>(s: State<D>, a: Addr)
    requires Inv(s)
    ensures a in s.phase && !s.phase[a].Leaving? && !s.phase[a].Asleep? ==> a !in s.hits
  {
    if a in s.phase { assert PhaseOk(s, a); }
  }

  lemma InStep<D>(s: State<D>, l: Step<D>, t: State<D>)
    requires Inv(s) && InNext(s, l, t) && Careful(s, l)
    ensures Inv(t)
  {
    hide Inv, ReadSlot, FailRead, MapLoaded, RestoreUsed, ReleaseSlot, ReadsWell;
    match l
    case InRead(a, n, p) => ReadSlotKeeps(s, t, a, n, p);
    case InFail(a, n, p) => FailReadKeeps(s, t, a, n, p);
    case InMap(a, n, p) => MapLoadedKeeps(s, t, a, n, p);
    case InRestore(a, n, p) => RestoreUsedKeeps(s, t, a, n, p);
    case InRelease(n) => ReleaseSlotKeeps(s, t, n);
  }

  /** Every careful step keeps the invariant ... */
  lemma StepKeeps<D>(s: State<D>, l: Step<D>, t: State<D>)
    requires Inv(s) && Next(s, l, t) && Careful(s, l)
    ensures Inv(t)
  {
    hide Inv, AllocNext, EvictNext, OutNext, FaultNext, TakeNext, InNext, Careful;
    if AllocNext(s, l, t) {
      AllocStep(s, l, t);
    } else if EvictNext(s, l, t) {
      EvictStep(s, l, t);
    } else if OutNext(s, l, t) {
      OutStep(s, l, t);
    } else if FaultNext(s, l, t) {
      FaultStep(s, l, t);
    } else if TakeNext(s, l, t) {
      TakeStep(s, l, t);
    } else {
      InStep(s, l, t);
    }
  }

  /** ... and no other does. */
  lemma CarelessBreaks<D>(s: State<D>, l: Step<D>, t: State<D>)
    requires Inv(s) && Next(s, l, t) && !Careful(s, l)
    ensures !Inv(t)
  {
    hide Inv, Settled, WritesWell, ReadsWell, FindCached, StartSwapOut, GiveBack, Retake, WriteSlot, ReadSlot, TakePage;
    match l
    case EvictHold(e, n) => LateHold(s, e, n);
    case FreePage(p) => LateFree(s, p);
    case FaultRetake(a) => LateMark(s, a);
    case OutWrite(n) => MisplacedWrite(s, n);
    case InRead(a, n, p) => MisplacedRead(s, a, n, p);
    case InRetry(a, n) => RetriedSwapIn(s, a, n);
  }

  lemma LateHold<D>(s: State<D>, e: nat, n: NodeId)
    requires Inv(s) && e in s.picks && s.picks[e] !in s.dying && s.picks[e] in s.owner && s.freeSlots != []
    requires n !in s.nodes && !Settled(s, s.owner[s.picks[e]], s.picks[e])
    ensures !Inv(StartSwapOut(s, e, s.picks[e], n))
  {
    hide SlotOk, NoDup, Without;
    var p := s.picks[e];
    var a, t := s.owner[p], StartSwapOut(s, e, p, n);
    assert PageOk(s, p);
    WithoutSize(s.free, p);
    if !s.place[p].Free? {
      assert PhaseOk(s, s.place[p].addr);
      if m :| m in s.out && m in s.nodes && s.nodes[m].addr == a {
        assert !NodeOk(t, m);
      } else {
        assert !PhaseOk(t, a);
      }
    }
  }

  lemma LateFree<D>(s: State<D>, p: Page)
    requires Inv(s) && p in s.events && p !in s.dying
    ensures !Inv(GiveBack(s, p))
  {
    hide SlotOk, NodeOk, NoDup, Without;
    var t := GiveBack(s, p);
    assert PageOk(s, p);
    WithoutSize(s.free, p);
    if !s.place[p].Free? {
      assert PhaseOk(s, s.place[p].addr);
      assert !PhaseOk(t, s.place[p].addr);
    }
  }

  lemma LateMark<D>(s: State<D>, a: Addr)
    requires Inv(s) && a in s.hits && s.hits[a] in s.nodes && !In(s, a, Leaving(s.hits[a]))
    ensures !Inv(Retake(s, a, s.hits[a]))
  {
    hide SlotOk, NodeOk, PageListsOk, NodeListsOk;
    var p, t := s.nodes[s.hits[a]].page, Retake(s, a, s.hits[a]);
    assert PhaseOk(s, a);
    if p in s.mem { assert PageOk(s, p); }
    assert !PhaseOk(t, a);
  }

  lemma MisplacedWrite<D>(s: State<D>, n: NodeId)
    requires Inv(s) && AtOut(s, n, Sought) && s.nodes[n].page in s.mem && !WritesWell(s, n)
    ensures !Inv(WriteSlot(s, n, s.nodes[n]))
  {
    hide SlotOk, PageOk, ListsOk;
    var v, t := s.nodes[n], WriteSlot(s, n, s.nodes[n]);
    assert NodeOk(s, n) && PhaseOk(s, v.addr);
    if !v.retaken && s.disk[v.slot] != s.mem[v.page] {
      assert !PhaseOk(t, v.addr);
    } else {
      var b :| b in s.phase && Needs(s, b, s.pos);
      assert PhaseOk(s, b);
      assert !PhaseOk(t, b);
    }
  }

  lemma MisplacedRead<D>(s: State<D>, a: Addr, n: NodeId, p: Page)
    requires Inv(s) && In(s, a, Fetching(n, p)) && n in s.nodes && s.pos in s.disk && !ReadsWell(s, n)
    ensures !Inv(ReadSlot(s, a, n, p))
  {
    hide SlotOk, PageOk, ListsOk, NodeOk;
    assert PhaseOk(s, a);
    assert !PhaseOk(ReadSlot(s, a, n, p), a);
  }

  lemma RetriedSwapIn<D>(s: State<D>, a: Addr, n: NodeId)
    requires Inv(s) && In(s, a, Refused(n)) && s.free != []
    ensures !Inv(TakePage(s, a))
  {
    hide SlotOk, PageOk, ListsOk, NodeOk;
    assert PhaseOk(s, a);
    assert !PhaseOk(TakePage(s, a), a);
  }

  // ---------------------------------------------------------------- what the steps leave alone

  lemma AllocLeaves<D>(s: State<D>, l: Step<D>, t: State<D>)
    requires AllocNext(s, l, t)
    ensures !l.Unmap? && !l.UnmapAsleep? && (l.AllocMap? ==> l.p in s.mem)
    ensures t.view == if l.AllocMap? then s.view[l.a := s.mem[l.p]] else if l.Write? then s.view[l.a := l.d] else s.view
    ensures t.used == if l.AllocLink? then s.used + [l.p] else s.used
    ensures s.mem.Keys <= t.mem.Keys && t.pos == s.pos
    ensures t.nodes == s.nodes && t.out == s.out && t.releasing == s.releasing
    ensures l.Write? ==> t.phase == s.phase
    ensures l.AllocFail? ==> t.phase == s.phase - {l.a}
    ensures !l.Write? && !l.AllocFail? ==>
      && (l.AllocTake? || l.AllocMap? || l.AllocLink?) && l.a in t.phase && t.phase == s.phase[l.a := t.phase[l.a]]
      && (t.phase[l.a].Allocating? || t.phase[l.a].Linking? || t.phase[l.a].Resident?)
  {
  }

  lemma EvictLeaves<D>(s: State<D>, l: Step<D>, t: State<D>)
    requires EvictNext(s, l, t)
    ensures !l.AllocMap? && !l.Write?
    ensures t.view == if l.Unmap? || l.UnmapAsleep? then s.view - {l.a} else s.view
    ensures s.mem.Keys <= t.mem.Keys && t.pos == s.pos
  {
    hide Without, Settled;
  }

  lemma OutLeaves<D>(s: State<D>, l: Step<D>, t: State<D>)
    requires OutNext(s, l, t)
    ensures l.OutCache? || l.OutClear? || l.OutSeek? || l.OutWrite? || l.OutCommit?
    ensures l.n in s.out && l.n in s.nodes
    ensures t.view == s.view && t.used == s.used && t.mem == s.mem && t.picks == s.picks && t.releasing == s.releasing
    ensures l.OutSeek? || l.OutWrite? || t.pos == s.pos
    ensures l.OutCommit? || (t.phase == s.phase && t.place == s.place && t.nodes == s.nodes)
    ensures l.OutCommit? ||
            (l.n in t.out && t.out == s.out[l.n := t.out[l.n]] && (t.out[l.n].Sought? ==> l.OutSeek?))
    ensures l.OutCommit? ==>
      var v := s.nodes[l.n];
      && t.out == s.out - {l.n} && t.nodes == (if v.retaken then s.nodes - {l.n} else s.nodes)
      && t.phase == (if v.retaken then s.phase else s.phase[v.addr := Asleep(l.n)])
      && t.place == (if v.retaken then s.place else s.place[v.page := Free])
  {
    hide EnterCache, ClearPte, SeekOut, WriteSlot, FinishSwapOut, AbandonSwapOut;
    match l
    case OutCache(n) => CacheFields(s, n, s.nodes[n]);
    case OutClear(n) => CacheFields(s, n, s.nodes[n]);
    case OutSeek(n) => SeekFields(s, n, s.nodes[n]);
    case OutWrite(n) => WriteFields(s, n, s.nodes[n]);
    case OutCommit(n) => CommitFields(s, n, s.nodes[n]);
  }

  /** All that `OutLeaves` speaks of, but for the swap-outs under way and the position, is the same. */
  ghost predicate SameButOut<D>(s: State<D>, t: State<D>) {
    && t.view == s.view && t.used == s.used && t.mem == s.mem && t.picks == s.picks && t.releasing == s.releasing
    && t.phase == s.phase && t.place == s.place && t.nodes == s.nodes
  }

  lemma CacheFields<D>(s: State<D>, n: NodeId, v: ToSwap)
    ensures var t := EnterCache(s, n); SameButOut(s, t) && t.pos == s.pos && t.out == s.out[n := Cached]
    ensures var t := ClearPte(s, n, v); SameButOut(s, t) && t.pos == s.pos && t.out == s.out[n := Cleared]
  {
  }

  lemma SeekFields<D>(s: State<D>, n: NodeId, v: ToSwap)
    ensures var t := SeekOut(s, n, v); SameButOut(s, t) && t.pos == v.slot && t.out == s.out[n := Sought]
  {
  }

  lemma WriteFields<D>(s: State<D>, n: NodeId, v: ToSwap)
    requires v.page in s.mem
    ensures var t := WriteSlot(s, n, v); SameButOut(s, t) && t.out == s.out[n := Written]
  {
  }

  lemma CommitFields<D>(s: State<D>, n: NodeId, v: ToSwap)
    ensures var t := AbandonSwapOut(s, n, v);
            SameButOut(s, t.(nodes := s.nodes)) && t.nodes == s.nodes - {n} && t.out == s.out - {n} && t.pos == s.pos
    ensures var t := FinishSwapOut(s, n, v);
            && SameButOut(s, t.(phase := s.phase, place := s.place)) && t.out == s.out - {n} && t.pos == s.pos
            && t.phase == s.phase[v.addr := Asleep(n)] && t.place == s.place[v.page := Free]
  {
    hide Without;
  }

  lemma FaultLeaves<D>(s: State<D>, l: Step<D>, t: State<D>)
    requires FaultNext(s, l, t)
    ensures !l.AllocMap? && !l.Write? && !l.Unmap? && !l.UnmapAsleep?
    ensures t.view == s.view && t.used == s.used && t.mem == s.mem && t.picks == s.picks && t.pos == s.pos
  {
    hide FindCached;
  }

  lemma TakeLeaves<D>(s: State<D>, l: Step<D>, t: State<D>)
    requires TakeNext(s, l, t)
    ensures !l.AllocMap? && !l.Write? && !l.Unmap? && !l.UnmapAsleep?
    ensures t.view == s.view && t.used == s.used && t.mem == s.mem && t.picks == s.picks
    ensures l.InSeek? || t.pos == s.pos
  {
  }

  lemma InLeaves<D>(s: State<D>, l: Step<D>, t: State<D>)
    requires InNext(s, l, t)
    ensures l.InRead? || l.InFail? || l.InMap? || l.InRestore? || l.InRelease?
    ensures t.view == s.view && t.picks == s.picks && t.out == s.out && (l.InRead? || t.pos == s.pos)
    ensures t.used == if l.InRestore? then [l.p] + s.used else s.used
    ensures !l.InRelease? && !l.InFail? ==> l.n in s.nodes || l.InMap?
    ensures t.mem == if l.InRead? then s.mem[l.p := t.mem[l.p]] else s.mem
    ensures match l
            case InRead(a, n, p) =>
              && In(s, a, Fetching(n, p)) && n in s.nodes && p in t.mem && t.phase == s.phase[a := Loaded(n, p)]
              && t.place == s.place && t.nodes == s.nodes[n := s.nodes[n].(page := p)] && t.releasing == s.releasing
            case InFail(a, n, p) =>
              && In(s, a, Fetching(n, p)) && t.phase == s.phase[a := Refused(n)]
              && t.place == s.place[p := Free] && t.nodes == s.nodes && t.releasing == s.releasing
            case InMap(a, n, p) =>
              && In(s, a, Loaded(n, p)) && t.phase == s.phase[a := Remapped(n, p)]
              && t.place == s.place && t.nodes == s.nodes && t.releasing == s.releasing
            case InRestore(a, n, p) =>
              && In(s, a, Remapped(n, p)) && n in s.nodes && t.phase == s.phase[a := Resident(p)]
              && t.place == s.place[p := Of(a)] && t.nodes == s.nodes && t.releasing == s.releasing + {n}
            case InRelease(n) =>
              && n in s.releasing && t.phase == s.phase && t.place == s.place
              && t.nodes == s.nodes - {n} && t.releasing == s.releasing - {n}
            case _ => false
  {
    match l
    case InRead(a, n, p) => assert t == ReadSlot(s, a, n, p);
    case InFail(a, n, p) => assert t == FailRead(s, a, n, p);
    case InMap(a, n, p) => assert t == MapLoaded(s, a, n, p);
    case InRestore(a, n, p) => assert t == RestoreUsed(s, a, n, p);
    case InRelease(n) => assert t == ReleaseSlot(s, n);
  }

  // ---------------------------------------------------------------- runs

  /** Nothing mapped, every page and every slot free. */
  ghost predicate Init<D>(s: State<D>) {
    && NoDup(s.free) && (forall p :: p in s.free <==> p in s.mem) && |s.free| == |s.mem|
    && NoDup(s.freeSlots) && (forall k :: k in s.freeSlots <==> k in s.disk)
    && s.place.Keys == s.mem.Keys && (forall p :: p in s.place ==> s.place[p] == Free)
    && s.pt == map[] && s.used == [] && s.usedMemory == 0 && s.nodes == map[] && s.cache == [] && s.out == map[]
    && s.picks == map[] && s.releasing == {} && s.dying == {} && s.events == multiset{}
    && s.hits == map[] && s.phase == map[] && s.view == map[]
  }

  lemma InitInv<D>(s: State<D>)
    requires Init(s)
    ensures Inv(s)
  {
  }

  datatype Run<D> = Run(states: seq<State<D>>, steps: seq<Step<D>>)

  ghost predicate IsRun<D>(r: Run<D>) {
    && |r.states| == |r.steps| + 1 && Init(r.states[0])
    && forall i {:trigger r.steps[i]} :: 0 <= i < |r.steps| ==> Next(r.states[i], r.steps[i], r.states[i + 1])
  }

  /** The first `n` steps are careful. */
  ghost predicate CarefulTo<D>(r: Run<D>, n: nat)
    requires n <= |r.steps| < |r.states|
  {
    forall i :: 0 <= i < n ==> Careful(r.states[i], r.steps[i])
  }

  lemma {:induction false} RunInv<D>(r: Run<D>, i: nat)
    requires IsRun(r) && i < |r.states| && CarefulTo(r, i)
    ensures Inv(r.states[i])
  {
    hide Inv, Next, Init, Careful;
    if i == 0 {
      InitInv(r.states[0]);
    } else {
      RunInv(r, i - 1);
      StepKeeps(r.states[i - 1], r.steps[i - 1], r.states[i]);
    }
  }

  /** The runs in which the invariant holds throughout are exactly the careful ones. */
  lemma CarefulExactly<D>(r: Run<D>, n: nat)
    requires IsRun(r) && n < |r.states|
    ensures CarefulTo(r, n) <==> forall i :: 0 <= i <= n ==> Inv(r.states[i])
  {
    hide Inv, Next, Init, Careful;
    if CarefulTo(r, n) {
      forall i | 0 <= i <= n ensures Inv(r.states[i]) { RunInv(r, i); }
    }
    if forall i :: 0 <= i <= n ==> Inv(r.states[i]) {
      forall i | 0 <= i < n ensures Careful(r.states[i], r.steps[i])
      {
        assert Inv(r.states[i]) && Inv(r.states[i + 1]);
        if !Careful(r.states[i], r.steps[i]) { CarelessBreaks(r.states[i], r.steps[i], r.states[i + 1]); }
      }
    }
  }

  // ---------------------------------------------------------------- paging is invisible

  /** A mapped address shows what the process put there last. */
  lemma Reads<D>(s: State<D>, a: Addr)
    requires Inv(s) && a in s.pt && s.pt[a].Present?
    ensures s.pt[a].page in s.mem && a in s.view && s.mem[s.pt[a].page] == s.view[a]
  {
    assert PhaseOk(s, a);
  }

  /** Mapping, writing and unmapping change what is to be seen; nothing else does. */
  lemma ViewChanges<D>(s: State<D>, l: Step<D>, t: State<D>)
    requires Next(s, l, t)
    ensures match l
            case AllocMap(a, p) => p in s.mem && t.view == s.view[a := s.mem[p]]
            case Write(a, d) => t.view == s.view[a := d]
            case Unmap(a, p) => t.view == s.view - {a}
            case UnmapAsleep(a, n) => t.view == s.view - {a}
            case _ => t.view == s.view
  {
    hide AllocNext, EvictNext, OutNext, FaultNext, TakeNext, InNext;
    if AllocNext(s, l, t) {
      AllocLeaves(s, l, t);
    } else if EvictNext(s, l, t) {
      EvictLeaves(s, l, t);
    } else if OutNext(s, l, t) {
      OutLeaves(s, l, t);
    } else if FaultNext(s, l, t) {
      FaultLeaves(s, l, t);
    } else if TakeNext(s, l, t) {
      TakeLeaves(s, l, t);
    } else {
      InLeaves(s, l, t);
    }
  }

  /** Only the process itself changes what it last put at an address it keeps. */
  lemma ViewKept<D>(s: State<D>, l: Step<D>, t: State<D>, a: Addr)
    requires Inv(s) && Next(s, l, t) && Careful(s, l) && a in s.pt && a in t.pt
    requires !(l.Write? && l.a == a)
    ensures a in s.view && a in t.view && t.view[a] == s.view[a]
  {
    hide PhaseOk, PageOk, NodeOk, SlotOk, Next;
    ViewChanges(s, l, t);
    InvView(s, a);
    StepKeeps(s, l, t);
    InvView(t, a);
    if l.AllocMap? { AllocatingUnmapped(s, l, t); }
  }

  lemma AllocatingUnmapped<D>(s: State<D>, l: Step<D>, t: State<D>)
    requires Inv(s) && Next(s, l, t) && l.AllocMap?
    ensures l.a !in s.pt
  {
    assert PhaseOk(s, l.a);
  }

  /** `a` stays mapped, present or swapped, from state `i` to state `j`. */
  ghost predicate Mapped<D>(r: Run<D>, a: Addr, i: nat, j: nat)
    requires i <= j < |r.states|
  {
    forall k :: i <= k <= j ==> a in r.states[k].pt
  }

  ghost predicate NotWritten<D>(r: Run<D>, a: Addr, i: nat, j: nat)
    requires i <= j <= |r.steps|
  {
    forall k :: i <= k < j ==> !(r.steps[k].Write? && r.steps[k].a == a)
  }

  lemma {:induction false} ViewStable<D>(r: Run<D>, a: Addr, i: nat, j: nat)
    requires IsRun(r) && i <= j < |r.states| && CarefulTo(r, j) && Mapped(r, a, i, j) && NotWritten(r, a, i, j)
    ensures a in r.states[i].view && a in r.states[j].view && r.states[i].view[a] == r.states[j].view[a]
    decreases j - i
  {
    hide Inv, Next, Init, Careful;
    if i == j {
      RunInv(r, i);
      InvView(r.states[i], a);
    } else {
      ViewStable(r, a, i, j - 1);
      RunInv(r, j - 1);
      var _ := r.steps[j - 1];
      ViewKept(r.states[j - 1], r.steps[j - 1], r.states[j], a);
    }
  }

  lemma InvView<D>(s: State<D>, a: Addr)
    requires Inv(s) && a in s.pt
    ensures a in s.view
  {
    assert PhaseOk(s, a);
  }

  /** In every careful run: whatever is swapped out, retaken or swapped in between, a process that does not write to an
      address reads the same there, ... */
  lemma PagingInvisible<D>(r: Run<D>, a: Addr, i: nat, j: nat)
    requires IsRun(r) && i <= j < |r.states| && CarefulTo(r, j) && Mapped(r, a, i, j) && NotWritten(r, a, i, j)
    requires r.states[i].pt[a].Present? && r.states[j].pt[a].Present?
    ensures r.states[i].pt[a].page in r.states[i].mem && r.states[j].pt[a].page in r.states[j].mem
    ensures r.states[i].mem[r.states[i].pt[a].page] == r.states[j].mem[r.states[j].pt[a].page]
  {
    hide Next, Init, PhaseOk, PageOk, NodeOk, SlotOk, ListsOk;
    ViewStable(r, a, i, j);
    RunInv(r, i);
    RunInv(r, j);
    Reads(r.states[i], a);
    Reads(r.states[j], a);
  }

  /** ... and one that does reads what it wrote last. */
  lemma ReadsLastWrite<D>(r: Run<D>, a: Addr, d: D, i: nat, j: nat)
    requires IsRun(r) && i < j < |r.states| && CarefulTo(r, j) && r.steps[i] == Write(a, d)
    requires Mapped(r, a, i + 1, j) && NotWritten(r, a, i + 1, j) && r.states[j].pt[a].Present?
    ensures r.states[j].pt[a].page in r.states[j].mem && r.states[j].mem[r.states[j].pt[a].page] == d
  {
    hide Init, Next, Inv;
    ViewStable(r, a, i + 1, j);
    RunInv(r, j);
    Reads(r.states[j], a);
    assert Next(r.states[i], r.steps[i], r.states[i + 1]);
    ViewChanges(r.states[i], r.steps[i], r.states[i + 1]);
  }

  // ---------------------------------------------------------------- conservation

  /** Taken from the lists by a first allocation, a swap-out or a swap-in, retaken from the swap cache, or unmapped
      and not yet given back. */
  ghost predicate InFlight<D>(s: State<D>, p: Page) {
    || (exists a :: a in s.phase && Has(s, s.phase[a], p) && !s.phase[a].Resident?)
    || (p in s.dying && p !in s.used)
  }

  /** A page is on the free list, on the used list, or in flight, and only one of these. */
  lemma PageConserved<D>(s: State<D>, p: Page)
    requires Inv(s) && p in s.mem
    ensures p in s.free || p in s.used || InFlight(s, p)
    ensures !(p in s.free && p in s.used) && !(p in s.free && InFlight(s, p)) && !(p in s.used && InFlight(s, p))
  {
    assert PageOk(s, p);
    if s.place[p].Of? || s.place[p].Taken? { assert PhaseOk(s, s.place[p].addr); }
    if a :| a in s.phase && Has(s, s.phase[a], p) && !s.phase[a].Resident? {
      assert PhaseOk(s, a);
      assert s.place[p] == Of(a) || s.place[p] == Taken(a);
    }
  }

  ghost function FlightSet<D>(s: State<D>): set<Page> {
    set p | p in s.mem && InFlight(s, p)
  }

  ghost function Elements(l: seq<nat>): set<nat> {
    set x | x in l
  }

  lemma {:induction false} ListSize(l: seq<nat>)
    requires NoDup(l)
    ensures |Elements(l)| == |l|
  {
    if l == [] {
      assert Elements(l) == {};
    } else {
      NoDupTail(l);
      ListSize(l[1..]);
      assert Elements(l) == Elements(l[1..]) + {l[0]};
    }
  }

  lemma Partition(m: set<nat>, f: set<nat>, u: set<nat>, i: set<nat>)
    requires f <= m && u <= m && i <= m
    requires forall p :: p in m ==> p in f || p in u || p in i
    requires forall p :: p in m ==> !(p in f && p in u) && !(p in f && p in i) && !(p in u && p in i)
    ensures |m| == |f| + |u| + |i|
  {
    assert m == f + u + i;
    assert f !! u && (f + u) !! i;
    assert |f + u| == |f| + |u|;
  }

  /** `usedMemory` counts the used pages and those in flight. */
  lemma UsedMemoryCounts<D>(s: State<D>)
    requires Inv(s)
    ensures s.usedMemory == 4096 * (|s.used| + |FlightSet(s)|)
  {
    hide PhaseOk, PageOk, NodeOk, SlotOk, InFlight, NoDup;
    ListSize(s.free);
    ListSize(s.used);
    forall p | p in s.mem
      ensures p in s.free || p in s.used || InFlight(s, p)
      ensures !(p in s.free && p in s.used) && !(p in s.free && InFlight(s, p)) && !(p in s.used && InFlight(s, p))
    {
      PageConserved(s, p);
    }
    Partition(s.mem.Keys, Elements(s.free), Elements(s.used), FlightSet(s));
  }

  /** A swap slot is on the free list or belongs to one node, and only one of these. */
  lemma SlotConserved<D>(s: State<D>, k: Slot)
    requires Inv(s) && k in s.disk
    ensures k in s.freeSlots <==> forall n :: n in s.nodes ==> s.nodes[n].slot != k
    ensures forall m, n :: m in s.nodes && n in s.nodes && s.nodes[m].slot == s.nodes[n].slot ==> m == n
  {
    assert SlotOk(s, k);
    forall m, n | m in s.nodes && n in s.nodes && s.nodes[m].slot == s.nodes[n].slot ensures m == n
    {
      assert NodeOk(s, m) && NodeOk(s, n);
    }
    forall n | n in s.nodes && s.nodes[n].slot == k ensures k !in s.freeSlots
    {
      assert NodeOk(s, n);
    }
  }

  /** Over every careful run, pages and slots are conserved and accounted for. */
  lemma RunConserves<D>(r: Run<D>, i: nat)
    requires IsRun(r) && i < |r.states| && CarefulTo(r, i)
    ensures var s := r.states[i];
            && s.usedMemory == 4096 * (|s.used| + |FlightSet(s)|)
            && (forall p :: p in s.mem ==> p in s.free || p in s.used || p in FlightSet(s))
            && (forall p :: p in s.free ==> p !in s.used && p !in FlightSet(s))
            && (forall p :: p in s.used ==> p !in FlightSet(s))
            && (forall k :: k in s.disk ==> (k in s.freeSlots <==> forall n :: n in s.nodes ==> s.nodes[n].slot != k))
            && (forall m, n :: m in s.nodes && n in s.nodes && s.nodes[m].slot == s.nodes[n].slot ==> m == n)
  {
    hide Init, Next, PhaseOk, PageOk, NodeOk, SlotOk, InFlight;
    RunInv(r, i);
    var s := r.states[i];
    UsedMemoryCounts(s);
    forall p | p in s.mem
      ensures p in s.free || p in s.used || InFlight(s, p)
      ensures !(p in s.free && p in s.used) && !(p in s.free && InFlight(s, p)) && !(p in s.used && InFlight(s, p))
    {
      PageConserved(s, p);
    }
    forall k | k in s.disk
      ensures k in s.freeSlots <==> forall n :: n in s.nodes ==> s.nodes[n].slot != k
      ensures forall m, n :: m in s.nodes && n in s.nodes && s.nodes[m].slot == s.nodes[n].slot ==> m == n
    {
      SlotConserved(s, k);
    }
    forall m, n | m in s.nodes && n in s.nodes && s.nodes[m].slot == s.nodes[n].slot ensures m == n
    {
      OneOwner(s, m, n);
    }
  }

  lemma OneOwner<D>(s: State<D>, m: NodeId, n: NodeId)
    requires Inv(s) && m in s.nodes && n in s.nodes && s.nodes[m].slot == s.nodes[n].slot
    ensures m == n
  {
    assert NodeOk(s, m) && NodeOk(s, n);
  }
}
