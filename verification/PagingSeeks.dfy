/**
 The one position of the swap file: runs in which nobody moves it between a seek and the transfer that belongs to it
 are careful with their transfers. A lock held from the seek to the transfer, which the code has and does not take,
 makes every run such a run.
 */
module PagingSeeks {
  import opened Paging
  import opened PagingRuns

  predicate Moves<D>(l: Step<D>) {
    l.OutSeek? || l.OutWrite? || l.InSeek? || l.InRead?
  }

  lemma PosKept<D>(s: State<D>, l: Step<D>, t: State<D>)
    requires Next(s, l, t) && !Moves(l)
    ensures t.pos == s.pos
  {
    hide AllocNext, EvictNext, OutNext, FaultNext, TakeNext, InNext;
    if AllocNext(s, l, t) {
      AllocLeaves(s, l, t);
    } else if EvictNext(s, l, t) {
      EvictLeaves(s, l, t);
    } else if OutNext(s, l, t) {
      OutLeaves(s, l, t);
    } else if FaultNext(s, l, t) {
      FaultLeaves(s, l, t);
    } else if TakeNext(s, l, t) {
      TakeLeaves(s, l, t);
    } else {
      InLeaves(s, l, t);
    }
  }

  // ---------------------------------------------------------------- from seek to write

  lemma AllocSought<D>(s: State<D>, l: Step<D>, t: State<D>, n: NodeId)
    requires AllocNext(s, l, t) && AtOut(t, n, Sought)
    ensures AtOut(s, n, Sought) && s.nodes[n].slot == t.nodes[n].slot
  {
    hide AllocNext;
    AllocLeaves(s, l, t);
  }

  lemma EvictSought<D>(s: State<D>, l: Step<D>, t: State<D>, n: NodeId)
    requires EvictNext(s, l, t) && AtOut(t, n, Sought)
    ensures AtOut(s, n, Sought) && s.nodes[n].slot == t.nodes[n].slot
  {
    hide Without, Settled;
  }

  lemma OutSought<D>(s: State<D>, l: Step<D>, t: State<D>, n: NodeId)
    requires OutNext(s, l, t) && !Moves(l) && AtOut(t, n, Sought)
    ensures AtOut(s, n, Sought) && s.nodes[n].slot == t.nodes[n].slot
  {
    hide OutNext;
    OutLeaves(s, l, t);
  }

  lemma FaultSought<D>(s: State<D>, l: Step<D>, t: State<D>, n: NodeId)
    requires FaultNext(s, l, t) && AtOut(t, n, Sought)
    ensures AtOut(s, n, Sought) && s.nodes[n].slot == t.nodes[n].slot
  {
    hide FindCached;
  }

  lemma TakeSought<D>(s: State<D>, l: Step<D>, t: State<D>, n: NodeId)
    requires TakeNext(s, l, t) && AtOut(t, n, Sought)
    ensures AtOut(s, n, Sought) && s.nodes[n].slot == t.nodes[n].slot
  {
  }

  lemma InSought<D>(s: State<D>, l: Step<D>, t: State<D>, n: NodeId)
    requires InNext(s, l, t) && AtOut(t, n, Sought)
    ensures AtOut(s, n, Sought) && s.nodes[n].slot == t.nodes[n].slot
  {
    hide InNext;
    InLeaves(s, l, t);
  }

  lemma SoughtBefore<D>(s: State<D>, l: Step<D>, t: State<D>, n: NodeId)
    requires Next(s, l, t) && !Moves(l) && AtOut(t, n, Sought)
    ensures AtOut(s, n, Sought) && s.nodes[n].slot == t.nodes[n].slot
  {
    hide AllocNext, EvictNext, OutNext, FaultNext, TakeNext, InNext, AtOut;
    if AllocNext(s, l, t) {
      AllocSought(s, l, t, n);
    } else if EvictNext(s, l, t) {
      EvictSought(s, l, t, n);
    } else if OutNext(s, l, t) {
      OutSought(s, l, t, n);
    } else if FaultNext(s, l, t) {
      FaultSought(s, l, t, n);
    } else if TakeNext(s, l, t) {
      TakeSought(s, l, t, n);
    } else {
      InSought(s, l, t, n);
    }
  }

  /** From the write of a swap-out back to its seek, the position and the slot are the same. */
  lemma {:induction false} SoughtSince<D>(r: Run<D>, n: NodeId, j: nat, k: nat)
    requires IsRun(r) && j <= k < |r.states| && AtOut(r.states[k], n, Sought)
    requires forall i :: j <= i < k ==> !Moves(r.steps[i])
    ensures AtOut(r.states[j], n, Sought) && r.states[j].pos == r.states[k].pos
    ensures r.states[j].nodes[n].slot == r.states[k].nodes[n].slot
    decreases k - j
  {
    hide Next, Init, AtOut, Moves;
    if j < k {
      var _ := r.steps[k - 1];
      SoughtBefore(r.states[k - 1], r.steps[k - 1], r.states[k], n);
      PosKept(r.states[k - 1], r.steps[k - 1], r.states[k]);
      SoughtSince(r, n, j, k - 1);
    }
  }

  lemma Seeks<D>(s: State<D>, n: NodeId, t: State<D>)
    requires Next(s, OutSeek(n), t)
    ensures n in t.nodes && t.pos == t.nodes[n].slot
  {
    assert t == SeekOut(s, n, s.nodes[n]);
  }

  lemma Writes<D>(s: State<D>, n: NodeId, t: State<D>)
    requires Next(s, OutWrite(n), t)
    ensures AtOut(s, n, Sought) && s.nodes[n].page in s.mem
  {
    hide WriteSlot;
  }

  lemma GuardedWrite<D>(r: Run<D>, n: NodeId, j: nat, k: nat)
    requires IsRun(r) && j < k < |r.steps| && r.steps[j] == OutSeek(n) && r.steps[k] == OutWrite(n)
    requires forall i :: j < i < k ==> !Moves(r.steps[i])
    ensures Careful(r.states[k], r.steps[k])
  {
    hide Next, Init, Moves;
    assert Next(r.states[k], r.steps[k], r.states[k + 1]) && Next(r.states[j], r.steps[j], r.states[j + 1]);
    Writes(r.states[k], n, r.states[k + 1]);
    SoughtSince(r, n, j + 1, k);
    Seeks(r.states[j], n, r.states[j + 1]);
  }

  // ---------------------------------------------------------------- from seek to read

  /** The swap-in at `a` has set the position, and has not read yet. */
  predicate Aiming<D>(s: State<D>, a: Addr, n: NodeId) {
    a in s.phase && n in s.nodes && (s.phase[a] == Aimed(n) || (s.phase[a].Fetching? && s.phase[a].node == n))
  }

  lemma AllocAiming<D>(s: State<D>, l: Step<D>, t: State<D>, a: Addr, n: NodeId)
    requires AllocNext(s, l, t) && Aiming(t, a, n)
    ensures Aiming(s, a, n) && s.nodes[n].slot == t.nodes[n].slot
  {
    hide AllocNext;
    AllocLeaves(s, l, t);
  }

  lemma EvictAiming<D>(s: State<D>, l: Step<D>, t: State<D>, a: Addr, n: NodeId)
    requires EvictNext(s, l, t) && Aiming(t, a, n) && (a in s.phase ==> PhaseOk(s, a))
    ensures Aiming(s, a, n) && s.nodes[n].slot == t.nodes[n].slot
  {
    hide Without, Settled;
  }

  lemma OutAiming<D>(s: State<D>, l: Step<D>, t: State<D>, a: Addr, n: NodeId)
    requires OutNext(s, l, t) && Aiming(t, a, n)
    ensures Aiming(s, a, n) && s.nodes[n].slot == t.nodes[n].slot
  {
    hide OutNext;
    OutLeaves(s, l, t);
  }

  lemma FaultAiming<D>(s: State<D>, l: Step<D>, t: State<D>, a: Addr, n: NodeId)
    requires FaultNext(s, l, t) && Aiming(t, a, n)
    ensures Aiming(s, a, n) && s.nodes[n].slot == t.nodes[n].slot
  {
    hide FindCached;
  }

  lemma TakeAiming<D>(s: State<D>, l: Step<D>, t: State<D>, a: Addr, n: NodeId)
    requires TakeNext(s, l, t) && !Moves(l) && Aiming(t, a, n)
    ensures Aiming(s, a, n) && s.nodes[n].slot == t.nodes[n].slot
  {
  }

  lemma InAiming<D>(s: State<D>, l: Step<D>, t: State<D>, a: Addr, n: NodeId)
    requires InNext(s, l, t) && Aiming(t, a, n)
    ensures Aiming(s, a, n) && s.nodes[n].slot == t.nodes[n].slot
  {
    hide InNext;
    InLeaves(s, l, t);
  }

  lemma AimingBefore<D>(s: State<D>, l: Step<D>, t: State<D>, a: Addr, n: NodeId)
    requires PhasesOk(s) && Next(s, l, t) && !Moves(l) && Aiming(t, a, n)
    ensures Aiming(s, a, n) && s.nodes[n].slot == t.nodes[n].slot
  {
    hide AllocNext, EvictNext, OutNext, FaultNext, TakeNext, InNext, Aiming, PhaseOk;
    if AllocNext(s, l, t) {
      AllocAiming(s, l, t, a, n);
    } else if EvictNext(s, l, t) {
      if a in s.phase { assert PhaseOk(s, a); }
      EvictAiming(s, l, t, a, n);
    } else if OutNext(s, l, t) {
      OutAiming(s, l, t, a, n);
    } else if FaultNext(s, l, t) {
      FaultAiming(s, l, t, a, n);
    } else if TakeNext(s, l, t) {
      TakeAiming(s, l, t, a, n);
    } else {
      InAiming(s, l, t, a, n);
    }
  }

  /** From the read of a swap-in back to its seek, the position and the slot are the same. */
  lemma {:induction false} AimingSince<D>(r: Run<D>, a: Addr, n: NodeId, j: nat, k: nat)
    requires IsRun(r) && j <= k < |r.states| && CarefulTo(r, k) && Aiming(r.states[k], a, n)
    requires forall i :: j <= i < k ==> !Moves(r.steps[i])
    ensures Aiming(r.states[j], a, n) && r.states[j].pos == r.states[k].pos
    ensures r.states[j].nodes[n].slot == r.states[k].nodes[n].slot
    decreases k - j
  {
    hide Next, Init, Aiming, Moves, Careful, PhaseOk, PageOk, NodeOk, SlotOk, ListsOk;
    if j < k {
      var _ := r.steps[k - 1];
      RunInv(r, k - 1);
      AimingBefore(r.states[k - 1], r.steps[k - 1], r.states[k], a, n);
      PosKept(r.states[k - 1], r.steps[k - 1], r.states[k]);
      AimingSince(r, a, n, j, k - 1);
    }
  }

  lemma Aims<D>(s: State<D>, a: Addr, n: NodeId, t: State<D>)
    requires Next(s, InSeek(a, n), t)
    ensures n in t.nodes && t.pos == t.nodes[n].slot
  {
    assert t == Turn(s, a, Aimed(n), s.nodes[n].slot);
  }

  lemma Reading<D>(s: State<D>, a: Addr, n: NodeId, p: Page, t: State<D>)
    requires Next(s, InRead(a, n, p), t)
    ensures Aiming(s, a, n) && s.pos in s.disk
  {
    hide ReadSlot;
  }

  lemma GuardedRead<D>(r: Run<D>, a: Addr, n: NodeId, p: Page, j: nat, k: nat)
    requires IsRun(r) && j < k < |r.steps| && CarefulTo(r, k)
    requires r.steps[j] == InSeek(a, n) && r.steps[k] == InRead(a, n, p)
    requires forall i :: j < i < k ==> !Moves(r.steps[i])
    ensures Careful(r.states[k], r.steps[k])
  {
    hide Next, Init, Moves;
    assert Next(r.states[k], r.steps[k], r.states[k + 1]) && Next(r.states[j], r.steps[j], r.states[j + 1]);
    Reading(r.states[k], a, n, p, r.states[k + 1]);
    AimingSince(r, a, n, j + 1, k);
    Aims(r.states[j], a, n, r.states[j + 1]);
  }

  // ---------------------------------------------------------------- whole runs

  /** If step `k` is a transfer, its own seek comes before it, with no other seek or transfer in between. */
  ghost predicate Guarded<D>(r: Run<D>, k: nat)
    requires k < |r.steps|
  {
    match r.steps[k]
    case OutWrite(n) => exists j :: 0 <= j < k && r.steps[j] == OutSeek(n) && Quiet(r, j, k)
    case InRead(a, n, _) => exists j :: 0 <= j < k && r.steps[j] == InSeek(a, n) && Quiet(r, j, k)
    case _ => true
  }

  ghost predicate Quiet<D>(r: Run<D>, j: nat, k: nat)
    requires k < |r.steps|
  {
    forall i :: j < i < k ==> !Moves(r.steps[i])
  }

  lemma GuardedStep<D>(r: Run<D>, k: nat)
    requires IsRun(r) && k < |r.steps| && CarefulTo(r, k) && Guarded(r, k)
    requires r.steps[k].OutWrite? || r.steps[k].InRead?
    ensures Careful(r.states[k], r.steps[k])
  {
    hide IsRun, Careful, CarefulTo, Moves;
    if r.steps[k].OutWrite? {
      var n := r.steps[k].n;
      var j :| 0 <= j < k && r.steps[j] == OutSeek(n) && Quiet(r, j, k);
      GuardedWrite(r, n, j, k);
    } else {
      var a, n, p := r.steps[k].a, r.steps[k].n, r.steps[k].p;
      var j :| 0 <= j < k && r.steps[j] == InSeek(a, n) && Quiet(r, j, k);
      GuardedRead(r, a, n, p, j, k);
    }
  }

  /** With guarded transfers, a run whose other steps are careful is careful. */
  lemma {:induction false} GuardedCareful<D>(r: Run<D>, n: nat)
    requires IsRun(r) && n <= |r.steps|
    requires forall k :: 0 <= k < n ==> Guarded(r, k)
    requires forall k :: 0 <= k < n ==> r.steps[k].OutWrite? || r.steps[k].InRead? || Careful(r.states[k], r.steps[k])
    ensures CarefulTo(r, n)
  {
    hide Next, Init, Careful, Guarded;
    if n > 0 {
      GuardedCareful(r, n - 1);
      if r.steps[n - 1].OutWrite? || r.steps[n - 1].InRead? { GuardedStep(r, n - 1); }
    }
  }

  // ---------------------------------------------------------------- a transfer moves the position

  lemma Transfers<D>(s: State<D>, l: Step<D>, t: State<D>)
    requires Next(s, l, t) && (l.OutWrite? || l.InRead?)
    ensures t.pos == s.pos + 1
    ensures l.InRead? ==> s.pos in s.disk && l.p in t.mem && t.mem[l.p] == s.disk[s.pos] && t.disk == s.disk
    ensures l.OutWrite? ==>
      && l.n in s.nodes && s.nodes[l.n].page in s.mem && t.disk.Keys == s.disk.Keys
      && (s.pos in s.disk ==> t.disk[s.pos] == s.mem[s.nodes[l.n].page])
      && (forall k :: k in s.disk && k != s.pos ==> t.disk[k] == s.disk[k])
  {
    hide AllocNext, EvictNext, FaultNext, TakeNext;
    if l.InRead? {
      assert t == ReadSlot(s, l.a, l.n, l.p);
    } else {
      assert t == WriteSlot(s, l.n, s.nodes[l.n]);
    }
  }

  /** In every run: of two transfers with no seek in between, whoever makes them, the second one is on the slot behind
      that of the first. */
  lemma NextTransfer<D>(r: Run<D>, j: nat, k: nat)
    requires IsRun(r) && j < k < |r.steps| && (r.steps[j].OutWrite? || r.steps[j].InRead?)
    requires (r.steps[k].OutWrite? || r.steps[k].InRead?) && forall i :: j < i < k ==> !Moves(r.steps[i])
    ensures var x, l, s, t := r.states[j].pos + 1, r.steps[k], r.states[k], r.states[k + 1];
            && (l.InRead? ==> x in s.disk && l.p in t.mem && t.mem[l.p] == s.disk[x])
            && (l.OutWrite? && x in s.disk ==>
                  l.n in s.nodes && s.nodes[l.n].page in s.mem && x in t.disk && t.disk[x] == s.mem[s.nodes[l.n].page])
  {
    hide Next, Init;
    assert Next(r.states[j], r.steps[j], r.states[j + 1]) && Next(r.states[k], r.steps[k], r.states[k + 1]);
    Transfers(r.states[j], r.steps[j], r.states[j + 1]);
    PosSince(r, j + 1, k);
    Transfers(r.states[k], r.steps[k], r.states[k + 1]);
  }

  lemma {:induction false} PosSince<D>(r: Run<D>, j: nat, k: nat)
    requires IsRun(r) && j <= k < |r.states| && forall i :: j <= i < k ==> !Moves(r.steps[i])
    ensures r.states[k].pos == r.states[j].pos
    decreases k - j
  {
    hide Next, Init, Moves;
    if j < k {
      PosSince(r, j, k - 1);
      PosKept(r.states[k - 1], r.steps[k - 1], r.states[k]);
    }
  }
}
