/**
 What becomes of a swap slot when its address is given up: nothing gives it back. A later swap-out cannot use it, and no
 fault leads to it.
 */
module PagingSlots {
  import opened Paging
  import opened PagingRuns

  /** The fault service or the sleep at an address is on node `n`. */
  predicate On(ph: Phase, n: NodeId) {
    (Sleeping(ph) || ph.Fetching? || ph.Loaded? || ph.Remapped?) && ph.node == n
  }

  /** Nobody is at work on node `n`, nor will be. */
  ghost predicate Orphan<D>(s: State<D>, n: NodeId) {
    n in s.nodes && n !in s.out && n !in s.releasing && forall a :: a in s.phase ==> !On(s.phase[a], n)
  }

  lemma AllocOrphan<D>(s: State<D>, l: Step<D>, t: State<D>, n: NodeId)
    requires AllocNext(s, l, t) && Orphan(s, n)
    ensures Orphan(t, n) && t.nodes[n].slot == s.nodes[n].slot
  {
    hide AllocNext;
    AllocLeaves(s, l, t);
  }

  lemma EvictOrphan<D>(s: State<D>, l: Step<D>, t: State<D>, n: NodeId)
    requires EvictNext(s, l, t) && Orphan(s, n)
    ensures Orphan(t, n) && t.nodes[n].slot == s.nodes[n].slot
  {
    hide Without, Settled;
  }

  lemma OutOrphan<D>(s: State<D>, l: Step<D>, t: State<D>, n: NodeId)
    requires OutNext(s, l, t) && Orphan(s, n)
    ensures Orphan(t, n) && t.nodes[n].slot == s.nodes[n].slot
  {
    hide OutNext;
    OutLeaves(s, l, t);
  }

  lemma FaultOrphan<D>(s: State<D>, l: Step<D>, t: State<D>, n: NodeId)
    requires Inv(s) && FaultNext(s, l, t) && Orphan(s, n)
    ensures Orphan(t, n) && t.nodes[n].slot == s.nodes[n].slot
  {
    hide Inv, FindCached;
    if l.FaultSwapIn? { EntryFindsNode(s, l.a); }
  }

  lemma TakeOrphan<D>(s: State<D>, l: Step<D>, t: State<D>, n: NodeId)
    requires TakeNext(s, l, t) && Orphan(s, n)
    ensures Orphan(t, n) && t.nodes[n].slot == s.nodes[n].slot
  {
  }

  lemma InOrphan<D>(s: State<D>, l: Step<D>, t: State<D>, n: NodeId)
    requires InNext(s, l, t) && Orphan(s, n)
    ensures Orphan(t, n) && t.nodes[n].slot == s.nodes[n].slot
  {
    hide InNext;
    InLeaves(s, l, t);
  }

  lemma OrphanStays<D>(s: State<D>, l: Step<D>, t: State<D>, n: NodeId)
    requires Inv(s) && Next(s, l, t) && Orphan(s, n)
    ensures Orphan(t, n) && t.nodes[n].slot == s.nodes[n].slot
  {
    hide AllocNext, EvictNext, OutNext, FaultNext, TakeNext, InNext, Orphan, Inv;
    if AllocNext(s, l, t) {
      AllocOrphan(s, l, t, n);
    } else if EvictNext(s, l, t) {
      EvictOrphan(s, l, t, n);
    } else if OutNext(s, l, t) {
      OutOrphan(s, l, t, n);
    } else if FaultNext(s, l, t) {
      FaultOrphan(s, l, t, n);
    } else if TakeNext(s, l, t) {
      TakeOrphan(s, l, t, n);
    } else {
      InOrphan(s, l, t, n);
    }
  }

  lemma LeftOrphan<D>(s: State<D>, a: Addr, n: NodeId, t: State<D>)
    requires Inv(s) && EvictNext(s, UnmapAsleep(a, n), t)
    ensures n in s.nodes && Orphan(t, n) && t.nodes == s.nodes
  {
    hide PageOk, NodeOk, SlotOk, ListsOk;
    assert PhaseOk(s, a);
    forall b | b in t.phase ensures !On(t.phase[b], n) { assert PhaseOk(s, b); }
  }

  lemma NotFree<D>(s: State<D>, n: NodeId)
    requires Inv(s) && n in s.nodes
    ensures s.nodes[n].slot !in s.freeSlots
  {
    assert NodeOk(s, n);
  }

  lemma {:induction false} OrphanSince<D>(r: Run<D>, n: NodeId, i: nat, j: nat)
    requires IsRun(r) && i <= j < |r.states| && CarefulTo(r, j) && Orphan(r.states[i], n)
    ensures Orphan(r.states[j], n) && r.states[j].nodes[n].slot == r.states[i].nodes[n].slot
    decreases j - i
  {
    hide Next, Init, Inv, Careful;
    if i < j {
      OrphanSince(r, n, i, j - 1);
      RunInv(r, j - 1);
      var _ := r.steps[j - 1];
      OrphanStays(r.states[j - 1], r.steps[j - 1], r.states[j], n);
    }
  }

  /** In every careful run: the slot of an address that is given up while it is asleep is never free again. */
  lemma SlotLost<D>(r: Run<D>, a: Addr, n: NodeId, i: nat, j: nat)
    requires IsRun(r) && i < j < |r.states| && CarefulTo(r, j) && r.steps[i] == UnmapAsleep(a, n)
    ensures n in r.states[i].nodes && r.states[i].nodes[n].slot !in r.states[j].freeSlots
  {
    hide Init, Inv, Careful, AllocNext, OutNext, FaultNext, TakeNext, InNext, Orphan;
    RunInv(r, i);
    RunInv(r, j);
    assert Next(r.states[i], r.steps[i], r.states[i + 1]);
    Evicts(r.states[i], a, n, r.states[i + 1]);
    LeftOrphan(r.states[i], a, n, r.states[i + 1]);
    OrphanSince(r, n, i + 1, j);
    OrphanNode(r.states[j], n);
    NotFree(r.states[j], n);
  }

  lemma OrphanNode<D>(s: State<D>, n: NodeId)
    requires Orphan(s, n)
    ensures n in s.nodes
  {
  }

  lemma Evicts<D>(s: State<D>, a: Addr, n: NodeId, t: State<D>)
    requires Next(s, UnmapAsleep(a, n), t)
    ensures EvictNext(s, UnmapAsleep(a, n), t)
  {
    hide LeaveSlot;
  }
}
