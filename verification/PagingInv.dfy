/**
 Every step of `Paging` keeps the invariant. A step changes little: `Frame` says that what holds elsewhere goes on
 holding. Per step it remains to show what becomes of the address, the page and the node it is about (`...Here`), and
 of the lists (`...Lists`). Holds, marks, transfers and free events that are not as they should be are left to
 `PagingRuns.CarelessBreaks`.
 */
module PagingInv {
  import opened Paging

  // ---------------------------------------------------------------- what a step leaves alone

  predicate PageOf<D>(s: State<D>, p: Page, x: Addr) {
    p in s.place && (s.place[p] == Of(x) || s.place[p] == Taken(x))
  }

  ghost predicate SameAt<D>(s: State<D>, t: State<D>, x: Addr) {
    && (x in t.phase <==> x in s.phase) && (x in s.phase ==> t.phase[x] == s.phase[x])
    && (x in t.pt <==> x in s.pt) && (x in s.pt ==> t.pt[x] == s.pt[x])
    && (x in t.hits ==> x in s.hits && t.hits[x] == s.hits[x])
    && (x in t.view <==> x in s.view) && (x in s.view ==> t.view[x] == s.view[x])
    && (forall k :: k in s.disk && Needs(s, x, k) ==> k in t.disk && t.disk[k] == s.disk[k])
  }

  ghost predicate SamePage<D>(s: State<D>, t: State<D>, p: Page) {
    && (p in s.mem ==> p in t.mem && t.mem[p] == s.mem[p])
    && (p in s.place ==> p in t.place && t.place[p] == s.place[p])
    && (p in t.free <==> p in s.free) && (p in t.used <==> p in s.used) && (p in t.dying <==> p in s.dying)
    && (p in s.owner ==> p in t.owner && t.owner[p] == s.owner[p])
  }

  ghost predicate SameNode<D>(s: State<D>, t: State<D>, n: NodeId) {
    && (n in t.nodes <==> n in s.nodes) && (n in s.nodes ==> t.nodes[n] == s.nodes[n])
    && (n in t.out <==> n in s.out) && (n in s.out ==> t.out[n] == s.out[n])
    && (n in t.releasing <==> n in s.releasing) && (n in t.cache <==> n in s.cache)
    && (n in s.nodes && s.nodes[n].slot in s.holder && s.nodes[n].slot !in s.freeSlots ==>
          var k := s.nodes[n].slot; k !in t.freeSlots && k in t.holder && t.holder[k] == s.holder[k])
  }

  /** The pages of address `a` are in `Q` or stay its pages; a swap-out at work on it is in `M` or stays there. */
  ghost predicate Covered<D>(s: State<D>, t: State<D>, a: Addr, Q: set<Page>, M: set<NodeId>)
    requires a in s.phase
  {
    && (forall p :: Has(s, s.phase[a], p) && p !in Q ==>
          a in t.phase && Has(t, t.phase[a], p) && (s.phase[a].Resident? ==> t.phase[a].Resident?))
    && ((s.phase[a].Leaving? || s.phase[a].Retaking? || s.phase[a].Parked?) ==>
          var n := s.phase[a].node;
          || n in M || n !in s.out || n !in s.nodes || s.nodes[n].addr != a
          || (a in t.phase && (t.phase[a] == s.phase[a] ||
                               (s.phase[a].Retaking? && t.phase[a] == Parked(n, s.phase[a].page)))))
  }

  /** The step is about addresses `A`, pages `Q` and nodes `M`. */
  ghost predicate Elsewhere<D>(s: State<D>, t: State<D>, A: set<Addr>, Q: set<Page>, M: set<NodeId>) {
    && t.mem.Keys == s.mem.Keys && t.disk.Keys == s.disk.Keys
    && (forall x {:trigger SameAt(s, t, x)} :: x !in A ==> SameAt(s, t, x))
    && (forall p {:trigger SamePage(s, t, p)} :: p !in Q ==> SamePage(s, t, p))
    && (forall n {:trigger SameNode(s, t, n)} :: n !in M ==> SameNode(s, t, n))
    && (forall p, x {:trigger PageOf(s, p, x)} :: p in Q && PageOf(s, p, x) ==> x in A)
    && (forall n :: n in M && n in s.nodes ==> s.nodes[n].addr in A)
    && (forall a :: a in A && a in s.phase ==> Covered(s, t, a, Q, M))
    && (forall k {:trigger SlotOk(s, k)} :: k in s.disk && SlotOk(s, k) ==> SlotOk(t, k))
  }

  lemma Belongs<D>(s: State<D>, x: Addr)
    requires x in s.phase && PhaseOk(s, x)
    ensures forall p :: Has(s, s.phase[x], p) ==> PageOf(s, p, x)
    ensures var ph := s.phase[x];
            Sleeping(ph) || ph.Leaving? || ph.Fetching? || ph.Loaded? || ph.Remapped? ==>
              ph.node in s.nodes && s.nodes[ph.node].addr == x
  {
  }

  lemma PageKept<D>(s: State<D>, t: State<D>, x: Addr)
    requires x in s.phase && SameAt(s, t, x) && PhaseOk(s, x)
    requires var ph := s.phase[x]; ph.Allocating? || ph.Linking? || ph.Resident? || ph.Retaking? || ph.Parked?
    requires SamePage(s, t, s.phase[x].page)
    ensures x in t.phase && PhaseOk(t, x)
  {
  }

  lemma StoredKept<D>(s: State<D>, t: State<D>, x: Addr)
    requires x in s.phase && SameAt(s, t, x) && PhaseOk(s, x) && Sleeping(s.phase[x])
    requires SameNode(s, t, s.phase[x].node)
    ensures x in t.phase && PhaseOk(t, x)
  {
    assert Needs(s, x, s.nodes[s.phase[x].node].slot);
  }

  lemma LeavingKept<D>(s: State<D>, t: State<D>, x: Addr)
    requires x in s.phase && SameAt(s, t, x) && PhaseOk(s, x) && s.phase[x].Leaving?
    requires SameNode(s, t, s.phase[x].node) && SamePage(s, t, s.nodes[s.phase[x].node].page)
    ensures x in t.phase && PhaseOk(t, x)
  {
    assert s.out[s.phase[x].node].Written? ==> Needs(s, x, s.nodes[s.phase[x].node].slot);
  }

  lemma FetchedKept<D>(s: State<D>, t: State<D>, x: Addr)
    requires x in s.phase && SameAt(s, t, x) && PhaseOk(s, x)
    requires var ph := s.phase[x]; ph.Fetching? || ph.Loaded? || ph.Remapped?
    requires SameNode(s, t, s.phase[x].node) && SamePage(s, t, s.phase[x].page)
    ensures x in t.phase && PhaseOk(t, x)
  {
    assert s.phase[x].Fetching? ==> Needs(s, x, s.nodes[s.phase[x].node].slot);
  }

  lemma AddrFrame<D>(s: State<D>, t: State<D>, A: set<Addr>, Q: set<Page>, M: set<NodeId>, x: Addr)
    requires Elsewhere(s, t, A, Q, M) && x !in A && x in s.phase && PhaseOk(s, x)
    ensures x in t.phase && PhaseOk(t, x)
  {
    hide PhaseOk, SameAt, SamePage, SameNode, PageOf;
    var ph := s.phase[x];
    Belongs(s, x);
    assert SameAt(s, t, x);
    if Sleeping(ph) {
      assert SameNode(s, t, ph.node);
      StoredKept(s, t, x);
    } else if ph.Leaving? {
      assert PageOf(s, s.nodes[ph.node].page, x) && SameNode(s, t, ph.node);
      assert SamePage(s, t, s.nodes[ph.node].page);
      LeavingKept(s, t, x);
    } else if ph.Fetching? || ph.Loaded? || ph.Remapped? {
      assert PageOf(s, ph.page, x) && SameNode(s, t, ph.node);
      assert SamePage(s, t, ph.page);
      FetchedKept(s, t, x);
    } else {
      assert PageOf(s, ph.page, x);
      assert SamePage(s, t, ph.page);
      PageKept(s, t, x);
    }
  }

  lemma PageFrame<D>(s: State<D>, t: State<D>, A: set<Addr>, Q: set<Page>, M: set<NodeId>, p: Page)
    requires Elsewhere(s, t, A, Q, M) && p !in Q && PageOk(s, p)
    requires forall x :: x in s.phase ==> PhaseOk(s, x)
    ensures PageOk(t, p)
  {
    hide PhaseOk, SameNode;
    assert SamePage(s, t, p);
    if s.place[p].Of? || s.place[p].Taken? {
      var x := s.place[p].addr;
      Belongs(s, x);
      if x in A {
        assert Covered(s, t, x, Q, M);
      } else {
        assert SameAt(s, t, x);
        if s.phase[x].Leaving? {
          assert SameNode(s, t, s.phase[x].node);
          NodeSame(s, t, s.phase[x].node);
        }
      }
    }
  }

  lemma NodeSame<D>(s: State<D>, t: State<D>, n: NodeId)
    requires SameNode(s, t, n) && n in s.nodes
    ensures n in t.nodes && t.nodes[n] == s.nodes[n]
  {
  }

  lemma NodeFrame<D>(s: State<D>, t: State<D>, A: set<Addr>, Q: set<Page>, M: set<NodeId>, n: NodeId)
    requires Elsewhere(s, t, A, Q, M) && n !in M && n in s.nodes && NodeOk(s, n)
    ensures n in t.nodes && NodeOk(t, n)
  {
    hide PageOf, SamePage, Has;
    assert SameNode(s, t, n);
    var x := s.nodes[n].addr;
    if x in A {
      assert x in s.phase ==> Covered(s, t, x, Q, M);
    } else {
      assert SameAt(s, t, x);
    }
  }

  /** What is shown of addresses `A`, pages `Q` and nodes `M` after the step holds of all. */
  lemma Frame<D>(s: State<D>, t: State<D>, A: set<Addr>, Q: set<Page>, M: set<NodeId>)
    requires Inv(s) && PageListsOk(t) && NodeListsOk(t) && Elsewhere(s, t, A, Q, M)
    requires forall x :: x in A && x !in t.phase ==> x !in t.pt && x !in t.hits && x !in t.view
    requires forall x :: x in A && x in t.phase ==> PhaseOk(t, x)
    requires forall p :: p in Q && p in s.mem ==> PageOk(t, p)
    requires forall n :: n in M && n in t.nodes ==> NodeOk(t, n)
    ensures Inv(t)
  {
    hide PhaseOk, PageOk, NodeOk, SlotOk, SamePage, PageOf, Covered, PageListsOk, NodeListsOk;
    forall x | x !in t.phase ensures x !in t.pt && x !in t.hits && x !in t.view
    {
      if x !in A { assert SameAt(s, t, x); }
    }
    forall x | x in t.phase ensures PhaseOk(t, x)
    {
      if x !in A {
        assert SameAt(s, t, x);
        AddrFrame(s, t, A, Q, M, x);
      }
    }
    forall p | p in t.mem ensures PageOk(t, p)
    {
      if p !in Q { PageFrame(s, t, A, Q, M, p); }
    }
    forall n | n in t.nodes ensures NodeOk(t, n)
    {
      if n !in M {
        assert SameNode(s, t, n);
        NodeFrame(s, t, A, Q, M, n);
      }
    }
    forall k | k in t.disk ensures SlotOk(t, k) { assert SlotOk(s, k); }
  }

  lemma PageListsSame<D>(s: State<D>, t: State<D>)
    requires PageListsOk(s) && t.free == s.free && t.used == s.used && t.dying == s.dying && t.picks == s.picks
    requires t.events == s.events && t.usedMemory == s.usedMemory && t.mem.Keys == s.mem.Keys
    ensures PageListsOk(t)
  {
    assert |t.mem| == |t.mem.Keys| && |s.mem| == |s.mem.Keys|;
  }

  lemma NodeListsSame<D>(s: State<D>, t: State<D>)
    requires NodeListsOk(s) && t.freeSlots == s.freeSlots && t.cache == s.cache && t.disk.Keys == s.disk.Keys
    requires t.out.Keys == s.out.Keys && t.nodes.Keys == s.nodes.Keys && t.releasing == s.releasing
    ensures NodeListsOk(t)
  {
  }

  lemma PagesSame<D>(s: State<D>, t: State<D>)
    requires t.mem == s.mem && t.place == s.place && t.free == s.free && t.used == s.used && t.dying == s.dying
    requires t.owner == s.owner
    ensures forall p :: SamePage(s, t, p)
  {
  }

  lemma NodesSame<D>(s: State<D>, t: State<D>)
    requires t.nodes == s.nodes && t.out == s.out && t.releasing == s.releasing && t.cache == s.cache
    requires t.freeSlots == s.freeSlots && t.holder == s.holder
    ensures forall n :: SameNode(s, t, n)
    ensures forall k :: SlotOk(s, k) ==> SlotOk(t, k)
  {
  }

  // ---------------------------------------------------------------- what a step is about

  lemma Owned<D>(s: State<D>, a: Addr, p: Page)
    requires Inv(s) && a in s.phase && Has(s, s.phase[a], p)
    ensures PhaseOk(s, a) && p in s.mem && PageOk(s, p)
  {
    assert PhaseOk(s, a);
  }

  lemma MappedPage<D>(s: State<D>, a: Addr)
    requires Inv(s) && a in s.pt && s.pt[a].Present?
    ensures a in s.phase && PhaseOk(s, a) && s.pt[a].page in s.mem && PageOk(s, s.pt[a].page)
  {
    assert PhaseOk(s, a);
  }

  lemma SettledPage<D>(s: State<D>, a: Addr, p: Page)
    requires Inv(s) && Settled(s, a, p)
    ensures a in s.phase && PhaseOk(s, a) && PageOk(s, p) && Owns(s, a, p) && p !in s.free && a !in s.hits
  {
    assert PhaseOk(s, a);
  }

  /** A swap-out, its node and the address it is at work on are as they should be. */
  ghost predicate OutOk<D>(s: State<D>, n: NodeId) {
    && n in s.out && n in s.nodes && NodeOk(s, n)
    && s.nodes[n].addr in s.phase && PhaseOk(s, s.nodes[n].addr) && s.nodes[n].page in s.mem
  }

  lemma OutNode<D>(s: State<D>, n: NodeId)
    requires Inv(s) && n in s.out && n in s.nodes
    ensures OutOk(s, n) && PageOk(s, s.nodes[n].page)
  {
    assert NodeOk(s, n);
  }

  lemma OtherSlots<D>(s: State<D>, n: NodeId)
    requires NodesOk(s) && n in s.nodes
    ensures forall m :: m in s.nodes && m != n ==> s.nodes[m].slot != s.nodes[n].slot
  {
    forall m | m in s.nodes && m != n ensures s.nodes[m].slot != s.nodes[n].slot
    {
      assert NodeOk(s, m) && NodeOk(s, n);
    }
  }

  lemma FreeHead<D>(s: State<D>)
    requires Inv(s) && s.free != []
    ensures s.free[0] in s.mem && PageOk(s, s.free[0]) && NoDup(s.free)
    ensures forall a :: a !in s.phase ==> a !in s.pt && a !in s.hits && a !in s.view
  {
    assert s.free[0] in s.free;
  }

  lemma NewNode<D>(s: State<D>, n: NodeId)
    requires Inv(s) && s.freeSlots != [] && n !in s.nodes
    ensures s.freeSlots[0] in s.disk && n !in s.cache && n !in s.releasing && NoDup(s.freeSlots) && NoDup(s.free)
  {
    assert s.freeSlots[0] in s.freeSlots;
  }

  lemma DyingPage<D>(s: State<D>, p: Page)
    requires Inv(s) && p in s.dying
    ensures p in s.mem && PageOk(s, p) && p !in s.free
  {
  }

  lemma ReleasedNode<D>(s: State<D>, n: NodeId)
    requires Inv(s) && n in s.nodes
    ensures NodeOk(s, n) && (s.nodes[n].addr in s.phase ==> PhaseOk(s, s.nodes[n].addr))
  {
  }

  /** Nobody else needs the slot of a node. */
  lemma SlotAlone<D>(s: State<D>, n: NodeId, x: Addr)
    requires Inv(s) && n in s.nodes && x != s.nodes[n].addr
    ensures !Needs(s, x, s.nodes[n].slot)
  {
    hide SlotOk, PageOk, ListsOk;
    OtherSlots(s, n);
    if x in s.phase { assert PhaseOk(s, x); }
  }

  // ---------------------------------------------------------------- the steps

  lemma TakePageHere<D>(s: State<D>, t: State<D>, a: Addr)
    requires a !in s.phase && s.free != [] && t == TakePage(s, a) && s.free[0] in s.mem && PageOk(s, s.free[0])
    requires a !in s.pt && a !in s.hits && a !in s.view && NoDup(s.free)
    ensures PhaseOk(t, a) && PageOk(t, s.free[0])
  {
    NoDupTail(s.free);
  }

  lemma TakePageApart<D>(s: State<D>, t: State<D>, a: Addr)
    requires a !in s.phase && s.free != [] && t == TakePage(s, a) && s.free[0] in s.mem && PageOk(s, s.free[0])
    requires a !in s.pt && a !in s.hits && a !in s.view && NoDup(s.free)
    ensures Elsewhere(s, t, {a}, {s.free[0]}, {})
  {
    hide SameNode, SlotOk;
    NoDupTail(s.free);
    NodesSame(s, t);
    forall x | x != a ensures SameAt(s, t, x) { }
    forall q | q != s.free[0] ensures SamePage(s, t, q) { }
  }

  lemma TakePagePageLists<D>(s: State<D>, t: State<D>, a: Addr)
    requires PageListsOk(s) && s.free != [] && t == TakePage(s, a)
    ensures PageListsOk(t)
  {
    NoDupTail(s.free);
  }

  lemma TakePageKeeps<D>(s: State<D>, t: State<D>, a: Addr)
    requires Inv(s) && a !in s.phase && s.free != [] && t == TakePage(s, a)
    ensures Inv(t)
  {
    hide PhaseOk, PageOk, NodeOk, SlotOk, PageListsOk, NodeListsOk, Elsewhere;
    FreeHead(s);
    TakePageHere(s, t, a);
    TakePageApart(s, t, a);
    TakePagePageLists(s, t, a);
    NodeListsSame(s, t);
    Frame(s, t, {a}, {s.free[0]}, {});
  }

  lemma PutBackHere<D>(s: State<D>, t: State<D>, a: Addr, p: Page)
    requires In(s, a, Allocating(p)) && t == PutBack(s, a, p) && PhaseOk(s, a) && PageOk(s, p)
    ensures a !in t.phase && a !in t.pt && a !in t.hits && a !in t.view && PageOk(t, p)
    ensures p in s.mem && p !in s.free
  {
  }

  lemma PutBackApart<D>(s: State<D>, t: State<D>, a: Addr, p: Page)
    requires In(s, a, Allocating(p)) && t == PutBack(s, a, p) && PhaseOk(s, a) && PageOk(s, p)
    ensures Elsewhere(s, t, {a}, {p}, {})
  {
    hide SameNode, SlotOk;
    NodesSame(s, t);
    forall x | x != a ensures SameAt(s, t, x) { }
    assert Covered(s, t, a, {p}, {});
    forall q | q != p ensures SamePage(s, t, q) { }
  }

  lemma PutBackPageLists<D>(s: State<D>, t: State<D>, a: Addr, p: Page)
    requires PageListsOk(s) && p in s.mem && p !in s.free && t == PutBack(s, a, p)
    ensures PageListsOk(t)
  {
    NoDupEnds(s.free, p);
  }

  lemma PutBackKeeps<D>(s: State<D>, t: State<D>, a: Addr, p: Page)
    requires Inv(s) && In(s, a, Allocating(p)) && t == PutBack(s, a, p)
    ensures Inv(t)
  {
    hide PhaseOk, PageOk, NodeOk, SlotOk, PageListsOk, NodeListsOk, Elsewhere;
    Owned(s, a, p);
    PutBackHere(s, t, a, p);
    PutBackApart(s, t, a, p);
    PutBackPageLists(s, t, a, p);
    NodeListsSame(s, t);
    Frame(s, t, {a}, {p}, {});
  }

  lemma MapPageHere<D>(s: State<D>, t: State<D>, a: Addr, p: Page)
    requires In(s, a, Allocating(p)) && p in s.mem && t == MapPage(s, a, p) && PhaseOk(s, a) && PageOk(s, p)
    ensures PhaseOk(t, a)
  {
  }

  lemma MapPageApart<D>(s: State<D>, t: State<D>, a: Addr, p: Page)
    requires In(s, a, Allocating(p)) && p in s.mem && t == MapPage(s, a, p) && PhaseOk(s, a) && PageOk(s, p)
    ensures Elsewhere(s, t, {a}, {}, {})
  {
    hide SamePage, PageOf, SameNode, SlotOk;
    PagesSame(s, t);
    NodesSame(s, t);
    forall x | x != a ensures SameAt(s, t, x) { }
    assert Covered(s, t, a, {}, {});
  }

  lemma MapPageKeeps<D>(s: State<D>, t: State<D>, a: Addr, p: Page)
    requires Inv(s) && In(s, a, Allocating(p)) && p in s.mem && t == MapPage(s, a, p)
    ensures Inv(t)
  {
    hide PhaseOk, PageOk, NodeOk, SlotOk, PageListsOk, NodeListsOk, Elsewhere;
    Owned(s, a, p);
    MapPageHere(s, t, a, p);
    MapPageApart(s, t, a, p);
    PageListsSame(s, t);
    NodeListsSame(s, t);
    Frame(s, t, {a}, {}, {});
  }

  lemma LinkPageHere<D>(s: State<D>, t: State<D>, a: Addr, p: Page)
    requires In(s, a, Linking(p)) && t == LinkPage(s, a, p) && PhaseOk(s, a) && PageOk(s, p)
    ensures PhaseOk(t, a) && PageOk(t, p)
    ensures p in s.mem && p !in s.used
  {
  }

  lemma LinkPageApart<D>(s: State<D>, t: State<D>, a: Addr, p: Page)
    requires In(s, a, Linking(p)) && t == LinkPage(s, a, p) && PhaseOk(s, a) && PageOk(s, p)
    ensures Elsewhere(s, t, {a}, {p}, {})
  {
    hide SameNode, SlotOk;
    NodesSame(s, t);
    forall x | x != a ensures SameAt(s, t, x) { }
    assert Covered(s, t, a, {p}, {});
    forall q | q != p ensures SamePage(s, t, q) { }
  }

  lemma LinkPagePageLists<D>(s: State<D>, t: State<D>, a: Addr, p: Page)
    requires PageListsOk(s) && p in s.mem && p !in s.used && t == LinkPage(s, a, p)
    ensures PageListsOk(t)
  {
    NoDupEnds(s.used, p);
  }

  lemma LinkPageKeeps<D>(s: State<D>, t: State<D>, a: Addr, p: Page)
    requires Inv(s) && In(s, a, Linking(p)) && t == LinkPage(s, a, p)
    ensures Inv(t)
  {
    hide PhaseOk, PageOk, NodeOk, SlotOk, PageListsOk, NodeListsOk, Elsewhere;
    Owned(s, a, p);
    LinkPageHere(s, t, a, p);
    LinkPageApart(s, t, a, p);
    LinkPagePageLists(s, t, a, p);
    NodeListsSame(s, t);
    Frame(s, t, {a}, {p}, {});
  }

  lemma WriteToHere<D>(s: State<D>, t: State<D>, a: Addr, p: Page, d: D)
    requires a in s.pt && s.pt[a] == Present(p) && t == WriteTo(s, a, p, d)
    requires a in s.phase && PhaseOk(s, a) && p in s.mem && PageOk(s, p)
    ensures PhaseOk(t, a) && PageOk(t, p)
  {
  }

  lemma WriteToApart<D>(s: State<D>, t: State<D>, a: Addr, p: Page, d: D)
    requires a in s.pt && s.pt[a] == Present(p) && t == WriteTo(s, a, p, d)
    requires a in s.phase && PhaseOk(s, a) && p in s.mem && PageOk(s, p)
    ensures Elsewhere(s, t, {a}, {p}, {})
  {
    hide SameNode, SlotOk;
    NodesSame(s, t);
    forall x | x != a ensures SameAt(s, t, x) { }
    assert Covered(s, t, a, {p}, {});
    forall q | q != p ensures SamePage(s, t, q) { }
  }

  lemma WriteToKeeps<D>(s: State<D>, t: State<D>, a: Addr, p: Page, d: D)
    requires Inv(s) && a in s.pt && s.pt[a] == Present(p) && t == WriteTo(s, a, p, d)
    ensures Inv(t)
  {
    hide PhaseOk, PageOk, NodeOk, SlotOk, PageListsOk, NodeListsOk, Elsewhere;
    MappedPage(s, a);
    WriteToHere(s, t, a, p, d);
    WriteToApart(s, t, a, p, d);
    PageListsSame(s, t);
    NodeListsSame(s, t);
    Frame(s, t, {a}, {p}, {});
  }

  lemma PickPageApart<D>(s: State<D>, t: State<D>, e: nat)
    requires s.used != [] && t == PickPage(s, e)
    ensures Elsewhere(s, t, {}, {}, {})
  {
    hide SamePage, PageOf, SameNode, SlotOk;
    PagesSame(s, t);
    NodesSame(s, t);
    forall x ensures SameAt(s, t, x) { }
  }

  lemma PickPagePageLists<D>(s: State<D>, t: State<D>, e: nat)
    requires PageListsOk(s) && s.used != [] && t == PickPage(s, e)
    ensures PageListsOk(t)
  {
  }

  lemma PickPageKeeps<D>(s: State<D>, t: State<D>, e: nat)
    requires Inv(s) && s.used != [] && t == PickPage(s, e)
    ensures Inv(t)
  {
    hide PhaseOk, PageOk, NodeOk, SlotOk, PageListsOk, NodeListsOk, Elsewhere;
    PickPageApart(s, t, e);
    PickPagePageLists(s, t, e);
    NodeListsSame(s, t);
    Frame(s, t, {}, {}, {});
  }

  lemma StartSwapOutHere<D>(s: State<D>, t: State<D>, e: nat, p: Page, n: NodeId)
    requires n !in s.nodes && s.freeSlots != [] && p in s.owner && Settled(s, s.owner[p], p)
    requires t == StartSwapOut(s, e, p, n) && PhaseOk(s, s.owner[p]) && PageOk(s, p) && p !in s.free
    requires s.freeSlots[0] in s.disk && n !in s.cache && n !in s.releasing && NoDup(s.freeSlots) && NoDup(s.free)
    ensures s.owner[p] in t.phase && PhaseOk(t, s.owner[p]) && PageOk(t, p) && NodeOk(t, n)
  {
  }

  lemma StartSwapOutNodes<D>(s: State<D>, t: State<D>, e: nat, p: Page, n: NodeId)
    requires n !in s.nodes && s.freeSlots != [] && p in s.owner && NoDup(s.freeSlots) && t == StartSwapOut(s, e, p, n)
    ensures forall m :: m != n ==> SameNode(s, t, m)
    ensures forall k :: SlotOk(s, k) ==> SlotOk(t, k)
  {
    NoDupTail(s.freeSlots);
  }

  lemma StartSwapOutApart<D>(s: State<D>, t: State<D>, e: nat, p: Page, n: NodeId)
    requires n !in s.nodes && s.freeSlots != [] && p in s.owner && Settled(s, s.owner[p], p)
    requires t == StartSwapOut(s, e, p, n) && Owns(s, s.owner[p], p)
    requires NoDup(s.freeSlots) && NoDup(s.free) && p !in s.free
    ensures Elsewhere(s, t, {s.owner[p]}, {p}, {n})
  {
    hide SameNode, SlotOk;
    StartSwapOutNodes(s, t, e, p, n);
    WithoutSize(s.free, p);
    forall x | x != s.owner[p] ensures SameAt(s, t, x) { }
    assert Covered(s, t, s.owner[p], {p}, {n});
    forall q | q != p ensures SamePage(s, t, q) { }
  }

  lemma StartSwapOutPageLists<D>(s: State<D>, t: State<D>, e: nat, p: Page, n: NodeId)
    requires PageListsOk(s) && p in s.owner && s.freeSlots != [] && p !in s.free && t == StartSwapOut(s, e, p, n)
    ensures PageListsOk(t)
  {
    WithoutSize(s.free, p);
    NoDupWithout(s.used, p);
  }

  lemma StartSwapOutNodeLists<D>(s: State<D>, t: State<D>, e: nat, p: Page, n: NodeId)
    requires NodeListsOk(s) && p in s.owner && s.freeSlots != [] && t == StartSwapOut(s, e, p, n)
    ensures NodeListsOk(t)
  {
    NoDupTail(s.freeSlots);
  }

  lemma StartSwapOutKeeps<D>(s: State<D>, t: State<D>, e: nat, p: Page, n: NodeId)
    requires Inv(s) && n !in s.nodes && s.freeSlots != [] && p in s.owner && Settled(s, s.owner[p], p)
    requires t == StartSwapOut(s, e, p, n)
    ensures Inv(t)
  {
    hide PhaseOk, PageOk, NodeOk, SlotOk, PageListsOk, NodeListsOk, Elsewhere, Settled, NoDup, StartSwapOut;
    SettledPage(s, s.owner[p], p);
    NewNode(s, n);
    StartSwapOutHere(s, t, e, p, n);
    StartSwapOutApart(s, t, e, p, n);
    StartSwapOutPageLists(s, t, e, p, n);
    StartSwapOutNodeLists(s, t, e, p, n);
    Frame(s, t, {s.owner[p]}, {p}, {n});
  }

  lemma ReclaimDeadHere<D>(s: State<D>, t: State<D>, e: nat, p: Page)
    requires p in s.dying && t == ReclaimDead(s, e, p) && p in s.mem && PageOk(s, p)
    ensures PageOk(t, p)
  {
  }

  lemma ReclaimDeadApart<D>(s: State<D>, t: State<D>, e: nat, p: Page)
    requires p in s.dying && t == ReclaimDead(s, e, p) && p in s.mem && PageOk(s, p)
    ensures Elsewhere(s, t, {}, {p}, {})
  {
    hide SameNode, SlotOk;
    NodesSame(s, t);
    forall x ensures SameAt(s, t, x) { }
    forall q | q != p ensures SamePage(s, t, q) { }
  }

  lemma ReclaimDeadPageLists<D>(s: State<D>, t: State<D>, e: nat, p: Page)
    requires PageListsOk(s) && p in s.mem && p !in s.free && t == ReclaimDead(s, e, p)
    ensures PageListsOk(t)
  {
    WithoutSize(s.free, p);
    NoDupWithout(s.used, p);
    NoDupEnds(s.free, p);
  }

  lemma ReclaimDeadKeeps<D>(s: State<D>, t: State<D>, e: nat, p: Page)
    requires Inv(s) && p in s.dying && t == ReclaimDead(s, e, p)
    ensures Inv(t)
  {
    hide PhaseOk, PageOk, NodeOk, SlotOk, PageListsOk, NodeListsOk, Elsewhere;
    DyingPage(s, p);
    ReclaimDeadHere(s, t, e, p);
    ReclaimDeadApart(s, t, e, p);
    ReclaimDeadPageLists(s, t, e, p);
    NodeListsSame(s, t);
    Frame(s, t, {}, {p}, {});
  }

  lemma EnterCacheHere<D>(s: State<D>, t: State<D>, n: NodeId)
    requires AtOut(s, n, Created) && t == EnterCache(s, n) && OutOk(s, n)
    ensures PhaseOk(t, s.nodes[n].addr) && NodeOk(t, n)
    ensures n !in s.cache
  {
  }

  lemma EnterCacheApart<D>(s: State<D>, t: State<D>, n: NodeId)
    requires AtOut(s, n, Created) && t == EnterCache(s, n) && OutOk(s, n)
    ensures Elsewhere(s, t, {s.nodes[n].addr}, {}, {n})
  {
    hide SamePage, PageOf;
    PagesSame(s, t);
    forall x | x != s.nodes[n].addr ensures SameAt(s, t, x) { }
    assert Covered(s, t, s.nodes[n].addr, {}, {n});
    forall m | m != n ensures SameNode(s, t, m) { }
  }

  lemma EnterCacheNodeLists<D>(s: State<D>, t: State<D>, n: NodeId)
    requires NodeListsOk(s) && n in s.out && n !in s.cache && t == EnterCache(s, n)
    ensures NodeListsOk(t)
  {
    NoDupEnds(s.cache, n);
  }

  lemma EnterCacheKeeps<D>(s: State<D>, t: State<D>, n: NodeId)
    requires Inv(s) && AtOut(s, n, Created) && t == EnterCache(s, n)
    ensures Inv(t)
  {
    hide PhaseOk, PageOk, NodeOk, SlotOk, PageListsOk, NodeListsOk, Elsewhere, OutOk;
    OutNode(s, n);
    EnterCacheHere(s, t, n);
    EnterCacheApart(s, t, n);
    PageListsSame(s, t);
    EnterCacheNodeLists(s, t, n);
    Frame(s, t, {s.nodes[n].addr}, {}, {n});
  }

  lemma ClearPteHere<D>(s: State<D>, t: State<D>, n: NodeId)
    requires AtOut(s, n, Cached) && t == ClearPte(s, n, s.nodes[n]) && OutOk(s, n)
    ensures PhaseOk(t, s.nodes[n].addr) && NodeOk(t, n)
  {
  }

  lemma ClearPteApart<D>(s: State<D>, t: State<D>, n: NodeId)
    requires AtOut(s, n, Cached) && t == ClearPte(s, n, s.nodes[n]) && OutOk(s, n)
    ensures Elsewhere(s, t, {s.nodes[n].addr}, {}, {n})
  {
    hide SamePage, PageOf;
    PagesSame(s, t);
    forall x | x != s.nodes[n].addr ensures SameAt(s, t, x) { }
    assert Covered(s, t, s.nodes[n].addr, {}, {n});
    forall m | m != n ensures SameNode(s, t, m) { }
  }

  lemma ClearPteKeeps<D>(s: State<D>, t: State<D>, n: NodeId)
    requires Inv(s) && AtOut(s, n, Cached) && t == ClearPte(s, n, s.nodes[n])
    ensures Inv(t)
  {
    hide PhaseOk, PageOk, NodeOk, SlotOk, PageListsOk, NodeListsOk, Elsewhere, OutOk;
    OutNode(s, n);
    ClearPteHere(s, t, n);
    ClearPteApart(s, t, n);
    PageListsSame(s, t);
    NodeListsSame(s, t);
    Frame(s, t, {s.nodes[n].addr}, {}, {n});
  }

  lemma SeekOutHere<D>(s: State<D>, t: State<D>, n: NodeId)
    requires AtOut(s, n, Cleared) && t == SeekOut(s, n, s.nodes[n]) && OutOk(s, n)
    ensures PhaseOk(t, s.nodes[n].addr) && NodeOk(t, n)
  {
  }

  lemma SeekOutApart<D>(s: State<D>, t: State<D>, n: NodeId)
    requires AtOut(s, n, Cleared) && t == SeekOut(s, n, s.nodes[n]) && OutOk(s, n)
    ensures Elsewhere(s, t, {s.nodes[n].addr}, {}, {n})
  {
    hide SamePage, PageOf;
    PagesSame(s, t);
    forall x | x != s.nodes[n].addr ensures SameAt(s, t, x) { }
    assert Covered(s, t, s.nodes[n].addr, {}, {n});
    forall m | m != n ensures SameNode(s, t, m) { }
  }

  lemma SeekOutKeeps<D>(s: State<D>, t: State<D>, n: NodeId)
    requires Inv(s) && AtOut(s, n, Cleared) && t == SeekOut(s, n, s.nodes[n])
    ensures Inv(t)
  {
    hide PhaseOk, PageOk, NodeOk, SlotOk, PageListsOk, NodeListsOk, Elsewhere, OutOk;
    OutNode(s, n);
    SeekOutHere(s, t, n);
    SeekOutApart(s, t, n);
    PageListsSame(s, t);
    NodeListsSame(s, t);
    Frame(s, t, {s.nodes[n].addr}, {}, {n});
  }

  lemma WriteSlotHere<D>(s: State<D>, t: State<D>, n: NodeId)
    requires AtOut(s, n, Sought) && s.nodes[n].page in s.mem && WritesWell(s, n) && t == WriteSlot(s, n, s.nodes[n])
    requires OutOk(s, n)
    ensures PhaseOk(t, s.nodes[n].addr) && NodeOk(t, n)
  {
  }

  lemma WriteSlotApart<D>(s: State<D>, t: State<D>, n: NodeId)
    requires AtOut(s, n, Sought) && s.nodes[n].page in s.mem && WritesWell(s, n) && t == WriteSlot(s, n, s.nodes[n])
    requires OutOk(s, n) && forall x :: x != s.nodes[n].addr ==> !Needs(s, x, s.nodes[n].slot)
    ensures Elsewhere(s, t, {s.nodes[n].addr}, {}, {n})
  {
    hide SamePage, PageOf;
    PagesSame(s, t);
    forall x | x != s.nodes[n].addr ensures SameAt(s, t, x) { }
    assert Covered(s, t, s.nodes[n].addr, {}, {n});
    forall m | m != n ensures SameNode(s, t, m) { }
  }

  lemma WriteSlotKeeps<D>(s: State<D>, t: State<D>, n: NodeId)
    requires Inv(s) && AtOut(s, n, Sought) && s.nodes[n].page in s.mem && WritesWell(s, n)
    requires t == WriteSlot(s, n, s.nodes[n])
    ensures Inv(t)
  {
    hide PhaseOk, PageOk, NodeOk, SlotOk, PageListsOk, NodeListsOk, Elsewhere, OutOk, WritesWell, Needs;
    OutNode(s, n);
    forall x | x != s.nodes[n].addr ensures !Needs(s, x, s.nodes[n].slot) { SlotAlone(s, n, x); }
    WriteSlotHere(s, t, n);
    WriteSlotApart(s, t, n);
    PageListsSame(s, t);
    NodeListsSame(s, t);
    Frame(s, t, {s.nodes[n].addr}, {}, {n});
  }

  lemma FinishSwapOutHere<D>(s: State<D>, t: State<D>, n: NodeId)
    requires AtOut(s, n, Written) && !s.nodes[n].retaken && t == FinishSwapOut(s, n, s.nodes[n])
    requires OutOk(s, n) && PageOk(s, s.nodes[n].page)
    ensures s.nodes[n].addr in t.phase && PhaseOk(t, s.nodes[n].addr) && PageOk(t, s.nodes[n].page) && NodeOk(t, n)
    ensures s.nodes[n].page !in s.free
  {
  }

  lemma FinishSwapOutApart<D>(s: State<D>, t: State<D>, n: NodeId)
    requires AtOut(s, n, Written) && !s.nodes[n].retaken && t == FinishSwapOut(s, n, s.nodes[n])
    requires OutOk(s, n) && PageOk(s, s.nodes[n].page)
    ensures Elsewhere(s, t, {s.nodes[n].addr}, {s.nodes[n].page}, {n})
  {
    forall x | x != s.nodes[n].addr ensures SameAt(s, t, x) { }
    assert Covered(s, t, s.nodes[n].addr, {s.nodes[n].page}, {n});
    forall q | q != s.nodes[n].page ensures SamePage(s, t, q) { }
    forall m | m != n ensures SameNode(s, t, m) { }
  }

  lemma FinishSwapOutPageLists<D>(s: State<D>, t: State<D>, n: NodeId)
    requires PageListsOk(s) && n in s.nodes && s.nodes[n].page in s.mem && s.nodes[n].page !in s.free
    requires t == FinishSwapOut(s, n, s.nodes[n])
    ensures PageListsOk(t)
  {
    NoDupEnds(s.free, s.nodes[n].page);
  }

  lemma FinishSwapOutNodeLists<D>(s: State<D>, t: State<D>, n: NodeId)
    requires NodeListsOk(s) && n in s.nodes && t == FinishSwapOut(s, n, s.nodes[n])
    ensures NodeListsOk(t)
  {
    NoDupWithout(s.cache, n);
  }

  lemma FinishSwapOutKeeps<D>(s: State<D>, t: State<D>, n: NodeId)
    requires Inv(s) && AtOut(s, n, Written) && !s.nodes[n].retaken && t == FinishSwapOut(s, n, s.nodes[n])
    ensures Inv(t)
  {
    hide PhaseOk, PageOk, NodeOk, SlotOk, PageListsOk, NodeListsOk, Elsewhere, OutOk, FinishSwapOut;
    OutNode(s, n);
    FinishSwapOutHere(s, t, n);
    FinishSwapOutApart(s, t, n);
    FinishSwapOutPageLists(s, t, n);
    FinishSwapOutNodeLists(s, t, n);
    Frame(s, t, {s.nodes[n].addr}, {s.nodes[n].page}, {n});
  }

  lemma AbandonSwapOutHere<D>(s: State<D>, t: State<D>, n: NodeId)
    requires AtOut(s, n, Written) && s.nodes[n].retaken && t == AbandonSwapOut(s, n, s.nodes[n]) && OutOk(s, n)
    ensures s.nodes[n].addr in t.phase && PhaseOk(t, s.nodes[n].addr) && n !in t.nodes
    ensures n !in s.releasing && s.nodes[n].slot in s.disk && s.nodes[n].slot !in s.freeSlots
  {
  }

  lemma AbandonSwapOutApart<D>(s: State<D>, t: State<D>, n: NodeId)
    requires AtOut(s, n, Written) && s.nodes[n].retaken && t == AbandonSwapOut(s, n, s.nodes[n]) && OutOk(s, n)
    requires forall m :: m in s.nodes && m != n ==> s.nodes[m].slot != s.nodes[n].slot
    ensures Elsewhere(s, t, {s.nodes[n].addr}, {}, {n})
  {
    hide SamePage, PageOf;
    PagesSame(s, t);
    forall x | x != s.nodes[n].addr ensures SameAt(s, t, x) { }
    assert Covered(s, t, s.nodes[n].addr, {}, {n});
    forall m | m != n ensures SameNode(s, t, m) { }
  }

  lemma AbandonSwapOutNodeLists<D>(s: State<D>, t: State<D>, n: NodeId)
    requires NodeListsOk(s)
    requires n in s.nodes && n !in s.releasing && s.nodes[n].slot in s.disk && s.nodes[n].slot !in s.freeSlots
    requires t == AbandonSwapOut(s, n, s.nodes[n])
    ensures NodeListsOk(t)
  {
    NoDupEnds(s.freeSlots, s.nodes[n].slot);
    NoDupWithout(s.cache, n);
  }

  lemma AbandonSwapOutKeeps<D>(s: State<D>, t: State<D>, n: NodeId)
    requires Inv(s) && AtOut(s, n, Written) && s.nodes[n].retaken && t == AbandonSwapOut(s, n, s.nodes[n])
    ensures Inv(t)
  {
    hide PhaseOk, PageOk, NodeOk, SlotOk, PageListsOk, NodeListsOk, Elsewhere, OutOk;
    OutNode(s, n);
    OtherSlots(s, n);
    AbandonSwapOutHere(s, t, n);
    AbandonSwapOutApart(s, t, n);
    PageListsSame(s, t);
    AbandonSwapOutNodeLists(s, t, n);
    Frame(s, t, {s.nodes[n].addr}, {}, {n});
  }

  lemma HitCacheHere<D>(s: State<D>, t: State<D>, a: Addr, n: NodeId)
    requires a in s.pt && s.pt[a].Swapped? && In(s, a, Leaving(n)) && t == HitCache(s, a, n) && PhaseOk(s, a)
    ensures PhaseOk(t, a)
  {
  }

  lemma HitCacheApart<D>(s: State<D>, t: State<D>, a: Addr, n: NodeId)
    requires a in s.pt && s.pt[a].Swapped? && In(s, a, Leaving(n)) && t == HitCache(s, a, n) && PhaseOk(s, a)
    ensures Elsewhere(s, t, {a}, {}, {})
  {
    hide SamePage, PageOf, SameNode, SlotOk;
    PagesSame(s, t);
    NodesSame(s, t);
    forall x | x != a ensures SameAt(s, t, x) { }
    assert Covered(s, t, a, {}, {});
  }

  lemma HitCacheKeeps<D>(s: State<D>, t: State<D>, a: Addr, n: NodeId)
    requires Inv(s) && a in s.pt && s.pt[a].Swapped? && In(s, a, Leaving(n)) && t == HitCache(s, a, n)
    ensures Inv(t)
  {
    hide PhaseOk, PageOk, NodeOk, SlotOk, PageListsOk, NodeListsOk, Elsewhere;
    assert PhaseOk(s, a);
    HitCacheHere(s, t, a, n);
    HitCacheApart(s, t, a, n);
    PageListsSame(s, t);
    NodeListsSame(s, t);
    Frame(s, t, {a}, {}, {});
  }

  lemma RetakeHere<D>(s: State<D>, t: State<D>, a: Addr, n: NodeId)
    requires a in s.pt && s.pt[a].Swapped? && In(s, a, Leaving(n)) && n in s.nodes && t == Retake(s, a, n)
    requires NodeOk(s, n) && PhaseOk(s, a)
    ensures PhaseOk(t, a) && NodeOk(t, n)
  {
  }

  lemma RetakeApart<D>(s: State<D>, t: State<D>, a: Addr, n: NodeId)
    requires a in s.pt && s.pt[a].Swapped? && In(s, a, Leaving(n)) && n in s.nodes && t == Retake(s, a, n)
    requires NodeOk(s, n) && PhaseOk(s, a)
    ensures Elsewhere(s, t, {a}, {}, {n})
  {
    hide SamePage, PageOf;
    PagesSame(s, t);
    forall x | x != a ensures SameAt(s, t, x) { }
    assert Covered(s, t, a, {}, {n});
    forall m | m != n ensures SameNode(s, t, m) { }
  }

  lemma RetakeKeeps<D>(s: State<D>, t: State<D>, a: Addr, n: NodeId)
    requires Inv(s) && a in s.pt && s.pt[a].Swapped? && In(s, a, Leaving(n)) && n in s.nodes && t == Retake(s, a, n)
    ensures Inv(t)
  {
    hide PhaseOk, PageOk, NodeOk, SlotOk, PageListsOk, NodeListsOk, Elsewhere;
    assert NodeOk(s, n) && PhaseOk(s, a);
    RetakeHere(s, t, a, n);
    RetakeApart(s, t, a, n);
    PageListsSame(s, t);
    NodeListsSame(s, t);
    Frame(s, t, {a}, {}, {n});
  }

  lemma MapRetakenHere<D>(s: State<D>, t: State<D>, a: Addr, n: NodeId, p: Page)
    requires In(s, a, Retaking(n, p)) && t == MapRetaken(s, a, n, p) && PhaseOk(s, a)
    ensures PhaseOk(t, a)
  {
  }

  lemma MapRetakenApart<D>(s: State<D>, t: State<D>, a: Addr, n: NodeId, p: Page)
    requires In(s, a, Retaking(n, p)) && t == MapRetaken(s, a, n, p) && PhaseOk(s, a)
    ensures Elsewhere(s, t, {a}, {}, {})
  {
    hide SamePage, PageOf, SameNode, SlotOk;
    PagesSame(s, t);
    NodesSame(s, t);
    forall x | x != a ensures SameAt(s, t, x) { }
    assert Covered(s, t, a, {}, {});
  }

  lemma MapRetakenKeeps<D>(s: State<D>, t: State<D>, a: Addr, n: NodeId, p: Page)
    requires Inv(s) && In(s, a, Retaking(n, p)) && t == MapRetaken(s, a, n, p)
    ensures Inv(t)
  {
    hide PhaseOk, PageOk, NodeOk, SlotOk, PageListsOk, NodeListsOk, Elsewhere;
    assert PhaseOk(s, a);
    MapRetakenHere(s, t, a, n, p);
    MapRetakenApart(s, t, a, n, p);
    PageListsSame(s, t);
    NodeListsSame(s, t);
    Frame(s, t, {a}, {}, {});
  }

  lemma TurnHere<D>(s: State<D>, t: State<D>, a: Addr, ph: Phase, pos: nat)
    requires a in s.phase && a !in s.hits && Sleeping(s.phase[a]) && Sleeping(ph) && ph.node == s.phase[a].node
    requires t == Turn(s, a, ph, pos) && PhaseOk(s, a)
    ensures PhaseOk(t, a)
  {
  }

  lemma TurnApart<D>(s: State<D>, t: State<D>, a: Addr, ph: Phase, pos: nat)
    requires a in s.phase && a !in s.hits && Sleeping(s.phase[a]) && Sleeping(ph) && ph.node == s.phase[a].node
    requires t == Turn(s, a, ph, pos) && PhaseOk(s, a)
    ensures Elsewhere(s, t, {a}, {}, {})
  {
    hide SamePage, PageOf, SameNode, SlotOk;
    PagesSame(s, t);
    NodesSame(s, t);
    forall x | x != a ensures SameAt(s, t, x) { }
    assert Covered(s, t, a, {}, {});
  }

  lemma TurnKeeps<D>(s: State<D>, t: State<D>, a: Addr, ph: Phase, pos: nat)
    requires Inv(s)
    requires a in s.phase && a !in s.hits && Sleeping(s.phase[a]) && Sleeping(ph) && ph.node == s.phase[a].node
    requires t == Turn(s, a, ph, pos)
    ensures Inv(t)
  {
    hide PhaseOk, PageOk, NodeOk, SlotOk, PageListsOk, NodeListsOk, Elsewhere;
    assert PhaseOk(s, a);
    TurnHere(s, t, a, ph, pos);
    TurnApart(s, t, a, ph, pos);
    PageListsSame(s, t);
    NodeListsSame(s, t);
    Frame(s, t, {a}, {}, {});
  }

  lemma TakeForReadHere<D>(s: State<D>, t: State<D>, a: Addr, n: NodeId)
    requires In(s, a, Aimed(n)) && s.free != [] && t == TakeForRead(s, a, n)
    requires PhaseOk(s, a) && s.free[0] in s.mem && PageOk(s, s.free[0]) && NoDup(s.free)
    ensures PhaseOk(t, a) && PageOk(t, s.free[0])
  {
    NoDupTail(s.free);
  }

  lemma TakeForReadApart<D>(s: State<D>, t: State<D>, a: Addr, n: NodeId)
    requires In(s, a, Aimed(n)) && s.free != [] && t == TakeForRead(s, a, n)
    requires PhaseOk(s, a) && s.free[0] in s.mem && PageOk(s, s.free[0]) && NoDup(s.free)
    ensures Elsewhere(s, t, {a}, {s.free[0]}, {})
  {
    hide SameNode, SlotOk;
    NoDupTail(s.free);
    NodesSame(s, t);
    forall x | x != a ensures SameAt(s, t, x) { }
    assert Covered(s, t, a, {s.free[0]}, {});
    forall q | q != s.free[0] ensures SamePage(s, t, q) { }
  }

  lemma TakeForReadPageLists<D>(s: State<D>, t: State<D>, a: Addr, n: NodeId)
    requires PageListsOk(s) && s.free != [] && t == TakeForRead(s, a, n)
    ensures PageListsOk(t)
  {
    NoDupTail(s.free);
  }

  lemma TakeForReadKeeps<D>(s: State<D>, t: State<D>, a: Addr, n: NodeId)
    requires Inv(s) && In(s, a, Aimed(n)) && s.free != [] && t == TakeForRead(s, a, n)
    ensures Inv(t)
  {
    hide PhaseOk, PageOk, NodeOk, SlotOk, PageListsOk, NodeListsOk, Elsewhere;
    FreeHead(s);
    assert PhaseOk(s, a);
    TakeForReadHere(s, t, a, n);
    TakeForReadApart(s, t, a, n);
    TakeForReadPageLists(s, t, a, n);
    NodeListsSame(s, t);
    Frame(s, t, {a}, {s.free[0]}, {});
  }

  lemma ReadSlotHere<D>(s: State<D>, t: State<D>, a: Addr, n: NodeId, p: Page)
    requires In(s, a, Fetching(n, p)) && n in s.nodes && s.pos in s.disk && ReadsWell(s, n)
    requires t == ReadSlot(s, a, n, p) && PhaseOk(s, a) && NodeOk(s, n) && p in s.mem && PageOk(s, p)
    ensures PhaseOk(t, a) && PageOk(t, p) && NodeOk(t, n)
  {
  }

  lemma ReadSlotApart<D>(s: State<D>, t: State<D>, a: Addr, n: NodeId, p: Page)
    requires In(s, a, Fetching(n, p)) && n in s.nodes && s.pos in s.disk && ReadsWell(s, n)
    requires t == ReadSlot(s, a, n, p) && PhaseOk(s, a) && NodeOk(s, n) && p in s.mem && PageOk(s, p)
    ensures Elsewhere(s, t, {a}, {p}, {n})
  {
    forall x | x != a ensures SameAt(s, t, x) { }
    assert Covered(s, t, a, {p}, {n});
    forall q | q != p ensures SamePage(s, t, q) { }
    forall m | m != n ensures SameNode(s, t, m) { }
  }

  lemma ReadSlotKeeps<D>(s: State<D>, t: State<D>, a: Addr, n: NodeId, p: Page)
    requires Inv(s) && In(s, a, Fetching(n, p)) && n in s.nodes && s.pos in s.disk && ReadsWell(s, n)
    requires t == ReadSlot(s, a, n, p)
    ensures Inv(t)
  {
    hide PhaseOk, PageOk, NodeOk, SlotOk, PageListsOk, NodeListsOk, Elsewhere;
    Owned(s, a, p);
    assert NodeOk(s, n);
    ReadSlotHere(s, t, a, n, p);
    ReadSlotApart(s, t, a, n, p);
    PageListsSame(s, t);
    NodeListsSame(s, t);
    Frame(s, t, {a}, {p}, {n});
  }

  lemma FailReadHere<D>(s: State<D>, t: State<D>, a: Addr, n: NodeId, p: Page)
    requires In(s, a, Fetching(n, p)) && t == FailRead(s, a, n, p) && PhaseOk(s, a) && PageOk(s, p)
    ensures PhaseOk(t, a) && PageOk(t, p)
    ensures p in s.mem && p !in s.free
  {
  }

  lemma FailReadApart<D>(s: State<D>, t: State<D>, a: Addr, n: NodeId, p: Page)
    requires In(s, a, Fetching(n, p)) && t == FailRead(s, a, n, p) && PhaseOk(s, a) && PageOk(s, p)
    ensures Elsewhere(s, t, {a}, {p}, {})
  {
    hide SameNode, SlotOk;
    NodesSame(s, t);
    forall x | x != a ensures SameAt(s, t, x) { }
    assert Covered(s, t, a, {p}, {});
    forall q | q != p ensures SamePage(s, t, q) { }
  }

  lemma FailReadPageLists<D>(s: State<D>, t: State<D>, a: Addr, n: NodeId, p: Page)
    requires PageListsOk(s) && p in s.mem && p !in s.free && t == FailRead(s, a, n, p)
    ensures PageListsOk(t)
  {
    NoDupEnds(s.free, p);
  }

  lemma FailReadKeeps<D>(s: State<D>, t: State<D>, a: Addr, n: NodeId, p: Page)
    requires Inv(s) && In(s, a, Fetching(n, p)) && t == FailRead(s, a, n, p)
    ensures Inv(t)
  {
    hide PhaseOk, PageOk, NodeOk, SlotOk, PageListsOk, NodeListsOk, Elsewhere;
    Owned(s, a, p);
    FailReadHere(s, t, a, n, p);
    FailReadApart(s, t, a, n, p);
    FailReadPageLists(s, t, a, n, p);
    NodeListsSame(s, t);
    Frame(s, t, {a}, {p}, {});
  }

  lemma MapLoadedHere<D>(s: State<D>, t: State<D>, a: Addr, n: NodeId, p: Page)
    requires In(s, a, Loaded(n, p)) && t == MapLoaded(s, a, n, p) && PhaseOk(s, a)
    ensures PhaseOk(t, a)
  {
  }

  lemma MapLoadedApart<D>(s: State<D>, t: State<D>, a: Addr, n: NodeId, p: Page)
    requires In(s, a, Loaded(n, p)) && t == MapLoaded(s, a, n, p) && PhaseOk(s, a)
    ensures Elsewhere(s, t, {a}, {}, {})
  {
    hide SamePage, PageOf, SameNode, SlotOk;
    PagesSame(s, t);
    NodesSame(s, t);
    forall x | x != a ensures SameAt(s, t, x) { }
    assert Covered(s, t, a, {}, {});
  }

  lemma MapLoadedKeeps<D>(s: State<D>, t: State<D>, a: Addr, n: NodeId, p: Page)
    requires Inv(s) && In(s, a, Loaded(n, p)) && t == MapLoaded(s, a, n, p)
    ensures Inv(t)
  {
    hide PhaseOk, PageOk, NodeOk, SlotOk, PageListsOk, NodeListsOk, Elsewhere;
    assert PhaseOk(s, a);
    MapLoadedHere(s, t, a, n, p);
    MapLoadedApart(s, t, a, n, p);
    PageListsSame(s, t);
    NodeListsSame(s, t);
    Frame(s, t, {a}, {}, {});
  }

  lemma RestoreUsedHere<D>(s: State<D>, t: State<D>, a: Addr, n: NodeId, p: Page)
    requires In(s, a, Remapped(n, p)) && n in s.nodes && t == RestoreUsed(s, a, n, p)
    requires PhaseOk(s, a) && PageOk(s, p) && NodeOk(s, n)
    ensures a in t.phase && PhaseOk(t, a) && PageOk(t, p) && NodeOk(t, n)
    ensures p in s.mem && p !in s.used
  {
  }

  lemma RestoreUsedApart<D>(s: State<D>, t: State<D>, a: Addr, n: NodeId, p: Page)
    requires In(s, a, Remapped(n, p)) && n in s.nodes && t == RestoreUsed(s, a, n, p)
    requires PhaseOk(s, a) && PageOk(s, p) && NodeOk(s, n)
    ensures Elsewhere(s, t, {a}, {p}, {n})
  {
    forall x | x != a ensures SameAt(s, t, x) { }
    assert Covered(s, t, a, {p}, {n});
    forall q | q != p ensures SamePage(s, t, q) { }
    forall m | m != n ensures SameNode(s, t, m) { }
  }

  lemma RestoreUsedPageLists<D>(s: State<D>, t: State<D>, a: Addr, n: NodeId, p: Page)
    requires PageListsOk(s) && n in s.nodes && p in s.mem && p !in s.used && t == RestoreUsed(s, a, n, p)
    ensures PageListsOk(t)
  {
    NoDupEnds(s.used, p);
  }

  lemma RestoreUsedNodeLists<D>(s: State<D>, t: State<D>, a: Addr, n: NodeId, p: Page)
    requires NodeListsOk(s) && n in s.nodes && t == RestoreUsed(s, a, n, p)
    ensures NodeListsOk(t)
  {
  }

  lemma RestoreUsedKeeps<D>(s: State<D>, t: State<D>, a: Addr, n: NodeId, p: Page)
    requires Inv(s) && In(s, a, Remapped(n, p)) && n in s.nodes && t == RestoreUsed(s, a, n, p)
    ensures Inv(t)
  {
    hide PhaseOk, PageOk, NodeOk, SlotOk, PageListsOk, NodeListsOk, Elsewhere, RestoreUsed;
    Owned(s, a, p);
    assert NodeOk(s, n);
    RestoreUsedHere(s, t, a, n, p);
    RestoreUsedApart(s, t, a, n, p);
    RestoreUsedPageLists(s, t, a, n, p);
    RestoreUsedNodeLists(s, t, a, n, p);
    Frame(s, t, {a}, {p}, {n});
  }

  lemma ReleaseSlotHere<D>(s: State<D>, t: State<D>, n: NodeId)
    requires n in s.releasing && n in s.nodes && t == ReleaseSlot(s, n)
    requires NodeOk(s, n) && (s.nodes[n].addr in s.phase ==> PhaseOk(s, s.nodes[n].addr))
    ensures n !in t.nodes && (s.nodes[n].addr in t.phase ==> PhaseOk(t, s.nodes[n].addr))
    ensures n !in s.out && s.nodes[n].slot in s.disk && s.nodes[n].slot !in s.freeSlots
  {
  }

  lemma ReleaseSlotApart<D>(s: State<D>, t: State<D>, n: NodeId)
    requires n in s.releasing && n in s.nodes && t == ReleaseSlot(s, n)
    requires NodeOk(s, n) && (s.nodes[n].addr in s.phase ==> PhaseOk(s, s.nodes[n].addr))
    requires forall m :: m in s.nodes && m != n ==> s.nodes[m].slot != s.nodes[n].slot
    ensures Elsewhere(s, t, {s.nodes[n].addr}, {}, {n})
  {
    hide SamePage, PageOf;
    PagesSame(s, t);
    forall x | x != s.nodes[n].addr ensures SameAt(s, t, x) { }
    assert s.nodes[n].addr in s.phase ==> Covered(s, t, s.nodes[n].addr, {}, {n});
    forall m | m != n ensures SameNode(s, t, m) { }
  }

  lemma ReleaseSlotNodeLists<D>(s: State<D>, t: State<D>, n: NodeId)
    requires NodeListsOk(s)
    requires n in s.nodes && n !in s.out && s.nodes[n].slot in s.disk && s.nodes[n].slot !in s.freeSlots
    requires t == ReleaseSlot(s, n)
    ensures NodeListsOk(t)
  {
    NoDupEnds(s.freeSlots, s.nodes[n].slot);
  }

  lemma ReleaseSlotKeeps<D>(s: State<D>, t: State<D>, n: NodeId)
    requires Inv(s) && n in s.releasing && n in s.nodes && t == ReleaseSlot(s, n)
    ensures Inv(t)
  {
    hide PhaseOk, PageOk, NodeOk, SlotOk, PageListsOk, NodeListsOk, Elsewhere;
    ReleasedNode(s, n);
    OtherSlots(s, n);
    ReleaseSlotHere(s, t, n);
    ReleaseSlotApart(s, t, n);
    PageListsSame(s, t);
    ReleaseSlotNodeLists(s, t, n);
    Frame(s, t, {s.nodes[n].addr}, {}, {n});
  }

  lemma UnmapPageHere<D>(s: State<D>, t: State<D>, a: Addr, p: Page)
    requires Settled(s, a, p) && t == UnmapPage(s, a, p) && PhaseOk(s, a) && PageOk(s, p)
    ensures a !in t.phase && a !in t.pt && a !in t.hits && a !in t.view && PageOk(t, p)
  {
  }

  lemma UnmapPageApart<D>(s: State<D>, t: State<D>, a: Addr, p: Page)
    requires Settled(s, a, p) && t == UnmapPage(s, a, p) && PhaseOk(s, a) && PageOk(s, p)
    ensures Elsewhere(s, t, {a}, {p}, {})
  {
    hide SameNode, SlotOk;
    NodesSame(s, t);
    forall x | x != a ensures SameAt(s, t, x) { }
    assert Covered(s, t, a, {p}, {});
    forall q | q != p ensures SamePage(s, t, q) { }
  }

  lemma UnmapPagePageLists<D>(s: State<D>, t: State<D>, a: Addr, p: Page)
    requires PageListsOk(s) && p in s.mem && t == UnmapPage(s, a, p)
    ensures PageListsOk(t)
  {
  }

  lemma UnmapPageKeeps<D>(s: State<D>, t: State<D>, a: Addr, p: Page)
    requires Inv(s) && Settled(s, a, p) && t == UnmapPage(s, a, p)
    ensures Inv(t)
  {
    hide PhaseOk, PageOk, NodeOk, SlotOk, PageListsOk, NodeListsOk, Elsewhere, Settled, NoDup;
    SettledPage(s, a, p);
    UnmapPageHere(s, t, a, p);
    UnmapPageApart(s, t, a, p);
    UnmapPagePageLists(s, t, a, p);
    NodeListsSame(s, t);
    Frame(s, t, {a}, {p}, {});
  }

  lemma LeaveSlotHere<D>(s: State<D>, t: State<D>, a: Addr)
    requires a in s.phase && s.phase[a].Asleep? && a !in s.hits && t == LeaveSlot(s, a) && PhaseOk(s, a)
    ensures a !in t.phase && a !in t.pt && a !in t.hits && a !in t.view
  {
  }

  lemma LeaveSlotApart<D>(s: State<D>, t: State<D>, a: Addr)
    requires a in s.phase && s.phase[a].Asleep? && a !in s.hits && t == LeaveSlot(s, a) && PhaseOk(s, a)
    ensures Elsewhere(s, t, {a}, {}, {})
  {
    hide SamePage, PageOf, SameNode, SlotOk;
    PagesSame(s, t);
    NodesSame(s, t);
    forall x | x != a ensures SameAt(s, t, x) { }
    assert Covered(s, t, a, {}, {});
  }

  lemma LeaveSlotKeeps<D>(s: State<D>, t: State<D>, a: Addr)
    requires Inv(s) && a in s.phase && s.phase[a].Asleep? && a !in s.hits && t == LeaveSlot(s, a)
    ensures Inv(t)
  {
    hide PhaseOk, PageOk, NodeOk, SlotOk, PageListsOk, NodeListsOk, Elsewhere;
    assert PhaseOk(s, a);
    LeaveSlotHere(s, t, a);
    LeaveSlotApart(s, t, a);
    PageListsSame(s, t);
    NodeListsSame(s, t);
    Frame(s, t, {a}, {}, {});
  }

  lemma GiveBackHere<D>(s: State<D>, t: State<D>, p: Page)
    requires p in s.dying && t == GiveBack(s, p) && p in s.mem && PageOk(s, p)
    ensures PageOk(t, p)
  {
  }

  lemma GiveBackApart<D>(s: State<D>, t: State<D>, p: Page)
    requires p in s.dying && t == GiveBack(s, p) && p in s.mem && PageOk(s, p)
    ensures Elsewhere(s, t, {}, {p}, {})
  {
    hide SameNode, SlotOk;
    NodesSame(s, t);
    forall x ensures SameAt(s, t, x) { }
    forall q | q != p ensures SamePage(s, t, q) { }
  }

  lemma GiveBackPageLists<D>(s: State<D>, t: State<D>, p: Page)
    requires PageListsOk(s) && p in s.mem && p !in s.free && t == GiveBack(s, p)
    ensures PageListsOk(t)
  {
    WithoutSize(s.free, p);
    NoDupEnds(s.free, p);
    NoDupWithout(s.used, p);
  }

  lemma GiveBackKeeps<D>(s: State<D>, t: State<D>, p: Page)
    requires Inv(s) && p in s.dying && t == GiveBack(s, p)
    ensures Inv(t)
  {
    hide PhaseOk, PageOk, NodeOk, SlotOk, PageListsOk, NodeListsOk, Elsewhere;
    DyingPage(s, p);
    GiveBackHere(s, t, p);
    GiveBackApart(s, t, p);
    GiveBackPageLists(s, t, p);
    NodeListsSame(s, t);
    Frame(s, t, {}, {p}, {});
  }
}
