/**
 Demand paging in USM as a system of interleaved steps: first allocation, eviction to a swap slot, fault service
 from the swap cache or from the slot, and freeing.

 A step is what one thread does between two points where others can get in, with these exceptions:
 - holding a page, testing for its process, and getting a node and a slot for it are one step;
 - so are missing an address in the swap cache and finding its node from its entry;
 - so are the test for a retaken page and the end of the swap-out;
 - so are setting the fields of a page, or clearing it, and putting it on a list.
 The swap file has one position, which every seek and every transfer moves. An address is not given up while a swap-out
 or a fault service is at work on it, nor before its page is on the used list. A fault is in service at most once for
 an address. An evictor finds the process of a page gone exactly when the page's address has been given up. Requests to
 the kernel and file operations succeed, but for the mapping of a first allocation and for reads beyond the slots. The
 contents of a page are values of an arbitrary type `D`.
 */
module Paging {

  const PAGE_SIZE: nat := 4096

  type Page = nat
  type Slot = nat
  type NodeId = nat

  datatype Addr = Addr(proc: nat, va: nat)

  datatype Pte = Present(page: Page) | Swapped(slot: Slot)

  /** `struct to_swap`. */
  datatype ToSwap = ToSwap(addr: Addr, page: Page, slot: Slot, retaken: bool)

  /** How far a swap-out has come. */
  datatype OutPc = Created | Cached | Cleared | Sought | Written

  /** What is going on at an address. */
  datatype Phase =
    | Allocating(page: Page)              // page taken, not yet mapped
    | Linking(page: Page)                 // mapped, not yet on the used list
    | Resident(page: Page)                // mapped and on the used list
    | Leaving(node: NodeId)               // being swapped out
    | Retaking(node: NodeId, page: Page)  // found in the swap cache, not yet mapped again
    | Parked(node: NodeId, page: Page)    // mapped again from the swap cache: on no list
    | Asleep(node: NodeId)                // in its swap slot
    | Found(node: NodeId)                 // swap-in begun: node found
    | Aimed(node: NodeId)                 // file position set
    | Refused(node: NodeId)               // swap-in failed, to be tried again as a first allocation
    | Fetching(node: NodeId, page: Page)  // page taken to be read into
    | Loaded(node: NodeId, page: Page)    // read
    | Remapped(node: NodeId, page: Page)  // mapped, not yet on the used list

  /** Auxiliary: whose a page is. */
  datatype Place =
    | Free
    | Taken(addr: Addr)  // in the hands of an allocation or a swap-in
    | Of(addr: Addr)
    | Dying              // its address has been given up

  datatype State<D> = State(
    pt: map<Addr, Pte>,            // page tables
    mem: map<Page, D>,             // physical pages
    disk: map<Slot, D>,            // slots of the swap device
    pos: nat,                      // position in its file, in slots
    free: seq<Page>,               // freeList
    used: seq<Page>,               // usedList
    owner: map<Page, Addr>,        // process and virtualAddress of a page
    usedMemory: int,
    picks: map<nat, Page>,         // pages evictors have picked and not yet held
    freeSlots: seq<Slot>,          // free_list of the swap device
    holder: map<Slot, NodeId>,     // toSwapHolder of a slot
    nodes: map<NodeId, ToSwap>,    // to_swap structures
    cache: seq<NodeId>,            // swapCache, newest first
    out: map<NodeId, OutPc>,       // swap-outs under way
    hits: map<Addr, NodeId>,       // entries found in the swap cache and not yet marked
    releasing: set<NodeId>,        // swap-ins that have only the slot left to give back
    dying: set<Page>,              // unmapped, not yet given back
    events: multiset<Page>,        // free events to be handled
    zero: D,                       // contents of a cleared page
    phase: map<Addr, Phase>,
    place: map<Page, Place>,
    view: map<Addr, D>             // auxiliary: what the process put there last
  )

  datatype Step<D> =
    | AllocTake(a: Addr)
    | AllocFail(a: Addr, p: Page)
    | AllocMap(a: Addr, p: Page)
    | AllocLink(a: Addr, p: Page)
    | Write(a: Addr, d: D)
    | EvictPick(e: nat)
    | EvictHold(e: nat, n: NodeId)
    | EvictDead(e: nat)
    | OutCache(n: NodeId)
    | OutClear(n: NodeId)
    | OutSeek(n: NodeId)
    | OutWrite(n: NodeId)
    | OutCommit(n: NodeId)
    | FaultHit(a: Addr)
    | FaultRetake(a: Addr)
    | RetakeMap(a: Addr, n: NodeId, p: Page)
    | FaultSwapIn(a: Addr)
    | InSeek(a: Addr, n: NodeId)
    | InTake(a: Addr, n: NodeId)
    | InRefuse(a: Addr, n: NodeId)
    | InRead(a: Addr, n: NodeId, p: Page)
    | InFail(a: Addr, n: NodeId, p: Page)
    | InRetry(a: Addr, n: NodeId)
    | InGiveUp(a: Addr, n: NodeId)
    | InMap(a: Addr, n: NodeId, p: Page)
    | InRestore(a: Addr, n: NodeId, p: Page)
    | InRelease(n: NodeId)
    | Unmap(a: Addr, p: Page)
    | UnmapAsleep(a: Addr, n: NodeId)
    | FreePage(p: Page)

  /** The search of `trySwapCache`: the first entry for the address. */
  function FindCached(cache: seq<NodeId>, nodes: map<NodeId, ToSwap>, a: Addr): (r: seq<NodeId>)
    ensures |r| <= 1
    ensures r == [] <==> forall i :: 0 <= i < |cache| && cache[i] in nodes ==> nodes[cache[i]].addr != a
    ensures r != [] ==> r[0] in cache && r[0] in nodes && nodes[r[0]].addr == a
  {
    if cache == [] then []
    else if cache[0] in nodes && nodes[cache[0]].addr == a then [cache[0]]
    else FindCached(cache[1..], nodes, a)
  }

  /** It is the first: no entry before it is for the address. */
  lemma {:induction false} FindsFirst(cache: seq<NodeId>, nodes: map<NodeId, ToSwap>, a: Addr, i: nat)
    requires i < |cache| && cache[i] in nodes && nodes[cache[i]].addr == a
    requires forall j :: 0 <= j < i && cache[j] in nodes ==> nodes[cache[j]].addr != a
    ensures FindCached(cache, nodes, a) == [cache[i]]
  {
    if i > 0 { FindsFirst(cache[1..], nodes, a, i - 1); }
  }

  function Without(s: seq<nat>, x: nat): (r: seq<nat>)
    ensures forall y :: y in r <==> y in s && y != x
  {
    if s == [] then [] else if s[0] == x then Without(s[1..], x) else [s[0]] + Without(s[1..], x)
  }

  /** In its slot, and no page taken for it. */
  predicate Sleeping(ph: Phase) {
    ph.Asleep? || ph.Found? || ph.Aimed? || ph.Refused?
  }

  predicate InService<D>(s: State<D>, a: Addr) {
    || a in s.hits
    || (a in s.phase && !s.phase[a].Asleep? && !s.phase[a].Leaving?)
  }

  predicate SwapFault<D>(s: State<D>, a: Addr) {
    a in s.pt && s.pt[a].Swapped? && !InService(s, a)
  }

  predicate In<D>(s: State<D>, a: Addr, ph: Phase) {
    a in s.phase && s.phase[a] == ph
  }

  // ---------------------------------------------------------------- first allocation

  /** `basic_alloc_uniq`: the first free page is taken, ... */
  function TakePage<D>(s: State<D>, a: Addr): State<D>
    requires s.free != []
  {
    var p := s.free[0];
    s.(free := s.free[1..], usedMemory := s.usedMemory + PAGE_SIZE,
       phase := s.phase[a := Allocating(p)], place := s.place[p := Taken(a)])
  }

  /** ... put back when the kernel does not map it, ... */
  function PutBack<D>(s: State<D>, a: Addr, p: Page): State<D> {
    s.(free := [p] + s.free, usedMemory := s.usedMemory - PAGE_SIZE,
       phase := s.phase - {a}, place := s.place[p := Free])
  }

  /** ... or mapped ... */
  function MapPage<D>(s: State<D>, a: Addr, p: Page): State<D>
    requires p in s.mem
  {
    s.(pt := s.pt[a := Present(p)], phase := s.phase[a := Linking(p)], view := s.view[a := s.mem[p]])
  }

  /** ... and put at the end of the used list. */
  function LinkPage<D>(s: State<D>, a: Addr, p: Page): State<D> {
    s.(owner := s.owner[p := a], used := s.used + [p], phase := s.phase[a := Resident(p)], place := s.place[p := Of(a)])
  }

  /** The process writes to its memory. */
  function WriteTo<D>(s: State<D>, a: Addr, p: Page, d: D): State<D> {
    s.(mem := s.mem[p := d], view := s.view[a := d])
  }

  // ---------------------------------------------------------------- eviction

  /** `handle_evict_request`: the first used page is picked, without a lock; ... */
  function PickPage<D>(s: State<D>, e: nat): State<D>
    requires s.used != []
  {
    s.(picks := s.picks[e := s.used[0]])
  }

  /** ... then it is held, that is, taken out of whatever list it is on by now, and gets a node and a slot, ... */
  function StartSwapOut<D>(s: State<D>, e: nat, p: Page, n: NodeId): State<D>
    requires p in s.owner && s.freeSlots != []
  {
    var k := s.freeSlots[0];
    s.(picks := s.picks - {e}, used := Without(s.used, p), free := Without(s.free, p), freeSlots := s.freeSlots[1..],
       nodes := s.nodes[n := ToSwap(s.owner[p], p, k, false)], holder := s.holder[k := n],
       out := s.out[n := Created], phase := s.phase[s.owner[p] := Leaving(n)])
  }

  /** ... or goes straight to the free list when its process has gone. */
  function ReclaimDead<D>(s: State<D>, e: nat, p: Page): State<D> {
    s.(picks := s.picks - {e}, used := Without(s.used, p), free := [p] + Without(s.free, p),
       usedMemory := s.usedMemory - PAGE_SIZE, dying := s.dying - {p}, place := s.place[p := Free])
  }

  /** `swap_out`: into the swap cache, ... */
  function EnterCache<D>(s: State<D>, n: NodeId): State<D> {
    s.(cache := [n] + s.cache, out := s.out[n := Cached])
  }

  /** ... out of the page table, ... */
  function ClearPte<D>(s: State<D>, n: NodeId, v: ToSwap): State<D> {
    s.(pt := s.pt[v.addr := Swapped(v.slot)], out := s.out[n := Cleared])
  }

  /** ... to its place in the file ... */
  function SeekOut<D>(s: State<D>, n: NodeId, v: ToSwap): State<D> {
    s.(pos := v.slot, out := s.out[n := Sought])
  }

  /** ... or wherever the position has got to by now; past the last slot the file grows, ... */
  function WriteSlot<D>(s: State<D>, n: NodeId, v: ToSwap): State<D>
    requires v.page in s.mem
  {
    s.(disk := if s.pos in s.disk then s.disk[s.pos := s.mem[v.page]] else s.disk,
       pos := s.pos + 1, out := s.out[n := Written])
  }

  /** ... and out of the swap cache: the page is free, ... */
  function FinishSwapOut<D>(s: State<D>, n: NodeId, v: ToSwap): State<D> {
    s.(cache := Without(s.cache, n), out := s.out - {n}, free := [v.page] + s.free,
       usedMemory := s.usedMemory - PAGE_SIZE, phase := s.phase[v.addr := Asleep(n)], place := s.place[v.page := Free])
  }

  /** ... unless it has been retaken: then the slot is. */
  function AbandonSwapOut<D>(s: State<D>, n: NodeId, v: ToSwap): State<D> {
    s.(cache := Without(s.cache, n), out := s.out - {n}, freeSlots := s.freeSlots + [v.slot], nodes := s.nodes - {n})
  }

  // ---------------------------------------------------------------- fault service

  /** `trySwapCache`: an entry is found, ... */
  function HitCache<D>(s: State<D>, a: Addr, n: NodeId): State<D> {
    s.(hits := s.hits[a := n])
  }

  /** ... then it is marked and its page taken, ... */
  function Retake<D>(s: State<D>, a: Addr, n: NodeId): State<D>
    requires n in s.nodes
  {
    s.(nodes := s.nodes[n := s.nodes[n].(retaken := true)], hits := s.hits - {a},
       phase := s.phase[a := Retaking(n, s.nodes[n].page)])
  }

  /** ... and is mapped again. */
  function MapRetaken<D>(s: State<D>, a: Addr, n: NodeId, p: Page): State<D> {
    s.(pt := s.pt[a := Present(p)], phase := s.phase[a := Parked(n, p)])
  }

  /** `basic_swap` and `swap_in`: the node is found from the entry and the file position set, ... */
  function Turn<D>(s: State<D>, a: Addr, ph: Phase, pos: nat): State<D> {
    s.(phase := s.phase[a := ph], pos := pos)
  }

  /** ... the first free page is taken, ... */
  function TakeForRead<D>(s: State<D>, a: Addr, n: NodeId): State<D>
    requires s.free != []
  {
    var p := s.free[0];
    s.(free := s.free[1..], usedMemory := s.usedMemory + PAGE_SIZE,
       phase := s.phase[a := Fetching(n, p)], place := s.place[p := Taken(a)])
  }

  /** ... and read into from wherever the position has got to by now, ... */
  function ReadSlot<D>(s: State<D>, a: Addr, n: NodeId, p: Page): State<D>
    requires n in s.nodes && s.pos in s.disk
  {
    s.(mem := s.mem[p := s.disk[s.pos]], nodes := s.nodes[n := s.nodes[n].(page := p)],
       phase := s.phase[a := Loaded(n, p)], pos := s.pos + 1)
  }

  /** ... or given back when nothing is to be read there, ... */
  function FailRead<D>(s: State<D>, a: Addr, n: NodeId, p: Page): State<D> {
    s.(free := s.free + [p], usedMemory := s.usedMemory - PAGE_SIZE,
       phase := s.phase[a := Refused(n)], place := s.place[p := Free])
  }

  /** ... mapped, ... */
  function MapLoaded<D>(s: State<D>, a: Addr, n: NodeId, p: Page): State<D> {
    s.(pt := s.pt[a := Present(p)], phase := s.phase[a := Remapped(n, p)])
  }

  /** ... put at the front of the used list; ... */
  function RestoreUsed<D>(s: State<D>, a: Addr, n: NodeId, p: Page): State<D>
    requires n in s.nodes
  {
    s.(owner := s.owner[p := s.nodes[n].addr], used := [p] + s.used,
       releasing := s.releasing + {n}, phase := s.phase[a := Resident(p)], place := s.place[p := Of(a)])
  }

  /** ... and the slot and the node are given back. */
  function ReleaseSlot<D>(s: State<D>, n: NodeId): State<D>
    requires n in s.nodes
  {
    s.(freeSlots := s.freeSlots + [s.nodes[n].slot], nodes := s.nodes - {n}, releasing := s.releasing - {n})
  }

  // ---------------------------------------------------------------- freeing

  /** The process gives up an address; an event will tell. */
  function UnmapPage<D>(s: State<D>, a: Addr, p: Page): State<D> {
    s.(pt := s.pt - {a}, phase := s.phase - {a}, dying := s.dying + {p}, place := s.place[p := Dying],
       events := s.events + multiset{p}, view := s.view - {a})
  }

  /** No event tells of an address that is in its slot, and nothing gives the slot back. */
  function LeaveSlot<D>(s: State<D>, a: Addr): State<D> {
    s.(pt := s.pt - {a}, phase := s.phase - {a}, view := s.view - {a})
  }

  /** `pindex_free`: the page, cleared, is moved to the end of the free list from whatever list it is on. */
  function GiveBack<D>(s: State<D>, p: Page): State<D> {
    s.(mem := s.mem[p := s.zero], used := Without(s.used, p), free := Without(s.free, p) + [p],
       owner := s.owner[p := Addr(0, 0)], usedMemory := s.usedMemory - PAGE_SIZE,
       dying := s.dying - {p}, events := s.events - multiset{p}, place := s.place[p := Free])
  }

  // ---------------------------------------------------------------- steps

  predicate AtOut<D>(s: State<D>, n: NodeId, pc: OutPc) {
    n in s.out && s.out[n] == pc && n in s.nodes
  }

  predicate NoSwapOut<D>(s: State<D>, a: Addr) {
    forall n :: n in s.out && n in s.nodes ==> s.nodes[n].addr != a
  }

  /** Page `p` is mapped at `a`, and no operation is at work on it. */
  predicate Settled<D>(s: State<D>, a: Addr, p: Page) {
    (In(s, a, Resident(p)) || (a in s.phase && s.phase[a].Parked? && s.phase[a].page == p)) && NoSwapOut(s, a)
  }

  /** The steps a state can take, and where they lead: first allocation and writes, ... */
  ghost predicate AllocNext<D>(s: State<D>, l: Step<D>, t: State<D>): (b: bool)
    ensures b ==> l.AllocTake? || l.AllocFail? || l.AllocMap? || l.AllocLink? || l.Write?
  {
    match l
    case AllocTake(a) => a !in s.phase && s.free != [] && t == TakePage(s, a)
    case AllocFail(a, p) => In(s, a, Allocating(p)) && t == PutBack(s, a, p)
    case AllocMap(a, p) => In(s, a, Allocating(p)) && p in s.mem && t == MapPage(s, a, p)
    case AllocLink(a, p) => In(s, a, Linking(p)) && t == LinkPage(s, a, p)
    case Write(a, d) => a in s.pt && s.pt[a].Present? && t == WriteTo(s, a, s.pt[a].page, d)
    case _ => false
  }

  /** ... eviction and freeing, ... */
  ghost predicate EvictNext<D>(s: State<D>, l: Step<D>, t: State<D>): (b: bool)
    ensures b ==> l.EvictPick? || l.EvictHold? || l.EvictDead? || l.Unmap? || l.UnmapAsleep? || l.FreePage?
  {
    match l
    case EvictPick(e) => e !in s.picks && s.used != [] && t == PickPage(s, e)
    case EvictHold(e, n) =>
      && e in s.picks && s.picks[e] !in s.dying && s.picks[e] in s.owner && s.freeSlots != [] && n !in s.nodes
      && t == StartSwapOut(s, e, s.picks[e], n)
    case EvictDead(e) => e in s.picks && s.picks[e] in s.dying && t == ReclaimDead(s, e, s.picks[e])
    case Unmap(a, p) => Settled(s, a, p) && t == UnmapPage(s, a, p)
    case UnmapAsleep(a, n) => In(s, a, Asleep(n)) && a !in s.hits && t == LeaveSlot(s, a)
    case FreePage(p) => p in s.events && t == GiveBack(s, p)
    case _ => false
  }

  /** ... swap-out, ... */
  ghost predicate OutNext<D>(s: State<D>, l: Step<D>, t: State<D>): (b: bool)
    ensures b ==> l.OutCache? || l.OutClear? || l.OutSeek? || l.OutWrite? || l.OutCommit?
  {
    match l
    case OutCache(n) => AtOut(s, n, Created) && t == EnterCache(s, n)
    case OutClear(n) => AtOut(s, n, Cached) && t == ClearPte(s, n, s.nodes[n])
    case OutSeek(n) => AtOut(s, n, Cleared) && t == SeekOut(s, n, s.nodes[n])
    case OutWrite(n) => AtOut(s, n, Sought) && s.nodes[n].page in s.mem && t == WriteSlot(s, n, s.nodes[n])
    case OutCommit(n) =>
      AtOut(s, n, Written) &&
      t == if s.nodes[n].retaken then AbandonSwapOut(s, n, s.nodes[n]) else FinishSwapOut(s, n, s.nodes[n])
    case _ => false
  }

  /** ... faults, served from the swap cache, ... */
  ghost predicate FaultNext<D>(s: State<D>, l: Step<D>, t: State<D>): (b: bool)
    ensures b ==> l.FaultHit? || l.FaultRetake? || l.RetakeMap? || l.FaultSwapIn?
  {
    match l
    case FaultHit(a) =>
      && SwapFault(s, a) && FindCached(s.cache, s.nodes, a) != []
      && t == HitCache(s, a, FindCached(s.cache, s.nodes, a)[0])
    case FaultRetake(a) => a in s.hits && s.hits[a] in s.nodes && t == Retake(s, a, s.hits[a])
    case RetakeMap(a, n, p) => In(s, a, Retaking(n, p)) && t == MapRetaken(s, a, n, p)
    case FaultSwapIn(a) =>
      && SwapFault(s, a) && FindCached(s.cache, s.nodes, a) == [] && s.pt[a].slot in s.holder
      && t == Turn(s, a, Found(s.holder[s.pt[a].slot]), s.pos)
    case _ => false
  }

  /** ... and from the slot, up to the page that is taken ... */
  ghost predicate TakeNext<D>(s: State<D>, l: Step<D>, t: State<D>): (b: bool)
    ensures b ==> l.InSeek? || l.InTake? || l.InRefuse? || l.InRetry? || l.InGiveUp?
  {
    match l
    case InSeek(a, n) => In(s, a, Found(n)) && n in s.nodes && t == Turn(s, a, Aimed(n), s.nodes[n].slot)
    case InTake(a, n) => In(s, a, Aimed(n)) && s.free != [] && t == TakeForRead(s, a, n)
    case InRefuse(a, n) => In(s, a, Aimed(n)) && s.free == [] && t == Turn(s, a, Refused(n), s.pos)
    case InRetry(a, n) => In(s, a, Refused(n)) && s.free != [] && t == TakePage(s, a)
    case InGiveUp(a, n) => In(s, a, Refused(n)) && s.free == [] && t == Turn(s, a, Asleep(n), s.pos)
    case _ => false
  }

  /** ... and from there on. */
  ghost predicate InNext<D>(s: State<D>, l: Step<D>, t: State<D>): (b: bool)
    ensures b ==> l.InRead? || l.InFail? || l.InMap? || l.InRestore? || l.InRelease?
  {
    match l
    case InRead(a, n, p) => In(s, a, Fetching(n, p)) && n in s.nodes && s.pos in s.disk && t == ReadSlot(s, a, n, p)
    case InFail(a, n, p) => In(s, a, Fetching(n, p)) && s.pos !in s.disk && t == FailRead(s, a, n, p)
    case InMap(a, n, p) => In(s, a, Loaded(n, p)) && t == MapLoaded(s, a, n, p)
    case InRestore(a, n, p) => In(s, a, Remapped(n, p)) && n in s.nodes && t == RestoreUsed(s, a, n, p)
    case InRelease(n) => n in s.releasing && n in s.nodes && t == ReleaseSlot(s, n)
    case _ => false
  }

  ghost predicate Next<D>(s: State<D>, l: Step<D>, t: State<D>) {
    || AllocNext(s, l, t) || EvictNext(s, l, t) || OutNext(s, l, t)
    || FaultNext(s, l, t) || TakeNext(s, l, t) || InNext(s, l, t)
  }

  /** Slot `k` is all there is of what the process put at `a` last. */
  predicate Needs<D>(s: State<D>, a: Addr, k: Slot) {
    && a in s.phase && (Sleeping(s.phase[a]) || s.phase[a].Fetching? || s.phase[a].Leaving?)
    && s.phase[a].node in s.nodes && s.nodes[s.phase[a].node].slot == k
    && (s.phase[a].Leaving? ==> s.phase[a].node in s.out && s.out[s.phase[a].node].Written?)
  }

  /** The swap-out at node `n` writes its own slot; or its page is in that slot as it is, or has been retaken, and what
      it writes over is the same or nobody needs it. */
  ghost predicate WritesWell<D>(s: State<D>, n: NodeId)
    requires n in s.nodes && s.nodes[n].page in s.mem
  {
    var v := s.nodes[n];
    || s.pos == v.slot
    || (&& (v.retaken || (v.slot in s.disk && s.disk[v.slot] == s.mem[v.page]))
        && (s.pos in s.disk && s.disk[s.pos] != s.mem[v.page] ==> forall a :: a in s.phase ==> !Needs(s, a, s.pos)))
  }

  /** The swap-in at node `n` reads its own slot, or one with the same in it. */
  ghost predicate ReadsWell<D>(s: State<D>, n: NodeId)
    requires n in s.nodes && s.pos in s.disk
  {
    s.pos == s.nodes[n].slot || (s.nodes[n].slot in s.disk && s.disk[s.pos] == s.disk[s.nodes[n].slot])
  }

  /** What the code does not see to:
      - an evictor holds a page that is settled where its fields say, as it is if nobody else has taken the page since
        it was picked;
      - a free event is for a page that has not been reclaimed;
      - an entry found in the swap cache is marked before its swap-out ends;
      - a swap-out or a swap-in transfers its own slot, as it does if nobody else has moved the file position since its
        seek, or gets the same result from another;
      - a swap-in that fails is not tried again as a first allocation. */
  ghost predicate Careful<D>(s: State<D>, l: Step<D>) {
    match l
    case EvictHold(e, _) => e in s.picks && s.picks[e] in s.owner && Settled(s, s.owner[s.picks[e]], s.picks[e])
    case FreePage(p) => p in s.dying
    case FaultRetake(a) => a in s.hits && In(s, a, Leaving(s.hits[a]))
    case OutWrite(n) => n in s.nodes && s.nodes[n].page in s.mem && WritesWell(s, n)
    case InRead(_, n, _) => n in s.nodes && s.pos in s.disk && ReadsWell(s, n)
    case InRetry(_, _) => false
    case _ => true
  }

  // ---------------------------------------------------------------- the invariant

  ghost predicate NoDup(s: seq<nat>) {
    forall i, j :: 0 <= i < j < |s| ==> s[i] != s[j]
  }

  lemma NoDupTail(s: seq<nat>)
    requires NoDup(s) && s != []
    ensures NoDup(s[1..]) && s[0] !in s[1..]
    ensures forall x :: x in s[1..] <==> x in s && x != s[0]
  {
  }

  lemma NoDupEnds(s: seq<nat>, x: nat)
    requires NoDup(s) && x !in s
    ensures NoDup([x] + s) && NoDup(s + [x])
  {
  }

  lemma {:induction false} NoDupWithout(s: seq<nat>, x: nat)
    requires NoDup(s)
    ensures NoDup(Without(s, x))
  {
    if s != [] {
      NoDupTail(s);
      NoDupWithout(s[1..], x);
      if s[0] != x { NoDupEnds(Without(s[1..], x), s[0]); }
    }
  }

  lemma {:induction false} WithoutSize(s: seq<nat>, x: nat)
    requires NoDup(s)
    ensures x !in s ==> Without(s, x) == s
    ensures x in s ==> |Without(s, x)| == |s| - 1
  {
    if s != [] {
      NoDupTail(s);
      WithoutSize(s[1..], x);
    }
  }

  /** The page an address has, if it is not asleep. */
  ghost predicate Has<D>(s: State<D>, ph: Phase, p: Page) {
    if ph.Leaving? then ph.node in s.nodes && s.nodes[ph.node].page == p
    else !Sleeping(ph) && ph.page == p
  }

  /** What is going on at address `a` agrees with the page table, the lists and the contents. */
  ghost predicate PhaseOk<D>(s: State<D>, a: Addr)
    requires a in s.phase
  {
    (a in s.hits ==> HitOk(s, a)) &&
    match s.phase[a]
    case Allocating(p) => a !in s.pt && a !in s.view && Takes(s, a, p)
    case Linking(p) => Maps(s, a, Present(p)) && Takes(s, a, p) && Shows(s, a, p)
    case Resident(p) =>
      && Maps(s, a, Present(p)) && Owns(s, a, p) && Shows(s, a, p)
      && p in s.used && p in s.owner && s.owner[p] == a
    case Leaving(n) =>
      && n in s.nodes && n in s.out && s.nodes[n].addr == a && !s.nodes[n].retaken
      && Owns(s, a, s.nodes[n].page) && Shows(s, a, s.nodes[n].page)
      && Maps(s, a, if s.out[n].Created? || s.out[n].Cached? then Present(s.nodes[n].page)
                    else Swapped(s.nodes[n].slot))
      && (s.out[n].Written? ==> Keeps(s, a, s.nodes[n].slot))
    case Retaking(n, p) => a in s.pt && s.pt[a].Swapped? && Owns(s, a, p) && Shows(s, a, p)
    case Parked(n, p) => Maps(s, a, Present(p)) && Owns(s, a, p) && Shows(s, a, p)
    case Asleep(n) => Stored(s, a, n)
    case Found(n) => Stored(s, a, n)
    case Aimed(n) => Stored(s, a, n)
    case Refused(n) => Stored(s, a, n)
    case Fetching(n, p) => Stored(s, a, n) && Takes(s, a, p)
    case Loaded(n, p) => Rests(s, a, n) && Maps(s, a, Swapped(s.nodes[n].slot)) && Takes(s, a, p) && Shows(s, a, p)
    case Remapped(n, p) => Rests(s, a, n) && Maps(s, a, Present(p)) && Takes(s, a, p) && Shows(s, a, p)
  }

  /** The swap-out that was found for `a` is at work on it, or has ended and nothing has happened there since. */
  ghost predicate HitOk<D>(s: State<D>, a: Addr)
    requires a in s.hits
  {
    a in s.pt && s.pt[a].Swapped? && (In(s, a, Leaving(s.hits[a])) || In(s, a, Asleep(s.hits[a])))
  }

  ghost predicate Maps<D>(s: State<D>, a: Addr, e: Pte) {
    a in s.pt && s.pt[a] == e
  }

  ghost predicate Owns<D>(s: State<D>, a: Addr, p: Page) {
    p in s.mem && p in s.place && s.place[p] == Of(a)
  }

  ghost predicate Takes<D>(s: State<D>, a: Addr, p: Page) {
    p in s.mem && p in s.place && s.place[p] == Taken(a)
  }

  /** Node `n` is swapped out for `a`: no swap-out is at work on it, no swap-in is done with it. */
  ghost predicate Rests<D>(s: State<D>, a: Addr, n: NodeId) {
    n in s.nodes && n !in s.out && n !in s.releasing && s.nodes[n].addr == a
  }

  /** What the process put at `a` last is in the slot of node `n`. */
  ghost predicate Stored<D>(s: State<D>, a: Addr, n: NodeId) {
    Rests(s, a, n) && Maps(s, a, Swapped(s.nodes[n].slot)) && Keeps(s, a, s.nodes[n].slot)
  }

  /** Page `p` holds what the process put at `a` last ... */
  ghost predicate Shows<D>(s: State<D>, a: Addr, p: Page) {
    p in s.mem && a in s.view && s.mem[p] == s.view[a]
  }

  /** ... or slot `k` does. */
  ghost predicate Keeps<D>(s: State<D>, a: Addr, k: Slot) {
    k in s.disk && a in s.view && s.disk[k] == s.view[a]
  }

  /** A page is free, or an address has it, or it is on its way from an address to the free list. */
  ghost predicate PageOk<D>(s: State<D>, p: Page) {
    && p in s.place
    && (p in s.free <==> s.place[p].Free?)
    && (p in s.dying <==> s.place[p].Dying?)
    && (s.place[p].Of? || s.place[p].Taken? ==> s.place[p].addr in s.phase && Has(s, s.phase[s.place[p].addr], p))
    && (p in s.used ==> s.place[p].Dying? || (s.place[p].Of? && s.phase[s.place[p].addr].Resident?))
  }

  /** A node owns its slot; a swap-out is on a leaving page, or on one that has been retaken. */
  ghost predicate NodeOk<D>(s: State<D>, n: NodeId)
    requires n in s.nodes
  {
    var v := s.nodes[n];
    && v.slot in s.disk && v.slot !in s.freeSlots && v.slot in s.holder && s.holder[v.slot] == n
    && (n in s.cache <==> n in s.out && !s.out[n].Created?)
    && (n in s.out ==> n !in s.releasing && v.addr in s.phase && v.page in s.mem)
    && (n in s.out && !v.retaken ==> s.phase[v.addr] == Leaving(n))
    && (n in s.out && v.retaken ==>
          && (s.out[n].Cleared? || s.out[n].Sought? || s.out[n].Written?)
          && (s.phase[v.addr] == Retaking(n, v.page) || s.phase[v.addr] == Parked(n, v.page)))
  }

  /** A slot is free or owned by a node. */
  ghost predicate SlotOk<D>(s: State<D>, k: Slot) {
    k in s.freeSlots || (k in s.holder && s.holder[k] in s.nodes && s.nodes[s.holder[k]].slot == k)
  }

  ghost predicate PageListsOk<D>(s: State<D>) {
    && NoDup(s.free) && NoDup(s.used)
    && (forall p :: p in s.free || p in s.used || p in s.dying ==> p in s.mem)
    && (forall e :: e in s.picks ==> s.picks[e] in s.mem)
    && (forall p :: p in s.events ==> p in s.mem) && (forall p :: p in s.dying ==> p in s.events)
    && s.usedMemory == PAGE_SIZE * (|s.mem| - |s.free|)
  }

  ghost predicate NodeListsOk<D>(s: State<D>) {
    && NoDup(s.freeSlots) && NoDup(s.cache)
    && (forall k :: k in s.freeSlots ==> k in s.disk)
    && (forall n :: n in s.cache ==> n in s.out)
    && s.out.Keys <= s.nodes.Keys && s.releasing <= s.nodes.Keys
  }

  ghost predicate ListsOk<D>(s: State<D>) {
    && PageListsOk(s) && NodeListsOk(s)
    && s.pt.Keys <= s.phase.Keys && s.hits.Keys <= s.phase.Keys && s.view.Keys <= s.phase.Keys
  }

  ghost predicate PhasesOk<D>(s: State<D>) {
    forall a {:trigger PhaseOk(s, a)} :: a in s.phase ==> PhaseOk(s, a)
  }

  ghost predicate PagesOk<D>(s: State<D>) {
    forall p {:trigger PageOk(s, p)} :: p in s.mem ==> PageOk(s, p)
  }

  ghost predicate NodesOk<D>(s: State<D>) {
    forall n {:trigger NodeOk(s, n)} :: n in s.nodes ==> NodeOk(s, n)
  }

  ghost predicate SlotsOk<D>(s: State<D>) {
    forall k {:trigger SlotOk(s, k)} :: k in s.disk ==> SlotOk(s, k)
  }

  ghost predicate Inv<D>(s: State<D>) {
    ListsOk(s) && PhasesOk(s) && PagesOk(s) && NodesOk(s) && SlotsOk(s)
  }
}
