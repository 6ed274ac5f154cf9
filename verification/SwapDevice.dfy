/** The loops of `impl/policies/evict/swap.c`: the slots of a new swap device, and the search of the swap cache. */
module SwapDevice {
  import opened Paging

  const MAX_DEVICE_SIZE: nat := 0x2000_0000_0000_0000

  datatype SwapNodes = SwapNodes(free: seq<Slot>, offset: seq<nat>)

  datatype Result<T> = Ok(value: T) | Failed

  /** `init_swap_device_nodes`; `alloc` says whether there was memory for the nodes. All slots are free, each once,
      from the last one down, and a slot's offset is its index in pages. */
  method InitSwapDeviceNodes(size: nat, alloc: bool) returns (r: Result<SwapNodes>)
    ensures r.Ok? <==> size % 4096 == 0 && size <= 0x2000_0000_0000_0000 && alloc
    ensures r.Ok? ==> var n := size / 4096;
                      && NoDup(r.value.free) && (forall k :: k in r.value.free <==> 0 <= k < n)
                      && |r.value.free| == n && (forall k :: 0 <= k < n ==> r.value.free[k] == n - 1 - k)
                      && |r.value.offset| == n && (forall k :: 0 <= k < n ==> r.value.offset[k] == k * 4096)
  {
    if size % PAGE_SIZE != 0 || size > MAX_DEVICE_SIZE || !alloc {
      return Failed;
    }
    var free, offset: seq<nat> := [], [];
    var itr := 0;
    while itr * PAGE_SIZE < size
      invariant itr <= size / PAGE_SIZE && |free| == itr && |offset| == itr
      invariant forall k :: 0 <= k < itr ==> free[k] == itr - 1 - k && offset[k] == k * PAGE_SIZE
    {
      offset := offset + [itr * PAGE_SIZE];
      free := [itr] + free;
      itr := itr + 1;
    }
    forall k ensures k in free <==> 0 <= k < itr
    {
      if 0 <= k < itr { assert free[itr - 1 - k] == k; }
    }
    r := Ok(SwapNodes(free, offset));
  }

  /** `trySwapCache`: the first entry for the address, if any, is marked as retaken. */
  method TrySwapCache(cache: seq<NodeId>, nodes: map<NodeId, ToSwap>, a: Addr)
    returns (hit: bool, page: Page, marked: map<NodeId, ToSwap>)
    requires forall n :: n in cache ==> n in nodes
    ensures hit <==> FindCached(cache, nodes, a) != []
    ensures !hit ==> marked == nodes
    ensures hit ==> var n := FindCached(cache, nodes, a)[0];
                    page == nodes[n].page && marked == nodes[n := nodes[n].(retaken := true)]
  {
    var i := 0;
    while i < |cache|
      invariant i <= |cache| && FindCached(cache[i..], nodes, a) == FindCached(cache, nodes, a)
    {
      var n := cache[i];
      if nodes[n].addr == a {
        return true, nodes[n].page, nodes[n := nodes[n].(retaken := true)];
      }
      i := i + 1;
    }
    return false, 0, nodes;
  }
}
