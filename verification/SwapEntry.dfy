/**
 The page-table entry of a swapped page: how a slot is packed into it, and how a fault on it finds the slot again.

 The arithmetic is that of 64-bit words. A slot is the device's number and the index of the slot on the device, its
 offset over the page size.
 */
module SwapEntry {

  type Word = bv64

  /** `swap_value`. */
  function Pack(index: Word, device: Word): Word {
    ((((index << 14) >> 5) | (device << 59)) & !((1 as Word) << 0)) & !((1 as Word) << 8)
  }

  /** What a fault on an entry carries. */
  function FaultOffset(entry: Word): Word {
    entry * 4096
  }

  /** `event_to_swap_entry`: the number of the device, ... */
  function DeviceOf(offset: Word): Word {
    offset >> 59
  }

  /** ... and the index on it. */
  function IndexOf(offset: Word): Word {
    ((offset << 5) >> 14) / 4096
  }

  /** The low nine bits of an entry are clear, and so the two the kernel tests to tell a present entry. Clearing them
      loses nothing: what was packed stands in the rest. */
  lemma ReservedBitsClear(index: Word, device: Word)
    ensures Pack(index, device) & 0x1FF == 0
    ensures Pack(index, device) >> 59 == device & 31
    ensures (Pack(index, device) << 5) >> 14 == index & 0x3_FFFF_FFFF_FFFF
  {
  }

  /** Two slots share an entry exactly when they agree in the low 50 bits of the index and the low 5 of the device. */
  lemma PackCollides(i: Word, d: Word, j: Word, e: Word)
    ensures Pack(i, d) == Pack(j, e) <==>
            i & 0x3_FFFF_FFFF_FFFF == j & 0x3_FFFF_FFFF_FFFF && d & 31 == e & 31
  {
    if Pack(i, d) == Pack(j, e) {
      ReservedBitsClear(i, d);
      ReservedBitsClear(j, e);
    } else {
      PackLowBits(i, d);
      PackLowBits(j, e);
    }
  }

  lemma PackLowBits(i: Word, d: Word)
    ensures Pack(i, d) == Pack(i & 0x3_FFFF_FFFF_FFFF, d & 31)
  {
  }

  /** So packing is injective on the indices below 2^50 of devices below 32. */
  lemma PackInjective(i: Word, d: Word, j: Word, e: Word)
    requires i < 0x4_0000_0000_0000 && j < 0x4_0000_0000_0000 && d < 32 && e < 32
    requires Pack(i, d) == Pack(j, e)
    ensures i == j && d == e
  {
    PackCollides(i, d, j, e);
  }

  /** What a fault on a slot of device 0 carries: the index, in units of 2 MiB. */
  lemma FaultCarries(index: Word)
    ensures FaultOffset(Pack(index, 0)) == index * 0x20_0000
  {
  }

  /** What a fault finds of the slot: the low 38 bits of the index, and in place of the device the five bits above. */
  lemma FaultFinds(index: Word, device: Word)
    ensures IndexOf(FaultOffset(Pack(index, device))) == index & 0x3F_FFFF_FFFF
    ensures DeviceOf(FaultOffset(Pack(index, device))) == (index >> 38) & 31
  {
  }

  /** The index comes back exactly when it is below 2^38 ... */
  lemma IndexRoundTrip(index: Word, device: Word)
    ensures IndexOf(FaultOffset(Pack(index, device))) == index <==> index < 0x40_0000_0000
  {
    FaultFinds(index, device);
  }

  /** ... and the slot, device and all, when besides it is on device 0. */
  lemma SlotRoundTrip(index: Word, device: Word)
    ensures IndexOf(FaultOffset(Pack(index, device))) == index && DeviceOf(FaultOffset(Pack(index, device))) == device
            <==> index < 0x40_0000_0000 && device == 0
  {
    FaultFinds(index, device);
    IndexRoundTrip(index, device);
  }

  /** A slot of any other device is taken for one of device 0. */
  lemma DeviceLost()
    ensures var offset := FaultOffset(Pack(7, 1)); IndexOf(offset) == 7 && DeviceOf(offset) == 0
  {
    FaultFinds(7, 1);
  }

  /** On a device of a size that is accepted, no two slots share an entry ... */
  lemma AcceptedDistinct(size: Word, device: Word, i: Word, j: Word)
    requires size <= 0x2000_0000_0000_0000 && i < size / 4096 && j < size / 4096
    requires Pack(i, device) == Pack(j, device)
    ensures i == j
  {
    PackCollides(i, device, j, device);
  }

  /** ... and all of them are found again exactly when it has no more than 2^38 slots. */
  lemma AllFound(size: Word, device: Word)
    ensures (forall i :: i < size / 4096 ==> IndexOf(FaultOffset(Pack(i, device))) == i)
            <==> size / 4096 <= 0x40_0000_0000
  {
    forall i ensures IndexOf(FaultOffset(Pack(i, device))) == i <==> i < 0x40_0000_0000
    {
      IndexRoundTrip(i, device);
    }
    if size / 4096 > 0x40_0000_0000 { IndexRoundTrip(0x40_0000_0000, device); }
  }
}
