/**
 How a batch of copies is cut into DMA requests, and how many are expected to complete.
 */
module DmaSplit {

  const WORD: nat := 0x1_0000_0000_0000_0000
  const MAX_SIZE_PER_DMA_REQUEST: nat := 0x20_0000

  /** `len` bytes from `src` to `dst`, physical addresses. */
  datatype Copy = Copy(dst: nat, src: nat, len: nat)

  function Add64(a: nat, b: nat): nat
    requires a < WORD && b < WORD
  {
    if a + b < WORD then a + b else a + b - WORD
  }

  // ---------------------------------------------------------------- one copy

  /** The requests of a copy: as long as allowed, one after the other. */
  function Split(c: Copy, size: nat): (q: seq<Copy>)
    requires size > 0
    decreases c.len
  {
    if c.len == 0 then []
    else
      var n := if c.len < size then c.len else size;
      [Copy(c.dst, c.src, n)] + Split(Copy(c.dst + n, c.src + n, c.len - n), size)
  }

  /** `len` rounded up to a multiple of `size`. */
  function Rounded(len: nat, size: nat): (r: nat)
    requires size > 0
    ensures len <= r < len + size
    decreases len
  {
    if len == 0 then 0 else if len <= size then size else size + Rounded(len - size, size)
  }

  /** What `expect_count` allows for one copy. */
  function Expected(len: nat, size: nat): nat
    requires size > 0
  {
    if len % size == 0 then len / size else len / size + 1
  }

  lemma DivStep(len: nat, size: nat)
    requires 0 < size <= len
    ensures (len - size) / size == len / size - 1 && (len - size) % size == len % size
  {
    var q, r := len / size, len % size;
    assert len - size == size * (q - 1) + r;
    DivUnique(len - size, size, q - 1, r);
  }

  lemma DivUnique(a: nat, d: nat, q: int, r: nat)
    requires d > 0 && r < d && a == d * q + r
    ensures a / d == q && a % d == r
  {
    var x, y := a / d, a % d;
    assert d * (x - q) == r - y;
    if x > q { Multiple(d, x - q); } else if x < q { Multiple(d, q - x); }
  }

  lemma Multiple(d: nat, k: nat)
    requires k >= 1
    ensures d * k >= d
  {
  }

  /** The number of requests is the number expected. */
  lemma {:induction false} SplitCount(c: Copy, size: nat)
    requires size > 0
    ensures |Split(c, size)| == Expected(c.len, size)
    decreases c.len
  {
    if c.len != 0 {
      var n := if c.len < size then c.len else size;
      SplitCount(Copy(c.dst + n, c.src + n, c.len - n), size);
      if c.len < size { DivUnique(c.len, size, 0, c.len); } else { DivStep(c.len, size); }
    }
  }

  predicate Covers(c: Copy, x: nat) {
    c.dst <= x < c.dst + c.len
  }

  /** Request `q` does a part of copy `c`. */
  predicate PartOf(q: Copy, c: Copy) {
    c.dst <= q.dst && q.dst + q.len <= c.dst + c.len && q.src - q.dst == c.src - c.dst && q.len > 0
  }

  /** The requests tile the copy: each begins where the one before ends, from the first byte to the last; all but the
      last are as long as allowed, and that one is no longer. */
  ghost predicate Tiles(q: seq<Copy>, c: Copy, size: nat) {
    && (forall k :: 0 <= k < |q| ==> PartOf(q[k], c) && q[k].len <= size)
    && (c.len == 0 <==> q == [])
    && (q != [] ==> q[0].dst == c.dst && q[|q| - 1].dst + q[|q| - 1].len == c.dst + c.len)
    && (forall k :: 0 < k < |q| ==> Joined(q, k) && q[k - 1].len == size)
  }

  predicate Joined(q: seq<Copy>, k: nat)
    requires 0 < k < |q|
  {
    q[k].dst == q[k - 1].dst + q[k - 1].len
  }

  lemma {:induction false} SplitTiles(c: Copy, size: nat)
    requires size > 0
    ensures Tiles(Split(c, size), c, size)
    decreases c.len
  {
    hide Tiles;
    if c.len == 0 {
      NothingTiles(c, size);
    } else {
      var n := if c.len < size then c.len else size;
      var rest := Copy(c.dst + n, c.src + n, c.len - n);
      SplitTiles(rest, size);
      TilesCons(c, n, Split(rest, size), size);
    }
  }

  lemma NothingTiles(c: Copy, size: nat)
    requires c.len == 0
    ensures Tiles([], c, size)
  {
  }

  lemma TilesCons(c: Copy, n: nat, q: seq<Copy>, size: nat)
    requires 0 < n <= c.len && n <= size && (n < size ==> n == c.len)
    requires Tiles(q, Copy(c.dst + n, c.src + n, c.len - n), size)
    ensures Tiles([Copy(c.dst, c.src, n)] + q, c, size)
  {
    var first := Copy(c.dst, c.src, n);
    var p := [first] + q;
    forall k | 0 <= k < |p| ensures PartOf(p[k], c) && p[k].len <= size
    {
      if k > 0 { assert p[k] == q[k - 1]; }
    }
    forall k | 0 < k < |p| ensures Joined(p, k) && p[k - 1].len == size
    {
      if k > 1 { assert Joined(q, k - 1) && p[k - 1] == q[k - 2]; }
    }
  }

  /** So every byte is in exactly one request. */
  lemma {:induction false} TilesOrder(q: seq<Copy>, c: Copy, size: nat, j: nat, k: nat)
    requires Tiles(q, c, size) && j < k < |q|
    ensures q[j].dst + q[j].len <= q[k].dst
    decreases k
  {
    assert Joined(q, k);
    if j < k - 1 {
      TilesOrder(q, c, size, j, k - 1);
      assert PartOf(q[k - 1], c);
    }
  }

  lemma {:induction false} TilesCover(q: seq<Copy>, c: Copy, size: nat, n: nat, x: nat) returns (k: nat)
    requires Tiles(q, c, size) && 0 < n <= |q| && c.dst <= x < q[n - 1].dst + q[n - 1].len
    ensures k < n && Covers(q[k], x)
    decreases n
  {
    if q[n - 1].dst <= x {
      k := n - 1;
    } else {
      assert n > 1 ==> Joined(q, n - 1);
      k := TilesCover(q, c, size, n - 1, x);
    }
  }

  // ---------------------------------------------------------------- the chunk loop, in 64-bit arithmetic

  /** The length of the next request. */
  function ChunkLen(done: nat, len: nat, size: nat): (n: nat)
    requires done < len < WORD && 0 < size <= MAX_SIZE_PER_DMA_REQUEST
  {
    if Add64(done, size) > len then len - done else size
  }

  /** A request stays inside the copy exactly when its end does not wrap. */
  lemma ChunkStays(done: nat, len: nat, size: nat)
    requires done < len < WORD && 0 < size <= MAX_SIZE_PER_DMA_REQUEST
    ensures done + ChunkLen(done, len, size) <= len <==> done + size < WORD
  {
  }

  /** `done` is a multiple of `size`: where a request of full length can begin. */
  predicate Start(done: nat, size: nat)
    requires size > 0
  {
    done == 0 || (done >= size && Start(done - size, size))
  }

  lemma {:induction false} LastStart(len: nat, size: nat)
    requires size > 0 && len > 0
    ensures Rounded(len, size) >= size && Start(Rounded(len, size) - size, size) && Rounded(len, size) - size < len
    decreases len
  {
    if len > size { LastStart(len - size, size); }
  }

  lemma {:induction false} StartBelow(done: nat, len: nat, size: nat)
    requires size > 0 && Start(done, size) && done < len
    ensures done + size <= Rounded(len, size)
    decreases len
  {
    if done != 0 { StartBelow(done - size, len - size, size); }
  }

  /** All requests of a copy stay inside it exactly when its length, rounded up to whole requests, fits in 64 bits. */
  lemma ChunksStay(len: nat, size: nat)
    requires 0 < len < WORD && 0 < size <= MAX_SIZE_PER_DMA_REQUEST
    ensures (forall done: nat :: done < len && Start(done, size) ==> done + ChunkLen(done, len, size) <= len)
            <==> Rounded(len, size) < WORD
  {
    LastStart(len, size);
    if Rounded(len, size) < WORD {
      forall done: nat | done < len && Start(done, size) ensures done + ChunkLen(done, len, size) <= len
      {
        StartBelow(done, len, size);
        ChunkStays(done, len, size);
      }
    } else {
      ChunkStays(Rounded(len, size) - size, len, size);
    }
  }

  lemma {:induction false} StartMultiple(k: nat, size: nat)
    requires size > 0
    ensures Start(k * size, size)
  {
    if k > 0 {
      StartMultiple(k - 1, size);
      assert k * size == (k - 1) * size + size;
      assert k * size >= size && k * size - size == (k - 1) * size;
    }
  }

  /** Where 2^64 is a number of whole requests, a length that leaves less than one request to it overruns. */
  lemma Overruns(len: nat, size: nat, k: nat)
    requires 0 < size <= MAX_SIZE_PER_DMA_REQUEST && k * size + size == WORD && k * size < len < WORD
    ensures Rounded(len, size) >= WORD
  {
    StartMultiple(k, size);
    StartBelow(k * size, len, size);
  }

  lemma RoundedStep(len: nat, size: nat)
    requires 0 < size < len
    ensures Rounded(len, size) == size + Rounded(len - size, size)
  {
  }

  lemma SplitNothing(dst: nat, src: nat, size: nat)
    requires size > 0
    ensures Split(Copy(dst, src, 0), size) == []
  {
  }

  lemma SplitStep(c: Copy, size: nat, n: nat)
    requires size > 0 && c.len > 0 && n == if c.len < size then c.len else size
    ensures Split(c, size) == [Copy(c.dst, c.src, n)] + Split(Copy(c.dst + n, c.src + n, c.len - n), size)
  {
  }

  /** The loop over one copy, up to the first request that runs over the end of the copy, if there is one. */
  method SubmitCopy(c: Copy, size: nat, submitted: seq<Copy>) returns (chunks: seq<Copy>, overran: bool)
    requires 0 < size <= MAX_SIZE_PER_DMA_REQUEST && c.len < WORD
    ensures overran <==> Rounded(c.len, size) >= WORD
    ensures !overran ==> chunks == submitted + Split(c, size)
    ensures overran ==>
      && |chunks| > |submitted| && chunks[..|chunks| - 1] <= submitted + Split(c, size)
      && var last := chunks[|chunks| - 1];
         c.dst <= last.dst < c.dst + c.len < last.dst + last.len && last.src - last.dst == c.src - c.dst
  {
    hide Split;
    chunks, overran := submitted, false;
    var src, dst, lenCur := c.src, c.dst, 0;
    while lenCur < c.len
      invariant lenCur <= c.len && src == c.src + lenCur && dst == c.dst + lenCur && |chunks| >= |submitted|
      invariant chunks + Split(Copy(dst, src, c.len - lenCur), size) == submitted + Split(c, size)
      invariant lenCur < c.len ==> lenCur + Rounded(c.len - lenCur, size) == Rounded(c.len, size)
      invariant lenCur == c.len ==> Rounded(c.len, size) < WORD
    {
      var dmaLen := ChunkLen(lenCur, c.len, size);
      ChunkStays(lenCur, c.len, size);
      if lenCur + dmaLen > c.len {
        chunks, overran := chunks + [Copy(dst, src, dmaLen)], true;
        return;
      }
      if c.len - lenCur > size { RoundedStep(c.len - lenCur, size); }
      SplitStep(Copy(dst, src, c.len - lenCur), size, dmaLen);
      chunks := chunks + [Copy(dst, src, dmaLen)];
      lenCur, src, dst := lenCur + dmaLen, src + dmaLen, dst + dmaLen;
    }
    assert Split(Copy(dst, src, 0), size) == [] by { SplitNothing(dst, src, size); }
  }

  // ---------------------------------------------------------------- the batch

  function SplitAll(batch: seq<Copy>, size: nat): seq<Copy>
    requires size > 0
  {
    if batch == [] then [] else SplitAll(batch[..|batch| - 1], size) + Split(batch[|batch| - 1], size)
  }

  lemma SplitAllSnoc(batch: seq<Copy>, c: Copy, size: nat)
    requires size > 0
    ensures SplitAll(batch + [c], size) == SplitAll(batch, size) + Split(c, size)
  {
    assert (batch + [c])[..|batch|] == batch;
  }

  ghost predicate Fits(batch: seq<Copy>, size: nat)
    requires size > 0
  {
    forall i :: 0 <= i < |batch| ==> Rounded(batch[i].len, size) < WORD
  }

  /** The loop over the batch, up to the first request that runs over the end of its copy, if there is one. */
  method SubmitBatch(batch: seq<Copy>, size: nat) returns (chunks: seq<Copy>, overran: bool)
    requires 0 < size <= MAX_SIZE_PER_DMA_REQUEST && forall i :: 0 <= i < |batch| ==> batch[i].len < WORD
    ensures overran <==> !Fits(batch, size)
    ensures !overran ==> chunks == SplitAll(batch, size)
  {
    chunks, overran := [], false;
    for i := 0 to |batch|
      invariant !overran && chunks == SplitAll(batch[..i], size)
      invariant forall j :: 0 <= j < i ==> Rounded(batch[j].len, size) < WORD
    {
      assert batch[..i + 1] == batch[..i] + [batch[i]];
      SplitAllSnoc(batch[..i], batch[i], size);
      chunks, overran := SubmitCopy(batch[i], size, chunks);
      if overran {
        return;
      }
    }
    assert batch[..|batch|] == batch;
  }

  /** A copy from 0 to 0 of all of memory but its last page: the addresses and the length are multiples of the page
      size, and neither range wraps, as the code demands; with requests of 2 MiB it overruns. */
  lemma OverrunExample(c: Copy, size: nat)
    requires c == Copy(0, 0, WORD - 4096) && size == 0x20_0000
    ensures c.len % 4096 == 0 && c.len < WORD && Add64(c.src, c.len) > c.src && Add64(c.dst, c.len) > c.dst
    ensures !Fits([c], size)
  {
    hide Rounded;
    Overruns(c.len, size, 0x7FF_FFFF_FFFF);
    assert [c][0] == c;
  }

  /** `expect_count` is the number of requests that will be submitted. */
  method ExpectCount(batch: seq<Copy>, size: nat) returns (n: nat)
    requires size > 0
    ensures n == |SplitAll(batch, size)|
  {
    n := 0;
    for i := 0 to |batch|
      invariant n == |SplitAll(batch[..i], size)|
    {
      assert batch[..i + 1] == batch[..i] + [batch[i]];
      SplitAllSnoc(batch[..i], batch[i], size);
      SplitCount(batch[i], size);
      if batch[i].len % size == 0 {
        n := n + batch[i].len / size;
      } else {
        n := n + (batch[i].len / size + 1);
      }
    }
    assert batch[..|batch|] == batch;
  }
}
