/**
 The open-addressed hash map of `impl/usm/hashmap.c`: displacement on insertion, backward shift on
 deletion, and growing and shrinking by re-insertion.

 The hash function is arbitrary. Two items are the same when their clipped hashes and their keys are:
 `compare(a, b) == 0` is equality of keys here (a map without a compare function has one key only).
 Whether a memory request is granted is the `alloc` argument.
 */
module HashMaps {
  import opened Bits
  import opened RobinHood
  import opened Crowding
  import opened Insertion

  datatype Option<+T> = None | Some(value: T)

  /** The `hash` field has 48 bits. */
  const HASH_MASK: nat := 0xFFFF_FFFF_FFFF

  function Clip(hash: nat): nat {
    And(hash, HASH_MASK)
  }

  /** Clipping keeps the low 48 bits. */
  lemma ClipMod(hash: nat)
    ensures Clip(hash) == hash % 0x1_0000_0000_0000
  {
    assert IsPow2(0x1_0000);
    Pow2Mul(0x1_0000, 0x1_0000);
    Pow2Mul(0x1_0000_0000, 0x1_0000);
    MaskMod(hash, 0x1_0000_0000_0000);
  }

  ghost function Lookup<K, V>(m: map<Id<K>, V>, id: Id<K>): Option<V> {
    if id in m then Some(m[id]) else None
  }

  /** `1 << p`. */
  function Shift1(p: nat): nat {
    if p == 0 then 1 else 2 * Shift1(p - 1)
  }

  /** It turns sums into products, from 2 on. */
  lemma {:induction false} ShiftSum(p: nat, q: nat)
    ensures Shift1(p + q) == Shift1(p) * Shift1(q) && Shift1(1) == 2
  {
    if p > 0 {
      ShiftSum(p - 1, q);
      Twice(Shift1(p - 1), Shift1(q));
    }
  }

  lemma {:induction false} Pow2Shift(n: nat, p: nat)
    requires IsPow2(n)
    ensures IsPow2(n * Shift1(p)) && n * Shift1(p) >= n
    ensures p >= 1 ==> n * Shift1(p) >= 2 * n
  {
    if p > 0 {
      Pow2Shift(n, p - 1);
      Doubled(n, Shift1(p - 1));
    } else {
      assert n * 1 == n;
    }
  }

  lemma Doubled(n: nat, q: nat)
    requires IsPow2(n * q)
    ensures n * (2 * q) == 2 * (n * q) && IsPow2(n * (2 * q))
  {
    var m := n * q;
    assert n * (2 * q) == 2 * m;
    assert (2 * m) / 2 == m;
  }

  /** The capacity rounding of `hashmap_new_with_allocator`. */
  method RoundCapacity(cap: nat) returns (ncap: nat)
    ensures IsPow2(ncap) && ncap >= 16 && ncap >= cap
    ensures ncap == 16 || ncap < 2 * cap
  {
    ncap := 16;
    while ncap < cap
      invariant IsPow2(ncap) && ncap >= 16
      invariant ncap == 16 || ncap < 2 * cap
      decreases cap - ncap
    {
      assert (ncap * 2) / 2 == ncap;
      ncap := ncap * 2;
    }
  }

  lemma {:induction false} RoundCapacityExact(cap: nat, ncap: nat)
    requires IsPow2(cap) && cap >= 16
    requires IsPow2(ncap) && ncap >= cap && (ncap == 16 || ncap < 2 * cap)
    ensures ncap == cap
  {
    if ncap > cap { Pow2Gap(cap, ncap); }
  }

  method NewBuckets<K(0), V(0)>(n: nat) returns (a: array<Bucket<K, V>>)
    ensures fresh(a) && a.Length == n
    ensures forall i :: 0 <= i < n ==> a[i].dib == 0
  {
    a := new Bucket<K, V>[n];
    ClearBuckets(a, n);
  }

  method ClearBuckets<K, V>(a: array<Bucket<K, V>>, n: nat)
    requires n <= a.Length
    modifies a
    ensures forall i :: 0 <= i < n ==> a[i].dib == 0
  {
    for i := 0 to n
      invariant forall j :: 0 <= j < i ==> a[j].dib == 0
    {
      a[i] := a[i].(dib := 0);
    }
  }

  lemma Pow2Half(n: nat)
    requires IsPow2(n) && n > 1
    ensures IsPow2(n / 2)
  {
  }

  lemma EmptyTable<K, V>(t: Table<K, V>)
    requires |t| >= 4 && forall i :: 0 <= i < |t| ==> t[i].dib == 0
    ensures WellFormed(t) && Fits(t) && Contents(t) == map[] && Occupied(t) == {}
  {
    assert forall i :: 0 <= i < |t| ==> OrderedAt(t, i);
  }

  /** The bindings of `c` are among those of `m`. */
  ghost predicate Among<K, V>(c: map<Id<K>, V>, m: map<Id<K>, V>) {
    forall x :: x in c ==> x in m && m[x] == c[x]
  }

  /** The inner loop of `resize0`: the entry in bucket `i` of the old table goes into the new table; what it
      displaces is kept, on its way, in bucket `i` of the old table. */
  method Reinsert<K, V>(source: array<Bucket<K, V>>, i: nat, a: array<Bucket<K, V>>, mask: nat)
    requires source != a && i < source.Length && source[i].dib > 0
    requires IsPow2(a.Length) && mask == a.Length - 1 && Distinct(a[..]) && Fits(a[..])
    requires source[i].Ident() !in Contents(a[..]) && |Occupied(a[..])| < a.Length
    modifies source, a
    ensures Distinct(a[..]) && Fits(a[..]) && |Occupied(a[..])| <= old(|Occupied(a[..])|) + 1
    ensures Among(Contents(a[..]), old(Contents(a[..])[source[i].Ident() := source[i].val]))
    ensures old(WellFormed(a[..]) && !Crowds(Contents(a[..]), source[i].Ident(), a.Length)) ==>
      && WellFormed(a[..]) && |Occupied(a[..])| == old(|Occupied(a[..])|) + 1
      && Contents(a[..]) == old(Contents(a[..])[source[i].Ident() := source[i].val])
    ensures forall k :: 0 <= k < source.Length && k != i ==> source[k] == old(source[k])
  {
    hide WellFormed, Contents, Occupied, Storing, Distinct, Crowds, Fits;
    ghost var n, t0, id, val := a.Length, a[..], source[i].Ident(), source[i].val;
    ghost var z := EmptyExists(t0);
    source[i] := source[i].(dib := 1);
    var j: nat := And(source[i].hash, mask);
    StoreStart(t0, source[i]);
    while true
      invariant j < n && z < n && a[z].dib == 0
      invariant Storing(t0, a[..], source[i], j, id, val)
      invariant forall k :: 0 <= k < source.Length && k != i ==> source[k] == old(source[k])
      decreases Dist(j, z, n)
    {
      ghost var t, e, k := a[..], source[i], j;
      var b := a[j];
      if b.dib == 0 {
        Stored(t0, t, e, j, id, val);
        a[j] := source[i];
        assert a[..] == t[j := e];
        return;
      }
      NoMatch(t0, t, e, j, id, val);
      StoreStep(t0, t, e, j, z, id, val);
      if b.dib < source[i].dib {
        a[j] := source[i];
        source[i] := b;
      }
      MaskedNext(j, n);
      j := And(j + 1, mask);
      source[i] := source[i].(dib := IncDib(source[i].dib));
      assert a[..] == Met(t, e, k);
    }
  }

  lemma NoMatch<K, V>(t0: Table<K, V>, t: Table<K, V>, e: Bucket<K, V>, i: nat, id: Id<K>, val: V)
    requires Storing(t0, t, e, i, id, val) && id !in Contents(t0) && t[i].dib > 0
    ensures t[i].Ident() != e.Ident()
  {
    if t[i].Ident() == e.Ident() { StoreMatch(t0, t, e, i, id, val); }
  }

  /** How a new entry ends up in the empty bucket. */
  lemma Stored<K, V>(t0: Table<K, V>, t: Table<K, V>, e: Bucket<K, V>, i: nat, id: Id<K>, val: V)
    requires Storing(t0, t, e, i, id, val) && t[i].dib == 0 && id !in Contents(t0)
    ensures var u := t[i := e];
            && Distinct(u) && Fits(u) && |Occupied(u)| <= |Occupied(t0)| + 1
            && Among(Contents(u), Contents(t0)[id := val])
            && (WellFormed(t0) && !Crowds(Contents(t0), id, |t0|) ==>
                  WellFormed(u) && Contents(u) == Contents(t0)[id := val] && |Occupied(u)| == |Occupied(t0)| + 1)
  {
    hide WellFormed, Contents, Occupied, Distinct, Crowds, OnCourse, Loose, Lapped, Wraps, Within;
    StoreCrowded(t0, t, e, i, id, val);
    if WellFormed(t0) && !Crowds(Contents(t0), id, |t0|) { StoreEmpty(t0, t, e, i, id, val); }
  }

  /** The first `i` buckets and the next one. */
  lemma PrefixStep<K, V>(t: Table<K, V>, i: nat)
    requires WellFormed(t) && i < |t|
    ensures t[i].dib == 0 ==> Contents(t[..i + 1]) == Contents(t[..i])
    ensures t[i].dib == 0 ==> |Occupied(t[..i + 1])| == |Occupied(t[..i])|
    ensures t[i].dib > 0 ==> t[i].Ident() !in Contents(t[..i])
    ensures t[i].dib > 0 ==> Contents(t[..i + 1]) == Contents(t[..i])[t[i].Ident() := t[i].val]
    ensures t[i].dib > 0 ==> |Occupied(t[..i + 1])| == |Occupied(t[..i])| + 1
    ensures |Occupied(t[..i + 1])| <= |Occupied(t)|
  {
    hide Contents, Placed, Ordered;
    var s, b := t[..i], t[i];
    PrefixDistinct(t, i + 1);
    assert t[..i + 1] == s + [b];
    ContentsSnoc(s, b);
    OccupiedSnoc(s, b);
    SubsetSize(Occupied(t[..i + 1]), Occupied(t));
  }

  lemma PrefixDistinct<K, V>(t: Table<K, V>, i: nat)
    requires Distinct(t) && i <= |t|
    ensures Distinct(t[..i]) && Occupied(t[..i]) <= Occupied(t)
  {
    assert forall k :: 0 <= k < i ==> t[..i][k] == t[k];
  }

  lemma ContentsOf<K, V>(t: Table<K, V>)
    requires WellFormed(t)
    ensures forall i :: 0 <= i < |t| && t[i].dib > 0 ==>
      t[i].Ident() in Contents(t) && Contents(t)[t[i].Ident()] == t[i].val
  {
    ContentsAt(t);
  }

  lemma PrefixEnds<K, V>(t: Table<K, V>)
    ensures Contents(t[..0]) == map[] && Occupied(t[..0]) == {}
    ensures t[..|t|] == t
  {
  }

  /** The outer loop of `resize0`: every entry of the first `n` buckets of `source`, once. */
  method Rehash<K, V>(source: array<Bucket<K, V>>, n: nat, a: array<Bucket<K, V>>, mask: nat)
    requires source != a && n <= source.Length && WellFormed(source[..n])
    requires IsPow2(a.Length) && a.Length >= 4 && mask == a.Length - 1
    requires forall i :: 0 <= i < a.Length ==> a[i].dib == 0
    requires |Occupied(source[..n])| < a.Length
    modifies source, a
    ensures Distinct(a[..]) && Fits(a[..]) && |Occupied(a[..])| <= old(|Occupied(source[..n])|)
    ensures Among(Contents(a[..]), old(Contents(source[..n])))
    ensures !old(Crowded(Contents(source[..n]).Keys, a.Length)) ==>
      && WellFormed(a[..]) && Contents(a[..]) == old(Contents(source[..n]))
      && |Occupied(a[..])| == old(|Occupied(source[..n])|)
    ensures old(Crowded(Contents(source[..n]).Keys, a.Length)) ==>
      !(WellFormed(a[..]) && |Occupied(a[..])| == old(|Occupied(source[..n])|))
  {
    hide WellFormed, Contents, Occupied, Distinct, Crowded, Crowds, Fits, Among;
    ghost var t := source[..n];
    ghost var roomy := !Crowded(Contents(t).Keys, a.Length);
    PrefixEnds(t);
    EmptyTable(a[..]);
    AmongEmpty(Contents(t[..0]));
    for i := 0 to n
      invariant forall k :: i <= k < n ==> source[k] == t[k]
      invariant Distinct(a[..]) && Fits(a[..]) && |Occupied(a[..])| <= |Occupied(t[..i])|
      invariant Among(Contents(a[..]), Contents(t[..i]))
      invariant roomy ==> WellFormed(a[..]) && Contents(a[..]) == Contents(t[..i])
      invariant roomy ==> |Occupied(a[..])| == |Occupied(t[..i])|
    {
      PrefixStep(t, i);
      if source[i].dib == 0 {
        continue;
      }
      ghost var c := Contents(a[..]);
      AmongMore(c, c, Contents(t[..i]), t[i].Ident(), t[i].val);
      if roomy { PrefixRoomy(t, i, a.Length); }
      Reinsert(source, i, a, mask);
      AmongMore(Contents(a[..]), c, Contents(t[..i]), t[i].Ident(), t[i].val);
    }
    if !roomy { AllThereCrowded(a[..], t); }
  }

  lemma AmongEmpty<K, V>(m: map<Id<K>, V>)
    ensures Among(map[], m)
  {
  }

  lemma AmongMore<K, V>(d: map<Id<K>, V>, c: map<Id<K>, V>, m: map<Id<K>, V>, id: Id<K>, val: V)
    requires Among(c, m)
    ensures id !in m ==> id !in c
    ensures Among(d, c[id := val]) ==> Among(d, m[id := val])
  {
  }

  lemma PrefixRoomy<K, V>(t: Table<K, V>, i: nat, n: nat)
    requires WellFormed(t) && i < |t| && t[i].dib > 0 && !Crowded(Contents(t).Keys, n)
    ensures !Crowds(Contents(t[..i]), t[i].Ident(), n)
  {
    hide WellFormed, Contents, Crowded;
    PrefixStep(t, i);
    PrefixKeys(t, i + 1);
    if Crowds(Contents(t[..i]), t[i].Ident(), n) {
      assert Contents(t[..i]).Keys + {t[i].Ident()} == Contents(t[..i + 1]).Keys;
      CrowdedMore(Contents(t[..i]).Keys + {t[i].Ident()}, Contents(t).Keys, n);
    }
  }

  lemma PrefixKeys<K, V>(t: Table<K, V>, i: nat)
    requires i <= |t|
    ensures Contents(t[..i]).Keys <= Contents(t).Keys
  {
    forall x | x in Contents(t[..i]) ensures x in Contents(t)
    {
      var j := Find(t[..i], x);
      assert t[j] == t[..i][j];
    }
  }

  /** A table in order that holds as many entries as a crowded one would does not exist. */
  lemma AllThereCrowded<K, V>(u: Table<K, V>, t: Table<K, V>)
    requires |u| > 0 && Fits(u) && WellFormed(t) && Among(Contents(u), Contents(t)) && Crowded(Contents(t).Keys, |u|)
    ensures !(WellFormed(u) && |Occupied(u)| == |Occupied(t)|)
  {
    hide Contents, Occupied;
    if WellFormed(u) && |Occupied(u)| == |Occupied(t)| {
      ContentsSize(u);
      ContentsSize(t);
      SubsetEqual(Contents(u).Keys, Contents(t).Keys);
      FitsNotCrowded(u);
    }
  }

  /** The loop of `hashmap_set_with_hash`, on the first `n` buckets of `a`, in order or not. */
  method Store<K(==), V>(a: array<Bucket<K, V>>, n: nat, mask: nat, key: K, val: V, hash: nat)
    returns (r: Option<V>)
    requires n <= a.Length && IsPow2(n) && mask == n - 1 && Distinct(a[..n]) && Fits(a[..n])
    requires |Occupied(a[..n])| < n
    modifies a
    ensures Fits(a[..n]) && Contents(a[..n]).Keys <= old(Contents(a[..n]).Keys) + {Id(hash, key)}
    ensures Id(hash, key) !in old(Contents(a[..n])) ==>
      && r.None? && Distinct(a[..n]) && Among(Contents(a[..n]), old(Contents(a[..n])[Id(hash, key) := val]))
      && old(|Contents(a[..n])|) <= |Contents(a[..n])|
    ensures old(WellFormed(a[..n])) ==> r == old(Lookup(Contents(a[..n]), Id(hash, key)))
    ensures old(WellFormed(a[..n]) && !Crowds(Contents(a[..n]), Id(hash, key), n)) ==>
      && WellFormed(a[..n])
      && Contents(a[..n]) == old(Contents(a[..n])[Id(hash, key) := val])
      && |Occupied(a[..n])| == old(|Occupied(a[..n])|) + if r.None? then 1 else 0
    ensures old(WellFormed(a[..n]) && Crowds(Contents(a[..n]), Id(hash, key), n)) ==>
      !(WellFormed(a[..n]) && |Occupied(a[..n])| == old(|Occupied(a[..n])|) + 1)
    ensures old(WellFormed(a[..n]) && Wraps(Contents(a[..n]), Id(hash, key), n)) ==>
      Contents(a[..n]) == old(Contents(a[..n]))
  {
    hide WellFormed, Contents, Occupied, Storing, Wraps, Crowds, Distinct, Fits, Among;
    ghost var t0, id := a[..n], Id(hash, key);
    ghost var z := EmptyExists(t0);
    var entry := Bucket(1, hash, key, val);
    var i: nat := And(entry.hash, mask);
    StoreStart(t0, entry);
    while true
      invariant i < n && z < n && a[z].dib == 0
      invariant Storing(t0, a[..n], entry, i, id, val)
      decreases Dist(i, z, n)
    {
      ghost var t, e, j := a[..n], entry, i;
      var b := a[i];
      if b.dib == 0 {
        EndsEmpty(t0, t, e, i, id, val);
        if WellFormed(t0) { EndsEmptyInOrder(t0, t, e, i, id, val); }
        a[i] := entry;
        assert a[..n] == t[i := e];
        return None;
      }
      if entry.hash == b.hash && entry.key == b.key {
        EndsMatch(t0, t, e, i, id, val);
        a[i] := b.(key := entry.key, val := entry.val);
        assert a[..n] == t[i := b.(key := e.key, val := e.val)];
        return Some(b.val);
      }
      StoreStep(t0, t, e, i, z, id, val);
      if b.dib < entry.dib {
        a[i] := entry;
        entry := b;
      }
      MaskedNext(i, n);
      i := And(i + 1, mask);
      entry := entry.(dib := IncDib(entry.dib));
      assert a[..n] == Met(t, e, j);
    }
  }

  lemma KeysWithin<K, V>(t: Table<K, V>, e: Bucket<K, V>, i: nat, ids: set<Id<K>>)
    requires Within(t, e, ids) && i < |t|
    ensures Contents(t[i := e]).Keys <= ids
  {
    var u := t[i := e];
    forall x | x in Contents(u) ensures x in ids
    {
      var j := Find(u, x);
      assert j != i ==> u[j] == t[j];
    }
  }

  /** The loop ends at an empty bucket, of a table in order or not, ... */
  lemma EndsEmpty<K, V>(t0: Table<K, V>, t: Table<K, V>, e: Bucket<K, V>, i: nat, id: Id<K>, val: V)
    requires Storing(t0, t, e, i, id, val) && t[i].dib == 0
    ensures var u := t[i := e];
            && Fits(u) && Contents(u).Keys <= Contents(t0).Keys + {id}
            && (id !in Contents(t0) ==>
                  Distinct(u) && Among(Contents(u), Contents(t0)[id := val]) && |Contents(t0)| <= |Contents(u)|)
  {
    hide WellFormed, Contents, Occupied, Distinct, Crowds, OnCourse, Loose, Lapped, Within;
    KeysWithin(t, e, i, Contents(t0).Keys + {id});
    if id !in Contents(t0) {
      StoreCrowded(t0, t, e, i, id, val);
      OneLess(Contents(t0), id, val, e.Ident());
    }
  }

  lemma EndsEmptyInOrder<K, V>(t0: Table<K, V>, t: Table<K, V>, e: Bucket<K, V>, i: nat, id: Id<K>, val: V)
    requires Storing(t0, t, e, i, id, val) && t[i].dib == 0 && WellFormed(t0)
    ensures var u := t[i := e];
            && id !in Contents(t0)
            && (!Crowds(Contents(t0), id, |t0|) ==>
                  WellFormed(u) && Contents(u) == Contents(t0)[id := val] && |Occupied(u)| == |Occupied(t0)| + 1)
            && (Crowds(Contents(t0), id, |t0|) ==> !(WellFormed(u) && |Occupied(u)| == |Occupied(t0)| + 1))
            && (Wraps(Contents(t0), id, |t0|) ==> Contents(u) == Contents(t0))
  {
    hide WellFormed, Contents, Occupied, Distinct, Crowds, OnCourse, Loose, Lapped, Wraps, Within;
    if Crowds(Contents(t0), id, |t0|) {
      CrowdsNew(t0, id);
      StoreCrowded(t0, t, e, i, id, val);
    } else {
      StoreEmpty(t0, t, e, i, id, val);
    }
    if Wraps(Contents(t0), id, |t0|) { StoreLost(t0, t, e, i, id, val); }
  }

  lemma OneLess<K, V>(m: map<K, V>, id: K, val: V, x: K)
    requires id !in m
    ensures |m| <= |m[id := val] - {x}| && |m| <= |m[id := val]|
  {
    var u := m[id := val];
    assert u.Keys == m.Keys + {id};
    assert (u - {x}).Keys == u.Keys - {x};
  }

  /** ... or at the key it is to set. */
  lemma EndsMatch<K, V>(t0: Table<K, V>, t: Table<K, V>, e: Bucket<K, V>, i: nat, id: Id<K>, val: V)
    requires Storing(t0, t, e, i, id, val) && t[i].dib > 0 && t[i].Ident() == e.Ident()
    ensures var u := t[i := t[i].(key := e.key, val := e.val)];
            && id in Contents(t0) && Fits(u) && Contents(u).Keys <= Contents(t0).Keys + {id}
            && (WellFormed(t0) ==>
                  && !Crowds(Contents(t0), id, |t0|) && WellFormed(u) && Contents(t0)[id] == t[i].val
                  && Contents(u) == Contents(t0)[id := val] && |Occupied(u)| == |Occupied(t0)|)
            && (WellFormed(t0) ==> !Wraps(Contents(t0), id, |t0|))
  {
    hide WellFormed, Contents, Occupied, Distinct, Crowds, OnCourse, Loose, Lapped;
    var b := t[i].(key := e.key, val := e.val);
    KeysWithin(t, b, i, Contents(t0).Keys + {id});
    StoreMatch(t0, t, e, i, id, val);
    if WellFormed(t0) { Overwrite(t0, i, b); }
  }

  lemma FitsMoved<K, V>(t: Table<K, V>, p: nat, i: nat)
    requires Fits(t) && p < |t| && i < |t|
    ensures Fits(Emptied(t, p)) && (t[i].dib > 0 ==> Fits(t[p := t[i].(dib := t[i].dib - 1)]))
  {
  }

  /** The inner loop of `hashmap_delete_with_hash`: empty bucket `p` and move the entries after it back. */
  method BackwardShift<K, V>(a: array<Bucket<K, V>>, n: nat, mask: nat, p: nat)
    requires n <= a.Length && IsPow2(n) && mask == n - 1 && WellFormed(a[..n])
    requires |Occupied(a[..n])| < n && p < n && a[p].dib > 0
    modifies a
    ensures WellFormed(a[..n])
    ensures old(Fits(a[..n])) ==> Fits(a[..n])
    ensures Contents(a[..n]) == old(Contents(a[..n]) - {a[p].Ident()})
    ensures |Occupied(a[..n])| == old(|Occupied(a[..n])|) - 1
  {
    hide WellFormed, Contents, Occupied, Shifting, IsPow2, Fits;
    ghost var t := a[..n];
    ghost var fit := Fits(t);
    ghost var m, c, d := Contents(t) - {t[p].Ident()}, |Occupied(t)|, t[p].dib;
    ghost var z := EmptyExists(t);
    ShiftStart(t, p);
    if fit { FitsMoved(t, p, p); }
    a[p] := a[p].(dib := 0);
    assert a[..n] == Emptied(t, p);
    var i: nat, bucket: nat := p, p;
    while true
      invariant i < n && i == bucket && z < n && z != i && a[z].dib == 0
      invariant Shifting(a[..n], i, d, m, c - 1)
      invariant fit ==> Fits(a[..n])
      decreases Dist(i, z, n)
    {
      t := a[..n];
      var prev := bucket;
      MaskedNext(i, n);
      i := And(i + 1, mask);
      bucket := i;
      if fit { FitsMoved(t, prev, i); }
      if a[bucket].dib <= 1 {
        ShiftEnd(t, prev, d, m, c - 1);
        a[prev] := a[prev].(dib := 0);
        assert a[..n] == Emptied(t, prev);
        return;
      }
      ShiftStep(t, prev, d, i, m, c - 1);
      d := a[bucket].dib;
      a[prev] := a[bucket].(dib := a[bucket].dib - 1);
      assert a[..n] == t[prev := t[i].(dib := t[i].dib - 1)];
    }
  }

  class HashMap<K(==, 0), V(0)> {
    const hash: K -> nat
    var cap: nat
    var nbuckets: nat
    var mask: nat
    var count: nat
    var growat: nat
    var shrinkat: nat
    var growpower: nat
    var oom: bool
    var buckets: array<Bucket<K, V>>

    ghost function Table(): Table<K, V>
      requires nbuckets <= buckets.Length
      reads this, buckets
    {
      buckets[..nbuckets]
    }

    /** The fields agree with each other. */
    ghost predicate Shape()
      reads this
    {
      && nbuckets <= buckets.Length
      && IsPow2(nbuckets) && IsPow2(cap) && 16 <= cap <= nbuckets
      && mask == nbuckets - 1
      && 1 <= growpower <= 16
      && (growat == nbuckets * 3 / 5 || growat == nbuckets * 3 / 4)
      && shrinkat == nbuckets / 10
    }

    /** The table has its entries once and counts them, in order or not. */
    ghost predicate Readable()
      reads this, buckets
    {
      Shape() && Distinct(Table()) && Fits(Table()) && |Occupied(Table())| <= count
    }

    /** What every operation keeps as long as the homes of the entries are not crowded. */
    ghost predicate Sound()
      reads this, buckets
    {
      Shape() && WellFormed(Table()) && Fits(Table()) && count == |Occupied(Table())| <= growat
    }

    ghost function Map(): map<Id<K>, V>
      requires nbuckets <= buckets.Length
      reads this, buckets
    {
      Contents(Table())
    }

    constructor (cap: nat, hash: K -> nat)
      ensures Sound() && fresh(buckets) && Map() == map[] && count == 0
      ensures this.hash == hash && growpower == 1 && !oom
      ensures this.cap == nbuckets && nbuckets == buckets.Length
      ensures forall i :: 0 <= i < nbuckets ==> buckets[i].dib == 0
      ensures nbuckets >= cap && (nbuckets == 16 || nbuckets < 2 * cap)
      ensures growat == nbuckets * 3 / 5
    {
      var ncap := RoundCapacity(cap);
      var a := NewBuckets<K, V>(ncap);
      this.hash := hash;
      this.cap := ncap;
      nbuckets := ncap;
      mask := ncap - 1;
      buckets := a;
      growpower := 1;
      growat := ncap * 3 / 5;
      shrinkat := ncap / 10;
      count := 0;
      oom := false;
      new;
      EmptyTable(Table());
    }

    /** `resize0`: re-insert everything into a table of the new capacity, scribbling on the old one. */
    method Resize(newCap: nat, alloc: bool) returns (ok: bool)
      requires Sound() && cap <= newCap && count <= newCap * 3 / 5
      modifies this, buckets
      ensures ok == alloc
      ensures !ok ==> unchanged(this) && unchanged(buckets) && Sound() && Map() == old(Map())
      ensures ok ==> Readable() && fresh(buckets) && Map().Keys <= old(Map().Keys)
      ensures ok && !Crowded(old(Map().Keys), nbuckets) ==> Sound() && Map() == old(Map())
      ensures ok && Crowded(old(Map().Keys), nbuckets) ==> !Sound()
      ensures ok ==> nbuckets >= newCap && (nbuckets == 16 || nbuckets < 2 * newCap) && growat == nbuckets * 3 / 5
      ensures ok && IsPow2(newCap) ==> nbuckets == newCap
      ensures count == old(count) && cap == old(cap) && growpower == old(growpower) && oom == old(oom)
    {
      hide WellFormed, Contents, Occupied, IsPow2, Distinct, Crowded, Fits;
      if !alloc { return false; }
      var map2 := new HashMap<K, V>(newCap, hash);
      if IsPow2(newCap) { RoundCapacityExact(newCap, map2.nbuckets); }
      Rehash(buckets, nbuckets, map2.buckets, map2.mask);
      PrefixEnds(map2.buckets[..]);
      buckets := map2.buckets;
      nbuckets := map2.nbuckets;
      mask := map2.mask;
      growat := map2.growat;
      shrinkat := map2.shrinkat;
      ok := true;
    }

    /** The probe loop of `hashmap_get_with_hash` and of `hashmap_delete_with_hash`. */
    method Locate(id: Id<K>) returns (i: nat)
      requires Sound()
      ensures i < nbuckets
      ensures buckets[i].dib == 0 ==> id !in Map()
      ensures buckets[i].dib > 0 ==> buckets[i].Ident() == id && id in Map() && Map()[id] == buckets[i].val
    {
      hide WellFormed, Contents, Occupied, IsPow2, Fits, Sound, Seeking;
      SoundTable();
      ghost var t, n := Table(), nbuckets;
      ghost var z := EmptyBucket();
      ghost var h := Home(id.hash, n);
      SeekingStart(t, id);
      i := And(id.hash, mask);
      while true
        invariant i < n && Seeking(t, id, i)
        invariant Dist(h, i, n) <= Dist(h, z, n)
        decreases Dist(h, z, n) - Dist(h, i, n)
      {
        assert buckets[i] == t[i];
        if buckets[i].dib == 0 {
          SeekingEmpty(t, id, i);
          return;
        }
        if buckets[i].hash == id.hash && buckets[i].key == id.key {
          ContentsOf(t);
          return;
        }
        MaskedNext(i, n);
        SeekingNext(t, id, i, z);
        i := And(i + 1, mask);
      }
    }

    /** The load bound leaves an empty bucket for every probe to stop at. */
    lemma EmptyBucket() returns (z: nat)
      requires Sound()
      ensures z < |Table()| && Table()[z].dib == 0
    {
      z := EmptyExists(Table());
    }

    method GetWithHash(key: K, hash: nat) returns (r: Option<V>)
      requires Sound()
      ensures r == Lookup(Map(), Id(Clip(hash), key))
    {
      var i := Locate(Id(Clip(hash), key));
      r := if buckets[i].dib == 0 then None else Some(buckets[i].val);
    }

    method Get(key: K) returns (r: Option<V>)
      requires Sound()
      ensures r == Lookup(Map(), Id(Clip(this.hash(key)), key))
    {
      r := GetWithHash(key, this.hash(key));
    }

    lemma LoadBound()
      requires Sound()
      ensures count < nbuckets && count == |Map()|
    {
      ContentsSize(Table());
    }

    /** `growat` is never 65535, so that the last entry whose dib surely fits is stored without growing. */
    lemma GrowatNot65535()
      requires Sound()
      ensures growat != MAX_DIB
    {
      assert IsPow2(65536);
      if nbuckets > 65536 { Pow2Gap(65536, nbuckets); }
    }

    method Grow(alloc: bool) returns (ok: bool)
      requires Sound() && count == growat
      modifies this, buckets
      ensures ok == alloc
      ensures !ok ==> unchanged(this) && unchanged(buckets) && Sound() && Map() == old(Map())
      ensures ok ==> Readable() && fresh(buckets) && count < growat && Map().Keys <= old(Map().Keys)
      ensures ok ==> nbuckets == old(nbuckets * Shift1(growpower))
      ensures ok && !Crowded(old(Map().Keys), nbuckets) ==> Sound() && Map() == old(Map())
      ensures ok && Crowded(old(Map().Keys), nbuckets) ==> !Sound()
      ensures count == old(count) && cap == old(cap) && growpower == old(growpower) && oom == old(oom)
    {
      hide WellFormed, Contents, Occupied, IsPow2, Shift1, Crowded, Distinct, Fits;
      Pow2Shift(nbuckets, growpower);
      ok := Resize(nbuckets * Shift1(growpower), alloc);
    }

    /** The number of buckets the next `hashmap_set` works on. */
    ghost function NextBuckets(): nat
      reads this
    {
      if count == growat then nbuckets * Shift1(growpower) else nbuckets
    }

    /** The growth of `hashmap_set_with_hash`, if it is time for it. */
    method MakeRoom(alloc: bool) returns (ok: bool)
      requires Sound()
      modifies this, buckets
      ensures ok == (old(count < growat) || alloc)
      ensures !ok ==> Sound() && Map() == old(Map())
      ensures ok ==> Readable() && count < growat && Map().Keys <= old(Map().Keys) && nbuckets == old(NextBuckets())
      ensures ok && !Crowded(old(Map().Keys), nbuckets) ==> Sound() && Map() == old(Map())
      ensures ok && Crowded(old(Map().Keys), nbuckets) ==> !Sound()
      ensures old(count < growat) ==> Sound() && Map() == old(Map())
      ensures buckets == old(buckets) || fresh(buckets)
      ensures count == old(count) && cap == old(cap) && growpower == old(growpower) && oom == old(oom)
    {
      hide WellFormed, Contents, Occupied, IsPow2, Crowded, Distinct, Fits, Shift1;
      SoundReadable();
      NotCrowded();
      ok := true;
      if count == growat {
        ok := Grow(alloc);
      }
    }

    lemma NotCrowded()
      requires Sound()
      ensures !Crowded(Map().Keys, nbuckets)
    {
      FitsNotCrowded(Table());
    }

    /** The rest of `hashmap_set_with_hash`, on a table in order or not. */
    method Put(key: K, val: V, hash: nat) returns (r: Option<V>)
      requires Readable() && count < growat
      modifies this`count, buckets
      ensures Shape() && count == old(count) + if r.None? then 1 else 0
      ensures Map().Keys <= old(Map().Keys) + {Id(hash, key)}
      ensures Id(hash, key) !in old(Map()) ==> r.None?
      ensures old(Sound()) ==> r == old(Lookup(Map(), Id(hash, key)))
      ensures old(Sound() && !Crowds(Map(), Id(hash, key), nbuckets)) ==>
        Sound() && Map() == old(Map()[Id(hash, key) := val])
      ensures old(Sound() && Crowds(Map(), Id(hash, key), nbuckets)) ==> !Sound()
      ensures old(Sound() && Wraps(Map(), Id(hash, key), nbuckets)) ==> Map() == old(Map())
    {
      hide WellFormed, Contents, Occupied, IsPow2, Wraps, Crowds, Distinct, Fits, Among, Lookup, Sound;
      ghost var t, sound := Table(), Sound();
      if sound { SoundTable(); }
      r := Store(buckets, nbuckets, mask, key, val, hash);
      if r.None? {
        count := count + 1;
      }
      if sound { PutSound(t, Id(hash, key), val, r); }
    }

    lemma SoundTable()
      requires Sound()
      ensures nbuckets <= buckets.Length && IsPow2(nbuckets) && mask == nbuckets - 1 && nbuckets >= 16
      ensures WellFormed(Table()) && Fits(Table()) && count == |Occupied(Table())|
    {
    }

    /** What `hashmap_set_with_hash` has made of table `t`. */
    lemma PutSound(t: Table<K, V>, id: Id<K>, val: V, r: Option<V>)
      requires Shape() && |t| == nbuckets && Fits(Table()) && WellFormed(t) && Fits(t)
      requires r == Lookup(Contents(t), id) && count == |Occupied(t)| + (if r.None? then 1 else 0) <= growat
      requires !Crowds(Contents(t), id, |t|) ==>
        && WellFormed(Table()) && Map() == Contents(t)[id := val]
        && |Occupied(Table())| == |Occupied(t)| + if r.None? then 1 else 0
      requires Crowds(Contents(t), id, |t|) ==> !(WellFormed(Table()) && |Occupied(Table())| == |Occupied(t)| + 1)
      ensures Crowds(Contents(t), id, |t|) <==> !Sound()
    {
      hide WellFormed, Contents, Occupied, IsPow2, Crowds, Fits;
      if Crowds(Contents(t), id, |t|) { CrowdsNew(t, id); }
    }

    /** `hashmap_set_with_hash`: bind the item, growing first when the table is at its load limit. */
    method SetWithHash(key: K, val: V, hash: nat, alloc: bool) returns (r: Option<V>)
      requires Sound()
      modifies this, buckets
      ensures cap == old(cap) && growpower == old(growpower)
      ensures buckets == old(buckets) || fresh(buckets)
      ensures Shape() && oom == (old(count == growat) && !alloc)
      ensures oom ==> r == None && Sound() && Map() == old(Map())
      ensures !oom ==> nbuckets == old(NextBuckets())
      ensures !oom && !Crowds(old(Map()), Id(Clip(hash), key), nbuckets) ==>
        && Sound() && Map() == old(Map()[Id(Clip(hash), key) := val])
        && r == old(Lookup(Map(), Id(Clip(hash), key)))
      ensures !oom && Crowds(old(Map()), Id(Clip(hash), key), nbuckets) ==> !Sound()
      ensures !oom && !Crowded(old(Map().Keys), nbuckets) ==> r == old(Lookup(Map(), Id(Clip(hash), key)))
      ensures !oom && old(Wraps(Map(), Id(Clip(hash), key), nbuckets)) ==> Map() == old(Map())
    {
      hide WellFormed, Distinct, Fits, Occupied, Contents, IsPow2, Clip, Wraps, Crowded, Shift1;
      ghost var id, m0 := Id(Clip(hash), key), Map();
      WrapsBelow(id);
      LoadBound();
      oom := false;
      var ok := MakeRoom(alloc);
      if !ok {
        oom := true;
        return None;
      }
      if Crowded(m0.Keys, nbuckets) { CrowdedMore(m0.Keys, m0.Keys + {id}, nbuckets); }
      ghost var good := Sound();
      r := Put(key, val, Clip(hash));
      if !good { StillCrowded(m0, id, r); }
    }

    lemma SoundReadable()
      requires Sound()
      ensures Readable()
    {
    }

    /** 65535 entries are no load limit, so that the item that is lost then is lost without growing. */
    lemma WrapsBelow(id: Id<K>)
      requires Sound()
      ensures Wraps(Map(), id, nbuckets) ==> count < growat
    {
      LoadBound();
      GrowatNot65535();
    }

    /** A table that a crowded growth has left out of order is out of order after the item has been put in, too. */
    lemma StillCrowded(m: map<Id<K>, V>, id: Id<K>, r: Option<V>)
      requires nbuckets <= buckets.Length && nbuckets > 0 && Crowded(m.Keys, nbuckets)
      requires Map().Keys <= m.Keys + {id} && count == |m| + if r.None? then 1 else 0
      requires r.Some? ==> id in m
      ensures !Sound()
    {
      hide Contents, Crowded;
      if Sound() {
        LoadBound();
        FitsNotCrowded(Table());
        var ids := Map().Keys;
        if id in m {
          assert m.Keys + {id} == m.Keys;
          SubsetSize(ids, m.Keys);
          SubsetEqual(ids, m.Keys);
        } else {
          SubsetEqual(ids, m.Keys + {id});
          CrowdedMore(m.Keys, ids, nbuckets);
        }
      }
    }

    method Set(key: K, val: V, alloc: bool) returns (r: Option<V>)
      requires Sound()
      modifies this, buckets
      ensures cap == old(cap) && growpower == old(growpower)
      ensures buckets == old(buckets) || fresh(buckets)
      ensures Shape() && oom == (old(count == growat) && !alloc)
      ensures oom ==> r == None && Sound() && Map() == old(Map())
      ensures !oom ==> nbuckets == old(NextBuckets())
      ensures !oom && !Crowds(old(Map()), Id(Clip(this.hash(key)), key), nbuckets) ==>
        && Sound() && Map() == old(Map()[Id(Clip(this.hash(key)), key) := val])
        && r == old(Lookup(Map(), Id(Clip(this.hash(key)), key)))
      ensures !oom && Crowds(old(Map()), Id(Clip(this.hash(key)), key), nbuckets) ==> !Sound()
      ensures !oom && !Crowded(old(Map().Keys), nbuckets) ==> r == old(Lookup(Map(), Id(Clip(this.hash(key)), key)))
      ensures !oom && old(Wraps(Map(), Id(Clip(this.hash(key)), key), nbuckets)) ==> Map() == old(Map())
    {
      hide Sound, Contents, Clip, Wraps, Lookup, Crowds;
      r := SetWithHash(key, val, this.hash(key), alloc);
    }

    /** A `hashmap_delete` of `id` shrinks the table. */
    ghost predicate Shrinks(id: Id<K>, alloc: bool)
      requires nbuckets <= buckets.Length
      reads this, buckets
    {
      id in Map() && nbuckets > cap && count - 1 <= nbuckets / 10 && alloc
    }

    /** The shrink of `hashmap_delete_with_hash`, if it is time for it and memory can be had. */
    method Shrink(alloc: bool)
      requires Sound()
      modifies this, buckets
      ensures Shape() && count == old(count) && cap == old(cap) && growpower == old(growpower) && oom == old(oom)
      ensures buckets == old(buckets) || fresh(buckets)
      ensures var shrinks := old(nbuckets > cap && count <= nbuckets / 10) && alloc;
              && nbuckets == (if shrinks then old(nbuckets) / 2 else old(nbuckets))
              && if shrinks && Crowded(old(Map().Keys), nbuckets) then !Sound() else Sound() && Map() == old(Map())
    {
      hide WellFormed, Contents, Occupied, IsPow2, Crowded, Distinct, Fits;
      if nbuckets > cap && count <= shrinkat {
        Pow2Gap(cap, nbuckets);
        Pow2Half(nbuckets);
        var _ := Resize(nbuckets / 2, alloc);
      }
    }

    /** Empties bucket `i`, which holds `id`. */
    method Remove(i: nat, ghost id: Id<K>)
      requires Sound() && i < nbuckets && buckets[i].dib > 0 && buckets[i].Ident() == id
      modifies this`count, buckets
      ensures Sound() && Map() == old(Map()) - {id} && count == old(count) - 1
    {
      hide WellFormed, Contents, Occupied, IsPow2, Distinct, Fits;
      LoadBound();
      BackwardShift(buckets, nbuckets, mask, i);
      count := count - 1;
    }

    /** `hashmap_delete_with_hash`: unbind the item, shrinking afterwards when the table is nearly empty. */
    method DeleteWithHash(key: K, hash: nat, alloc: bool) returns (r: Option<V>)
      requires Sound()
      modifies this, buckets
      ensures Shape() && cap == old(cap) && growpower == old(growpower) && !oom
      ensures buckets == old(buckets) || fresh(buckets)
      ensures r == old(Lookup(Map(), Id(Clip(hash), key)))
      ensures nbuckets == if old(Shrinks(Id(Clip(hash), key), alloc)) then old(nbuckets) / 2 else old(nbuckets)
      ensures var id := Id(Clip(hash), key);
              if old(Shrinks(id, alloc)) && Crowded(old(Map().Keys) - {id}, nbuckets) then !Sound()
              else Sound() && Map() == old(Map()) - {id}
    {
      hide WellFormed, Contents, Occupied, IsPow2, Clip, Crowded, Distinct, Fits;
      oom := false;
      var i := Locate(Id(Clip(hash), key));
      if buckets[i].dib == 0 {
        assert Map() == Map() - {Id(Clip(hash), key)};
        return None;
      }
      r := Some(buckets[i].val);
      Remove(i, Id(Clip(hash), key));
      assert Map().Keys == old(Map().Keys) - {Id(Clip(hash), key)};
      Shrink(alloc);
    }

    method Delete(key: K, alloc: bool) returns (r: Option<V>)
      requires Sound()
      modifies this, buckets
      ensures Shape() && cap == old(cap) && growpower == old(growpower) && !oom
      ensures buckets == old(buckets) || fresh(buckets)
      ensures var id := Id(Clip(this.hash(key)), key);
              && r == old(Lookup(Map(), id))
              && nbuckets == (if old(Shrinks(id, alloc)) then old(nbuckets) / 2 else old(nbuckets))
              && if old(Shrinks(id, alloc)) && Crowded(old(Map().Keys) - {id}, nbuckets) then !Sound()
                 else Sound() && Map() == old(Map()) - {id}
    {
      hide Sound, Contents, Clip, Lookup, Crowded;
      r := DeleteWithHash(key, this.hash(key), alloc);
    }

    /** `hashmap_clear`: when no smaller table can be had, the first `cap` buckets of this one are used. */
    method Clear(updateCap: bool, alloc: bool)
      requires Shape()
      modifies this, buckets
      ensures Sound() && Map() == map[] && count == 0
      ensures buckets == old(buckets) || fresh(buckets)
      ensures growpower == old(growpower) && oom == old(oom)
      ensures nbuckets == cap == if updateCap then old(nbuckets) else old(cap)
      ensures growat == nbuckets * 3 / 4
    {
      hide WellFormed, Contents, Occupied, IsPow2;
      count := 0;
      if updateCap {
        cap := nbuckets;
      } else if nbuckets != cap {
        if alloc {
          buckets := new Bucket<K, V>[cap];
        }
        nbuckets := cap;
      }
      ClearBuckets(buckets, nbuckets);
      mask := nbuckets - 1;
      growat := nbuckets * 3 / 4;
      shrinkat := nbuckets / 10;
      EmptyTable(Table());
    }

    method SetGrowByPower(power: nat)
      requires Sound()
      modifies this`growpower
      ensures Sound() && Map() == old(Map())
      ensures growpower == if power < 1 then 1 else if power > 16 then 16 else power
    {
      hide WellFormed, Contents, Occupied, IsPow2;
      growpower := if power < 1 then 1 else if power > 16 then 16 else power;
    }

    method Count() returns (n: nat)
      requires Sound()
      ensures n == |Map()|
    {
      LoadBound();
      n := count;
    }

    /** `hashmap_iter`: from cursor 0 on, successive calls yield every binding once, and then the end. */
    method Iter(cursor: nat) returns (item: Option<(Id<K>, V)>, next: nat)
      requires Sound()
      ensures cursor >= nbuckets ==> item.None? && next == cursor
      ensures cursor <= nbuckets && item.None? ==> next == nbuckets && Contents(Table()[..cursor]) == Map()
      ensures item.Some? ==>
        && cursor < next <= nbuckets && item.value.0 !in Contents(Table()[..cursor])
        && Contents(Table()[..next]) == Contents(Table()[..cursor])[item.value.0 := item.value.1]
    {
      hide WellFormed, Contents, Occupied, IsPow2, Fits, Sound;
      SoundTable();
      ghost var t := Table();
      next := cursor;
      if next >= nbuckets {
        PrefixEnds(t);
        return None, next;
      }
      while true
        invariant cursor <= next <= nbuckets
        invariant Contents(t[..next]) == Contents(t[..cursor])
        decreases nbuckets - next
      {
        if next >= nbuckets {
          PrefixEnds(t);
          return None, next;
        }
        var b := buckets[next];
        PrefixStep(t, next);
        next := next + 1;
        if b.dib != 0 {
          return Some((b.Ident(), b.val)), next;
        }
      }
    }

    /** `hashmap_scan`: true exactly when `iter` accepts every binding. */
    method Scan(iter: (Id<K>, V) -> bool) returns (all: bool)
      requires Sound()
      ensures all <==> forall id :: id in Map() ==> iter(id, Map()[id])
    {
      hide WellFormed, Contents, Occupied, IsPow2;
      ghost var t := Table();
      ContentsOf(t);
      for i := 0 to nbuckets
        invariant forall j :: 0 <= j < i && t[j].dib > 0 ==> iter(t[j].Ident(), t[j].val)
      {
        if buckets[i].dib != 0 && !iter(buckets[i].Ident(), buckets[i].val) {
          assert t[i].Ident() in Map();
          return false;
        }
      }
      forall id | id in Map() ensures iter(id, Map()[id])
      {
        var j := Find(t, id);
      }
      all := true;
    }
  }

  /** An item that has been set under one hash is found, and removed, under another exactly when the two agree in their
      low 48 bits; what else there is under the other hash is left alone. */
  method SetAndFind<K(==, 0), V(0)>(m: HashMap<K, V>, key: K, val: V, g: nat, h: nat)
    returns (found: Option<V>, removed: Option<V>)
    requires m.Sound() && !Crowds(m.Map(), Id(g % 0x1_0000_0000_0000, key), m.NextBuckets())
    modifies m, m.buckets
    ensures found == removed
    ensures g % 0x1_0000_0000_0000 == h % 0x1_0000_0000_0000 ==> found == Some(val)
    ensures g % 0x1_0000_0000_0000 != h % 0x1_0000_0000_0000 ==>
      && (found.Some? <==> Id(h % 0x1_0000_0000_0000, key) in old(m.Map()))
      && (found.Some? ==> found.value == old(m.Map())[Id(h % 0x1_0000_0000_0000, key)])
  {
    hide Crowds, Clip, Contents;
    ClipMod(g);
    ClipMod(h);
    var _ := m.SetWithHash(key, val, g, true);
    found := m.GetWithHash(key, h);
    removed := m.DeleteWithHash(key, h, true);
  }
}
