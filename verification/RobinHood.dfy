/**
 The table discipline of Robin Hood hashing, on tables as sequences of buckets.

 A bucket is full when its `dib` ("distance to initial bucket", plus one) is not zero.
 An entry is identified by its clipped hash together with its key: that is what the probe
 loops compare.
 */
module RobinHood {
  import opened Bits

  datatype Bucket<K, V> = Bucket(dib: nat, hash: nat, key: K, val: V)
  {
    function Ident(): Id<K> {
      Id(hash, key)
    }
  }

  datatype Id<K> = Id(hash: nat, key: K)

  type Table<K, V> = seq<Bucket<K, V>>

  // ---------------------------------------------------------------- positions

  function Home(hash: nat, n: nat): (h: nat)
    requires n > 0
    ensures h < n
  {
    And(hash, n - 1)
  }

  /** In a table whose size is a power of two, an entry's home is its hash modulo the size. */
  lemma HomeMod(hash: nat, n: nat)
    requires IsPow2(n)
    ensures Home(hash, n) == hash % n
  {
    MaskMod(hash, n);
  }

  function Next(i: nat, n: nat): (j: nat)
    requires i < n
    ensures j < n
  {
    if i + 1 == n then 0 else i + 1
  }

  function Prev(i: nat, n: nat): (j: nat)
    requires i < n
    ensures j < n && Next(j, n) == i
  {
    if i == 0 then n - 1 else i - 1
  }

  /** Number of steps from `h` forward to `i`. */
  function Dist(h: nat, i: nat, n: nat): (d: nat)
    requires h < n && i < n
    ensures d < n && (d == 0 <==> h == i)
  {
    if h <= i then i - h else n - h + i
  }

  /** The masked increment of the probe loops is `Next`. */
  lemma MaskedNext(i: nat, n: nat)
    requires IsPow2(n) && i < n
    ensures And(i + 1, n - 1) == Next(i, n)
  {
    if i + 1 == n {
      MaskWraps(n);
    } else {
      MaskKeeps(i + 1, n);
    }
  }

  // ---------------------------------------------------------------- invariants

  /** Every stored dib is the distance from the entry's home bucket, plus one. */
  ghost predicate Placed<K, V>(t: Table<K, V>) {
    forall i :: 0 <= i < |t| && t[i].dib > 0 ==>
      t[i].dib == Dist(Home(t[i].hash, |t|), i, |t|) + 1
  }

  /** A bucket with dib d > 1 follows a full bucket with dib at least d - 1. */
  ghost predicate OrderedAt<K, V>(t: Table<K, V>, i: nat)
    requires i < |t|
  {
    t[i].dib > 1 ==> t[Prev(i, |t|)].dib >= t[i].dib - 1
  }

  ghost predicate Ordered<K, V>(t: Table<K, V>) {
    forall i :: 0 <= i < |t| ==> OrderedAt(t, i)
  }

  ghost predicate Distinct<K, V>(t: Table<K, V>) {
    forall i, j :: 0 <= i < j < |t| && t[i].dib > 0 && t[j].dib > 0 ==> t[i].Ident() != t[j].Ident()
  }

  ghost predicate WellFormed<K, V>(t: Table<K, V>) {
    |t| >= 4 && Placed(t) && Ordered(t) && Distinct(t)
  }

  ghost predicate Absent<K, V>(t: Table<K, V>, id: Id<K>) {
    forall i :: 0 <= i < |t| && t[i].dib > 0 ==> t[i].Ident() != id
  }

  // ---------------------------------------------------------------- abstraction

  ghost function Occupied<K, V>(t: Table<K, V>): set<nat> {
    set i: nat | i < |t| && t[i].dib > 0
  }

  ghost function Idents<K, V>(t: Table<K, V>): set<Id<K>> {
    set i: nat | i < |t| && t[i].dib > 0 :: t[i].Ident()
  }

  ghost function Find<K, V>(t: Table<K, V>, id: Id<K>): (i: nat)
    requires !Absent(t, id)
    ensures i < |t| && t[i].dib > 0 && t[i].Ident() == id
  {
    var i: nat :| i < |t| && t[i].dib > 0 && t[i].Ident() == id;
    i
  }

  /** The finite map a table stands for. */
  ghost function Contents<K, V>(t: Table<K, V>): (m: map<Id<K>, V>)
    ensures forall id :: id in m ==> !Absent(t, id)
    ensures forall i :: 0 <= i < |t| && t[i].dib > 0 ==> t[i].Ident() in m
  {
    map id | id in Idents(t) :: t[Find(t, id)].val
  }

  lemma ContentsAt<K, V>(t: Table<K, V>)
    requires Distinct(t)
    ensures forall i :: 0 <= i < |t| && t[i].dib > 0 ==>
      t[i].Ident() in Contents(t) && Contents(t)[t[i].Ident()] == t[i].val
  {
    forall i | 0 <= i < |t| && t[i].dib > 0
      ensures t[i].Ident() in Contents(t) && Contents(t)[t[i].Ident()] == t[i].val
    {
      assert !Absent(t, t[i].Ident());
      assert Find(t, t[i].Ident()) == i;
    }
  }

  lemma ContentsIs<K, V>(t: Table<K, V>, m: map<Id<K>, V>)
    requires Distinct(t)
    requires forall i :: 0 <= i < |t| && t[i].dib > 0 ==> t[i].Ident() in m && m[t[i].Ident()] == t[i].val
    requires forall id :: id in m ==> !Absent(t, id)
    ensures Contents(t) == m
  {
    ContentsAt(t);
  }

  /** One entry a bucket: the map has as many bindings as the table has full buckets. */
  lemma {:induction false} ContentsSize<K, V>(t: Table<K, V>)
    requires Distinct(t)
    ensures |Contents(t)| == |Occupied(t)|
  {
    if t == [] {
      assert Contents(t) == map[];
      assert Occupied(t) == {};
    } else {
      var s, b := t[..|t| - 1], t[|t| - 1];
      assert t == s + [b];
      DistinctInit(s, b);
      ContentsSize(s);
      ContentsSizeSnoc(s, b);
    }
  }

  lemma DistinctInit<K, V>(s: Table<K, V>, b: Bucket<K, V>)
    requires Distinct(s + [b])
    ensures Distinct(s)
  {
    var t := s + [b];
    assert forall i :: 0 <= i < |s| ==> s[i] == t[i];
  }

  lemma ContentsSizeSnoc<K, V>(s: Table<K, V>, b: Bucket<K, V>)
    requires Distinct(s + [b])
    ensures |Contents(s + [b])| - |Contents(s)| == |Occupied(s + [b])| - |Occupied(s)|
  {
    hide Contents, Occupied, Distinct;
    ContentsSnoc(s, b);
    OccupiedSnoc(s, b);
    if b.dib > 0 {
      assert Contents(s + [b]).Keys == Contents(s).Keys + {b.Ident()};
    }
  }

  lemma OccupiedSnoc<K, V>(s: Table<K, V>, b: Bucket<K, V>)
    ensures |s| !in Occupied(s)
    ensures Occupied(s + [b]) == if b.dib > 0 then Occupied(s) + {|s|} else Occupied(s)
  {
    var t := s + [b];
    assert t[|s|] == b;
    assert forall i :: 0 <= i < |s| ==> t[i] == s[i];
  }

  lemma ContentsSnoc<K, V>(s: Table<K, V>, b: Bucket<K, V>)
    requires Distinct(s + [b])
    ensures b.dib == 0 ==> Contents(s + [b]) == Contents(s)
    ensures b.dib > 0 ==> b.Ident() !in Contents(s) && Contents(s + [b]) == Contents(s)[b.Ident() := b.val]
  {
    hide Contents;
    var t := s + [b];
    assert forall i :: 0 <= i < |s| ==> t[i] == s[i];
    assert t[|s|] == b;
    assert Distinct(s);
    ContentsAt(s);
    if b.dib > 0 {
      assert Absent(s, b.Ident());
    }
    var m := if b.dib > 0 then Contents(s)[b.Ident() := b.val] else Contents(s);
    forall id | id in m ensures !Absent(t, id)
    {
      if id in Contents(s) {
        var i := Find(s, id);
        assert t[i] == s[i];
      }
    }
    ContentsIs(t, m);
  }

  lemma {:induction false} SubsetSize<T>(a: set<T>, b: set<T>)
    requires a <= b
    ensures |a| <= |b|
    decreases a
  {
    if a != {} {
      var x :| x in a;
      SubsetSize(a - {x}, b - {x});
    }
  }

  /** A table with fewer entries than buckets has an empty bucket. */
  lemma {:induction false} EmptyExists<K, V>(t: Table<K, V>) returns (z: nat)
    requires |Occupied(t)| < |t|
    ensures z < |t| && t[z].dib == 0
  {
    var s, b := t[..|t| - 1], t[|t| - 1];
    assert t == s + [b];
    if b.dib == 0 {
      z := |s|;
    } else {
      OccupiedSnoc(s, b);
      z := EmptyExists(s);
    }
  }

  // ---------------------------------------------------------------- probe paths

  /** Everything on the way from `h` to a bucket that is at least as far from home as `h` is from it is
      at least as far from home, too; in particular it is full. */
  lemma {:induction false} PathFull<K, V>(t: Table<K, V>, h: nat, p: nat, q: nat)
    requires Ordered(t)
    requires h < |t| && p < |t| && q < |t|
    requires t[p].dib >= Dist(h, p, |t|) + 1
    requires Dist(h, q, |t|) <= Dist(h, p, |t|)
    ensures t[q].dib >= Dist(h, q, |t|) + 1
    decreases Dist(h, p, |t|) - Dist(h, q, |t|)
  {
    if q != p {
      var r := Next(q, |t|);
      PathFull(t, h, p, r);
      assert OrderedAt(t, r);
    }
  }

  /** A full bucket lies before any empty one, as seen from its home. */
  lemma BeforeEmpty<K, V>(t: Table<K, V>, h: nat, p: nat, z: nat)
    requires Ordered(t)
    requires h < |t| && p < |t| && z < |t|
    requires t[p].dib >= Dist(h, p, |t|) + 1 && t[z].dib == 0
    ensures Dist(h, p, |t|) < Dist(h, z, |t|)
  {
    if Dist(h, z, |t|) <= Dist(h, p, |t|) {
      PathFull(t, h, p, z);
    }
  }

  // ---------------------------------------------------------------- changing one bucket

  /** No full bucket but possibly the one at `i` holds `id`. */
  ghost predicate AbsentBut<K, V>(t: Table<K, V>, id: Id<K>, i: nat) {
    forall j :: 0 <= j < |t| && j != i && t[j].dib > 0 ==> t[j].Ident() != id
  }

  lemma DistinctUpdate<K, V>(t: Table<K, V>, i: nat, b: Bucket<K, V>)
    requires Distinct(t) && i < |t| && (b.dib > 0 ==> AbsentBut(t, b.Ident(), i))
    ensures Distinct(t[i := b])
  {
    var u := t[i := b];
    forall j, k | 0 <= j < k < |u| && u[j].dib > 0 && u[k].dib > 0 ensures u[j].Ident() != u[k].Ident()
    {
      assert j != i ==> u[j] == t[j];
      assert k != i ==> u[k] == t[k];
    }
  }

  /** Emptying bucket `i` takes its entry out of the map. */
  lemma ContentsErase<K, V>(t: Table<K, V>, i: nat, b: Bucket<K, V>)
    requires Distinct(t) && i < |t| && t[i].dib > 0 && b.dib == 0
    ensures Distinct(t[i := b]) && Absent(t[i := b], t[i].Ident())
    ensures i in Occupied(t) && Occupied(t[i := b]) == Occupied(t) - {i}
    ensures Contents(t[i := b]) == Contents(t) - {t[i].Ident()}
  {
    hide Contents;
    var u := t[i := b];
    DistinctUpdate(t, i, b);
    ContentsAt(t);
    var m := Contents(t) - {t[i].Ident()};
    forall id | id in m ensures !Absent(u, id)
    {
      var j := Find(t, id);
      assert u[j] == t[j];
    }
    forall j | 0 <= j < |u| && u[j].dib > 0 ensures u[j].Ident() in m && m[u[j].Ident()] == u[j].val
    {
      assert u[j] == t[j];
    }
    ContentsIs(u, m);
  }

  /** Filling an empty bucket adds its entry to the map. */
  lemma ContentsFill<K, V>(t: Table<K, V>, i: nat, b: Bucket<K, V>)
    requires Distinct(t) && i < |t| && t[i].dib == 0 && b.dib > 0 && Absent(t, b.Ident())
    ensures Distinct(t[i := b])
    ensures i !in Occupied(t) && Occupied(t[i := b]) == Occupied(t) + {i}
    ensures Contents(t[i := b]) == Contents(t)[b.Ident() := b.val]
  {
    hide Contents;
    var u := t[i := b];
    DistinctUpdate(t, i, b);
    ContentsAt(t);
    var m := Contents(t)[b.Ident() := b.val];
    forall id | id in m ensures !Absent(u, id)
    {
      if id == b.Ident() {
        assert u[i].Ident() == id;
      } else {
        var j := Find(t, id);
        assert u[j] == t[j];
      }
    }
    forall j | 0 <= j < |u| && u[j].dib > 0 ensures u[j].Ident() in m && m[u[j].Ident()] == u[j].val
    {
      if j != i { assert u[j] == t[j]; }
    }
    ContentsIs(u, m);
  }

  lemma ContentsUpdate<K, V>(t: Table<K, V>, i: nat, b: Bucket<K, V>)
    requires Distinct(t) && i < |t| && t[i].dib > 0 && b.dib > 0 && AbsentBut(t, b.Ident(), i)
    ensures Distinct(t[i := b]) && Occupied(t[i := b]) == Occupied(t)
    ensures Contents(t[i := b]) == (Contents(t) - {t[i].Ident()})[b.Ident() := b.val]
  {
    hide Contents;
    var o := t[i].(dib := 0);
    ContentsErase(t, i, o);
    var u := t[i := o];
    assert Absent(u, b.Ident());
    ContentsFill(u, i, b);
    assert u[i := b] == t[i := b];
    assert i in Occupied(t);
  }

  // ---------------------------------------------------------------- an entry looking for a bucket

  /** `e`, not in the table, has come as far as bucket `i`; everything it passed is at least as far
      from home as `e` was there. */
  ghost predicate InFlight<K, V>(t: Table<K, V>, e: Bucket<K, V>, i: nat) {
    && i < |t|
    && e.dib == Dist(Home(e.hash, |t|), i, |t|) + 1
    && (e.dib > 1 ==> t[Prev(i, |t|)].dib >= e.dib - 1)
  }

  /** The table and the entry in flight make up `m` together. */
  ghost predicate Carrying<K, V>(t: Table<K, V>, e: Bucket<K, V>, m: map<Id<K>, V>) {
    && WellFormed(t)
    && Absent(t, e.Ident())
    && Contents(t)[e.Ident() := e.val] == m
  }

  /** No bucket from the home of `id` up to `i` holds `id`. */
  ghost predicate Seeking<K, V>(t: Table<K, V>, id: Id<K>, i: nat)
    requires i < |t|
  {
    var h := Home(id.hash, |t|);
    forall q :: 0 <= q < |t| && Dist(h, q, |t|) < Dist(h, i, |t|) && t[q].dib > 0 ==> t[q].Ident() != id
  }

  lemma SeekingStart<K, V>(t: Table<K, V>, id: Id<K>)
    requires |t| > 0
    ensures Seeking(t, id, Home(id.hash, |t|))
  {
  }

  /** A probe that steps past bucket `i` without having met `id` there. */
  lemma SeekingNext<K, V>(t: Table<K, V>, id: Id<K>, i: nat, z: nat)
    requires i < |t| && z < |t| && Seeking(t, id, i) && t[z].dib == 0
    requires t[i].dib > 0 && t[i].Ident() != id
    requires Dist(Home(id.hash, |t|), i, |t|) <= Dist(Home(id.hash, |t|), z, |t|)
    ensures Seeking(t, id, Next(i, |t|))
    ensures Dist(Home(id.hash, |t|), Next(i, |t|), |t|) == Dist(Home(id.hash, |t|), i, |t|) + 1
    ensures Dist(Home(id.hash, |t|), i, |t|) < Dist(Home(id.hash, |t|), z, |t|)
  {
  }

  /** A probe that comes to an empty bucket has seen enough. */
  lemma SeekingEmpty<K, V>(t: Table<K, V>, id: Id<K>, i: nat)
    requires WellFormed(t) && i < |t| && Seeking(t, id, i) && t[i].dib == 0
    ensures Absent(t, id)
  {
    forall p | 0 <= p < |t| && t[p].dib > 0 ensures t[p].Ident() != id
    {
      if t[p].Ident() == id {
        PathFull(t, Home(id.hash, |t|), p, i);
      }
    }
  }

  lemma InFlightBeforeEmpty<K, V>(t: Table<K, V>, e: Bucket<K, V>, i: nat, z: nat)
    requires |t| >= 4 && Ordered(t) && InFlight(t, e, i) && z < |t| && t[z].dib == 0
    ensures Dist(Home(e.hash, |t|), i, |t|) <= Dist(Home(e.hash, |t|), z, |t|)
  {
    if e.dib > 1 {
      BeforeEmpty(t, Home(e.hash, |t|), Prev(i, |t|), z);
    }
  }

  /** Robin Hood: an entry may take the bucket of one that is nearer its home. */
  lemma Place<K, V>(t: Table<K, V>, e: Bucket<K, V>, i: nat)
    requires WellFormed(t) && InFlight(t, e, i) && t[i].dib < e.dib && AbsentBut(t, e.Ident(), i)
    ensures WellFormed(t[i := e])
  {
    var u := t[i := e];
    forall j | 0 <= j < |u| ensures OrderedAt(u, j)
    {
      assert OrderedAt(t, j);
    }
    DistinctUpdate(t, i, e);
  }

  lemma CarryPlace<K, V>(t: Table<K, V>, e: Bucket<K, V>, i: nat, m: map<Id<K>, V>)
    requires Carrying(t, e, m) && InFlight(t, e, i) && t[i].dib == 0
    ensures WellFormed(t[i := e]) && Contents(t[i := e]) == m && Occupied(t[i := e]) == Occupied(t) + {i}
  {
    Place(t, e, i);
    ContentsFill(t, i, e);
  }

  /** Going on past a bucket that keeps its entry. */
  lemma PassBy<K, V>(t: Table<K, V>, e: Bucket<K, V>, i: nat, z: nat)
    requires |t| >= 4 && Ordered(t) && InFlight(t, e, i) && z < |t| && t[z].dib == 0
    requires t[i].dib >= e.dib
    ensures InFlight(t, e.(dib := e.dib + 1), Next(i, |t|))
    ensures Dist(i, z, |t|) == Dist(Next(i, |t|), z, |t|) + 1
  {
    BeforeEmpty(t, Home(e.hash, |t|), i, z);
  }

  lemma CarrySwapContents<K, V>(t: Table<K, V>, e: Bucket<K, V>, i: nat, f: Bucket<K, V>)
    requires Distinct(t) && i < |t| && t[i].dib > 0 && e.dib > 0 && Absent(t, e.Ident())
    requires f.Ident() == t[i].Ident() && f.val == t[i].val
    ensures var u := t[i := e];
            && Distinct(u) && Absent(u, f.Ident()) && Occupied(u) == Occupied(t)
            && Contents(u)[f.Ident() := f.val] == Contents(t)[e.Ident() := e.val]
  {
    hide Contents, Occupied;
    var u := t[i := e];
    ContentsUpdate(t, i, e);
    ContentsAt(t);
    assert Absent(u, f.Ident()) by {
      forall j | 0 <= j < |u| && u[j].dib > 0 ensures u[j].Ident() != f.Ident()
      {
        if j != i { assert u[j] == t[j]; }
      }
    }
    var c := Contents(t);
    assert (c - {f.Ident()})[e.Ident() := e.val][f.Ident() := f.val] == c[e.Ident() := e.val];
  }

  lemma SwapInFlight<K, V>(t: Table<K, V>, e: Bucket<K, V>, i: nat, z: nat)
    requires |t| >= 4 && Placed(t) && Ordered(t) && i < |t| && z < |t| && t[z].dib == 0
    requires 0 < t[i].dib < e.dib
    ensures InFlight(t[i := e], t[i].(dib := t[i].dib + 1), Next(i, |t|))
    ensures Dist(i, z, |t|) == Dist(Next(i, |t|), z, |t|) + 1
  {
    BeforeEmpty(t, Home(t[i].hash, |t|), i, z);
  }

  /** Going on with the entry whose bucket was taken. */
  lemma CarrySwap<K, V>(t: Table<K, V>, e: Bucket<K, V>, i: nat, f: Bucket<K, V>, m: map<Id<K>, V>)
    requires Carrying(t, e, m) && InFlight(t, e, i) && 0 < t[i].dib < e.dib
    requires f.Ident() == t[i].Ident() && f.val == t[i].val
    ensures Carrying(t[i := e], f, m) && Occupied(t[i := e]) == Occupied(t)
  {
    Place(t, e, i);
    CarrySwapContents(t, e, i, f);
  }

  /** Before `e` takes a bucket, the table's order rules its own key out of the rest of the table. */
  lemma SeekingAbsent<K, V>(t: Table<K, V>, e: Bucket<K, V>, i: nat)
    requires WellFormed(t) && InFlight(t, e, i) && Seeking(t, e.Ident(), i) && t[i].dib < e.dib
    ensures Absent(t, e.Ident())
  {
    forall p | 0 <= p < |t| && t[p].dib > 0 ensures t[p].Ident() != e.Ident()
    {
      if t[p].Ident() == e.Ident() {
        PathFull(t, Home(e.hash, |t|), p, i);
      }
    }
  }

  // ---------------------------------------------------------------- how far an entry can be

  /** The `d` buckets from `h` on. */
  ghost function Arc(h: nat, d: nat, n: nat): set<nat>
    requires h < n
  {
    set q: nat | q < n && Dist(h, q, n) < d
  }

  lemma ArcNone(h: nat, n: nat)
    requires h < n
    ensures Arc(h, 0, n) == {}
  {
  }

  lemma ArcLast(h: nat, d: nat, n: nat, q: nat)
    requires h < n && q < n && d == Dist(h, q, n) + 1
    ensures Arc(h, d, n) == Arc(h, d - 1, n) + {q} && q !in Arc(h, d - 1, n)
  {
  }

  lemma {:induction false} ArcSize(h: nat, d: nat, n: nat)
    requires h < n && d <= n
    ensures |Arc(h, d, n)| == d
  {
    hide Arc;
    if d == 0 {
      assert Arc(h, d, n) == {} by { ArcNone(h, n); }
    } else {
      ArcSize(h, d - 1, n);
      var q := if h + d - 1 < n then h + d - 1 else h + d - 1 - n;
      ArcLast(h, d, n, q);
    }
  }

  lemma ArcFull<K, V>(t: Table<K, V>, h: nat, p: nat)
    requires Ordered(t) && h < |t| && p < |t| && t[p].dib >= Dist(h, p, |t|) + 1
    ensures Arc(h, Dist(h, p, |t|) + 1, |t|) <= Occupied(t)
    ensures Dist(h, p, |t|) + 1 <= |Occupied(t)|
  {
    var d := Dist(h, p, |t|) + 1;
    forall q | q in Arc(h, d, |t|) ensures q in Occupied(t)
    {
      PathFull(t, h, p, q);
    }
    ArcSize(h, d, |t|);
    SubsetSize(Arc(h, d, |t|), Occupied(t));
  }

  /** A stored dib never exceeds the number of entries. */
  lemma DibBound<K, V>(t: Table<K, V>, i: nat)
    requires Placed(t) && Ordered(t) && i < |t|
    ensures t[i].dib <= |Occupied(t)|
  {
    if t[i].dib > 0 {
      ArcFull(t, Home(t[i].hash, |t|), i);
    }
  }

  lemma {:induction false} SubsetEqual<T>(a: set<T>, b: set<T>)
    requires a <= b && |a| == |b|
    ensures a == b
  {
    if a != b {
      var x :| x in b && x !in a;
      SubsetSize(a, b - {x});
    }
  }

  /** Entries with one home bucket fill the buckets from there on, in some order. */
  lemma CollidingRun<K, V>(t: Table<K, V>, h: nat, q: nat)
    requires WellFormed(t) && h < |t| && q < |t|
    requires forall i :: 0 <= i < |t| && t[i].dib > 0 ==> Home(t[i].hash, |t|) == h
    ensures t[q].dib == if Dist(h, q, |t|) < |Occupied(t)| then Dist(h, q, |t|) + 1 else 0
  {
    var n, c := |t|, |Occupied(t)|;
    if t[q].dib > 0 {
      DibBound(t, q);
    } else if Dist(h, q, n) < c {
      var d := Dist(h, q, n);
      forall p | p in Occupied(t) ensures p in Arc(h, d, n)
      {
        if Dist(h, p, n) >= d { PathFull(t, h, p, q); }
      }
      ArcSize(h, d, n);
      SubsetSize(Occupied(t), Arc(h, d, n));
      assert false;
    }
  }

  // ---------------------------------------------------------------- backward shift

  /** The table is in order but for the empty bucket `hole`, whose entry used to have dib `d`. */
  ghost predicate Hole<K, V>(t: Table<K, V>, hole: nat, d: nat) {
    && |t| >= 4 && hole < |t| && t[hole].dib == 0 && d >= 1
    && Placed(t)
    && (forall i :: 0 <= i < |t| && i != Next(hole, |t|) ==> OrderedAt(t, i))
    && (d > 1 ==> t[Prev(hole, |t|)].dib >= d - 1)
    && t[Next(hole, |t|)].dib <= d + 1
  }

  lemma HoleOpen<K, V>(t: Table<K, V>, p: nat, b: Bucket<K, V>)
    requires WellFormed(t) && p < |t| && t[p].dib > 0 && b.dib == 0
    ensures Hole(t[p := b], p, t[p].dib)
  {
    var u := t[p := b];
    assert OrderedAt(t, p) && OrderedAt(t, Next(p, |t|));
    forall i | 0 <= i < |t| && i != Next(p, |t|) ensures OrderedAt(u, i)
    {
      assert OrderedAt(t, i);
    }
  }

  /** Moving the entry after the hole one bucket back moves the hole one bucket on. */
  lemma HoleShift<K, V>(t: Table<K, V>, hole: nat, d: nat, nx: nat, b: Bucket<K, V>, o: Bucket<K, V>)
    requires Hole(t, hole, d) && nx == Next(hole, |t|) && t[nx].dib > 1
    requires b == t[nx].(dib := t[nx].dib - 1) && o.dib == 0
    ensures Hole(t[nx := o][hole := b], nx, t[nx].dib)
  {
    var u := t[nx := o][hole := b];
    assert OrderedAt(t, Next(nx, |t|));
    forall i | 0 <= i < |t| && i != Next(nx, |t|) ensures OrderedAt(u, i)
    {
      if i != nx { assert OrderedAt(t, i); }
    }
  }

  lemma HoleShiftContents<K, V>(t: Table<K, V>, nx: nat, hole: nat, b: Bucket<K, V>, o: Bucket<K, V>)
    requires Distinct(t) && nx < |t| && hole < |t| && nx != hole
    requires t[hole].dib == 0 && t[nx].dib > 0 && o.dib == 0
    requires b.dib > 0 && b.Ident() == t[nx].Ident() && b.val == t[nx].val
    ensures var u := t[nx := o][hole := b];
            Distinct(u) && Contents(u) == Contents(t) && |Occupied(u)| == |Occupied(t)|
  {
    hide Contents, Distinct, Occupied, Absent;
    var v := t[nx := o];
    ContentsErase(t, nx, o);
    ContentsFill(v, hole, b);
    ContentsAt(t);
    var c := Contents(t);
    assert (c - {b.Ident()})[b.Ident() := b.val] == c;
  }

  lemma HoleClose<K, V>(t: Table<K, V>, hole: nat, d: nat)
    requires Hole(t, hole, d) && t[Next(hole, |t|)].dib <= 1
    ensures Ordered(t)
  {
    forall i | 0 <= i < |t| ensures OrderedAt(t, i)
    {
    }
  }

  /** The table as it is while entries are moved back: bucket `hole` counts as empty whatever it holds. */
  ghost function Emptied<K, V>(t: Table<K, V>, hole: nat): Table<K, V>
    requires hole < |t|
  {
    t[hole := t[hole].(dib := 0)]
  }

  ghost predicate Shifting<K, V>(t: Table<K, V>, hole: nat, d: nat, m: map<Id<K>, V>, c: int) {
    && hole < |t|
    && Hole(Emptied(t, hole), hole, d) && Distinct(Emptied(t, hole))
    && Contents(Emptied(t, hole)) == m && |Occupied(Emptied(t, hole))| == c
  }

  lemma ShiftStart<K, V>(t: Table<K, V>, p: nat)
    requires WellFormed(t) && p < |t| && t[p].dib > 0
    ensures Shifting(Emptied(t, p), p, t[p].dib, Contents(t) - {t[p].Ident()}, |Occupied(t)| - 1)
  {
    hide Contents, Occupied, Placed, Ordered, Distinct, Hole;
    var o := t[p].(dib := 0);
    HoleOpen(t, p, o);
    ContentsErase(t, p, o);
    assert Emptied(Emptied(t, p), p) == t[p := o];
  }

  lemma ShiftStep<K, V>(t: Table<K, V>, hole: nat, d: nat, nx: nat, m: map<Id<K>, V>, c: int)
    requires Shifting(t, hole, d, m, c) && nx == Next(hole, |t|) && t[nx].dib > 1
    ensures Shifting(t[hole := t[nx].(dib := t[nx].dib - 1)], nx, t[nx].dib, m, c)
  {
    hide Contents, Occupied, Placed, Ordered, Distinct;
    var e := Emptied(t, hole);
    var b, o := t[nx].(dib := t[nx].dib - 1), t[nx].(dib := 0);
    assert e[nx] == t[nx];
    HoleShift(e, hole, d, nx, b, o);
    HoleShiftContents(e, nx, hole, b, o);
    assert Emptied(t[hole := b], nx) == e[nx := o][hole := b];
  }

  lemma ShiftEnd<K, V>(t: Table<K, V>, hole: nat, d: nat, m: map<Id<K>, V>, c: int)
    requires Shifting(t, hole, d, m, c) && t[Next(hole, |t|)].dib <= 1
    ensures WellFormed(Emptied(t, hole))
    ensures Contents(Emptied(t, hole)) == m && |Occupied(Emptied(t, hole))| == c
  {
    hide Contents, Occupied, Distinct;
    HoleClose(Emptied(t, hole), hole, d);
  }
}
