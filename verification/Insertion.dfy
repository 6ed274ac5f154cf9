/**
 Inserting into a Robin Hood table, step by step, with a dib field of 16 bits.
 */
module Insertion {
  import opened RobinHood
  import opened Crowding

  /** `dib += 1` in 16 bits. */
  function IncDib(d: nat): nat {
    if d < MAX_DIB then d + 1 else 0
  }

  lemma IncDibWraps(d: nat)
    requires d < 65536
    ensures IncDib(d) == (d + 1) % 65536
  {
  }

  /** Adding `id` to the entries in `m` crowds a table of `n` buckets. */
  ghost predicate Crowds<K, V>(m: map<Id<K>, V>, id: Id<K>, n: nat) {
    Crowded(m.Keys + {id}, n)
  }

  /** The case of 65535 stored entries: all of them have the home of a key that is not among them. */
  ghost predicate Wraps<K, V>(m: map<Id<K>, V>, id: Id<K>, n: nat)
    requires n > 0
  {
    |m| == MAX_DIB && id !in m && forall x :: x in m ==> Home(x.hash, n) == Home(id.hash, n)
  }

  lemma CrowdsAtMax<K, V>(m: map<Id<K>, V>, id: Id<K>, n: nat)
    requires n > 0 && |m| == MAX_DIB
    ensures Crowds(m, id, n) <==> Wraps(m, id, n)
  {
    if id in m {
      assert m.Keys + {id} == m.Keys;
      if Crowds(m, id, n) { FewNotCrowded(m.Keys, n); }
    } else {
      assert |m.Keys + {id}| == MAX_DIB + 1;
      CrowdedAtMax(m.Keys + {id}, id, n);
    }
  }

  /** A table that fits is crowded only by a new key. */
  lemma CrowdsNew<K, V>(t: Table<K, V>, id: Id<K>)
    requires WellFormed(t) && Fits(t) && Crowds(Contents(t), id, |t|)
    ensures id !in Contents(t)
  {
    assert id in Contents(t) ==> Contents(t).Keys + {id} == Contents(t).Keys;
    FitsNotCrowded(t);
  }

  /** The table after entry `e` has met the full bucket `j`: the one farther from home stays there ... */
  function Met<K, V>(t: Table<K, V>, e: Bucket<K, V>, j: nat): Table<K, V>
    requires j < |t|
  {
    if t[j].dib < e.dib then t[j := e] else t
  }

  /** ... and the other one goes on. */
  function GoesOn<K, V>(t: Table<K, V>, e: Bucket<K, V>, j: nat): Bucket<K, V>
    requires j < |t|
  {
    var f := if t[j].dib < e.dib then t[j] else e;
    f.(dib := IncDib(f.dib))
  }

  /** `e` is on its way at bucket `j`; the table, its `c` entries, and `e` make up `m`. */
  ghost predicate Underway<K, V>(t: Table<K, V>, e: Bucket<K, V>, j: nat, c: nat, m: map<Id<K>, V>) {
    Carrying(t, e, m) && InFlight(t, e, j) && e.dib <= MAX_DIB && |Occupied(t)| == c
  }

  lemma InsertStep<K, V>(t: Table<K, V>, e: Bucket<K, V>, j: nat, z: nat, c: nat, m: map<Id<K>, V>)
    requires Underway(t, e, j, c, m) && t[j].dib > 0 && z < |t| && t[z].dib == 0
    requires t[j].dib >= e.dib ==> e.dib < MAX_DIB
    ensures Underway(Met(t, e, j), GoesOn(t, e, j), Next(j, |t|), c, m)
    ensures Met(t, e, j)[z].dib == 0
    ensures Dist(j, z, |t|) == Dist(Next(j, |t|), z, |t|) + 1
  {
    hide Placed, Ordered, Distinct, Contents, Occupied, Absent;
    if t[j].dib < e.dib {
      SwapInFlight(t, e, j, z);
      CarrySwap(t, e, j, GoesOn(t, e, j), m);
    } else {
      PassBy(t, e, j, z);
    }
  }

  /** An entry on its way can go on unless it crowds the table. */
  lemma InsertFits<K, V>(t: Table<K, V>, e: Bucket<K, V>, j: nat, z: nat, c: nat, m: map<Id<K>, V>)
    requires Underway(t, e, j, c, m) && t[j].dib >= e.dib && z < |t| && t[z].dib == 0
    requires !Crowded(m.Keys, |t|)
    ensures e.dib < MAX_DIB
  {
    hide WellFormed;
    assert m.Keys == Contents(t).Keys + {e.Ident()};
    if e.dib == MAX_DIB { FullCrowds(t, e, j, z); }
  }

  lemma InsertEnd<K, V>(t: Table<K, V>, e: Bucket<K, V>, j: nat, c: nat, m: map<Id<K>, V>)
    requires Underway(t, e, j, c, m) && t[j].dib == 0
    ensures WellFormed(t[j := e]) && Contents(t[j := e]) == m && |Occupied(t[j := e])| == c + 1
  {
    hide Distinct, Contents;
    CarryPlace(t, e, j, m);
    assert j !in Occupied(t);
  }

  // ---------------------------------------------------------------- storing an item

  /** The new entry has come to bucket `i` without meeting its key or taking a bucket. */
  ghost predicate Fresh<K, V>(t: Table<K, V>, e: Bucket<K, V>, i: nat, id: Id<K>, val: V) {
    e.Ident() == id && e.val == val && e.dib <= MAX_DIB && InFlight(t, e, i) && Seeking(t, id, i)
  }

  /** The same when the table is one run of colliding entries: the dib wraps at the end of the run. */
  ghost predicate Lapped<K, V>(t: Table<K, V>, e: Bucket<K, V>, i: nat, id: Id<K>) {
    && i < |t| && e.Ident() == id
    && var d := Dist(Home(id.hash, |t|), i, |t|);
      d <= MAX_DIB && e.dib == if d < MAX_DIB then d + 1 else 0
  }

  /** The table, whatever its order, and the entry in flight make up `m` together. */
  ghost predicate Loose<K, V>(t: Table<K, V>, e: Bucket<K, V>, c: nat, m: map<Id<K>, V>) {
    Distinct(t) && Absent(t, e.Ident()) && Contents(t)[e.Ident() := e.val] == m && |Occupied(t)| == c
  }

  ghost predicate Within<K, V>(t: Table<K, V>, e: Bucket<K, V>, ids: set<Id<K>>) {
    e.Ident() in ids && forall i :: 0 <= i < |t| && t[i].dib > 0 ==> t[i].Ident() in ids
  }

  /** The entry is on its way as it should be. */
  ghost predicate OnCourse<K, V>(t0: Table<K, V>, t: Table<K, V>, e: Bucket<K, V>, i: nat, id: Id<K>, val: V) {
    || (t == t0 && Fresh(t0, e, i, id, val))
    || (id !in Contents(t0) && Underway(t, e, i, |Occupied(t0)|, Contents(t0)[id := val]))
  }

  /** What the loop of `hashmap_set_with_hash` keeps: `t0` is the table it started with, in order or not. */
  ghost predicate Storing<K, V>(t0: Table<K, V>, t: Table<K, V>, e: Bucket<K, V>, i: nat, id: Id<K>, val: V) {
    && |t| == |t0| && i < |t| && Distinct(t0) && Fits(t0) && Fits(t) && e.dib <= MAX_DIB
    && Within(t, e, Contents(t0).Keys + {id})
    && (id !in Contents(t0) ==> Loose(t, e, |Occupied(t0)|, Contents(t0)[id := val]))
    && (WellFormed(t0) && !Crowds(Contents(t0), id, |t0|) ==> OnCourse(t0, t, e, i, id, val))
    && (WellFormed(t0) && Wraps(Contents(t0), id, |t0|) ==> t == t0 && Lapped(t0, e, i, id))
  }

  lemma StoreStart<K, V>(t: Table<K, V>, e: Bucket<K, V>)
    requires |t| > 0 && Distinct(t) && Fits(t) && e.dib == 1
    ensures Storing(t, t, e, Home(e.hash, |t|), e.Ident(), e.val)
  {
  }

  /** The new entry and the one it is stored as. */
  lemma FreshUnderway<K, V>(t: Table<K, V>, e: Bucket<K, V>, i: nat, id: Id<K>, val: V)
    requires WellFormed(t) && Fresh(t, e, i, id, val) && t[i].dib < e.dib
    ensures id !in Contents(t) && Underway(t, e, i, |Occupied(t)|, Contents(t)[id := val])
  {
    SeekingAbsent(t, e, i);
  }

  /** At the empty bucket the loop stops at, the item is stored as it should be if it does not crowd the table ... */
  lemma StoreEmpty<K, V>(t0: Table<K, V>, t: Table<K, V>, e: Bucket<K, V>, i: nat, id: Id<K>, val: V)
    requires Storing(t0, t, e, i, id, val) && t[i].dib == 0
    requires WellFormed(t0) && !Crowds(Contents(t0), id, |t0|)
    ensures id !in Contents(t0)
    ensures WellFormed(t[i := e]) && Contents(t[i := e]) == Contents(t0)[id := val]
    ensures |Occupied(t[i := e])| == |Occupied(t0)| + 1
  {
    hide Contents, Occupied, Placed, Ordered, Distinct, Underway, Loose, Within;
    if t == t0 && Fresh(t0, e, i, id, val) {
      FreshUnderway(t0, e, i, id, val);
      InsertEnd(t0, e, i, |Occupied(t0)|, Contents(t0)[id := val]);
    } else {
      InsertEnd(t, e, i, |Occupied(t0)|, Contents(t0)[id := val]);
    }
  }

  /** ... and if it does, the table is out of order, or an entry is lost: at most one is. */
  lemma StoreCrowded<K, V>(t0: Table<K, V>, t: Table<K, V>, e: Bucket<K, V>, i: nat, id: Id<K>, val: V)
    requires Storing(t0, t, e, i, id, val) && t[i].dib == 0 && id !in Contents(t0)
    ensures var m, u := Contents(t0)[id := val], t[i := e];
            && Distinct(u) && |Occupied(u)| <= |Occupied(t0)| + 1
            && Contents(u) == (if e.dib == 0 then m - {e.Ident()} else m)
            && (Crowds(Contents(t0), id, |t0|) ==> !(WellFormed(u) && |Occupied(u)| == |Occupied(t0)| + 1))
  {
    hide Contents, Occupied, Distinct, WellFormed, OnCourse, Lapped, Crowds, Within;
    var m, u := Contents(t0)[id := val], t[i := e];
    if e.dib == 0 {
      ContentsNop(t, i, e);
      assert e.Ident() !in Contents(t);
    } else {
      ContentsFill(t, i, e);
      if Crowds(Contents(t0), id, |t0|) && WellFormed(u) { FilledNotCrowded(t0, u, id, val); }
    }
  }

  lemma FilledNotCrowded<K, V>(t0: Table<K, V>, u: Table<K, V>, id: Id<K>, val: V)
    requires WellFormed(u) && Fits(u) && |u| == |t0| && Contents(u) == Contents(t0)[id := val]
    ensures !Crowds(Contents(t0), id, |t0|)
  {
    FitsNotCrowded(u);
    assert Contents(u).Keys == Contents(t0).Keys + {id};
  }

  /** With 65535 entries it is the new item that is lost. */
  lemma StoreLost<K, V>(t0: Table<K, V>, t: Table<K, V>, e: Bucket<K, V>, i: nat, id: Id<K>, val: V)
    requires Storing(t0, t, e, i, id, val) && t[i].dib == 0 && WellFormed(t0) && Wraps(Contents(t0), id, |t0|)
    ensures Contents(t[i := e]) == Contents(t0)
  {
    hide Contents, Occupied, Placed, Ordered, Distinct, OnCourse, Loose, Within, Crowds;
    WrapsRun(t0, id, i);
    ContentsNop(t, i, e);
  }

  lemma ContentsNop<K, V>(t: Table<K, V>, i: nat, b: Bucket<K, V>)
    requires Distinct(t) && i < |t| && t[i].dib == 0 && b.dib == 0
    ensures Distinct(t[i := b]) && Contents(t[i := b]) == Contents(t) && Occupied(t[i := b]) == Occupied(t)
  {
    var u := t[i := b];
    DistinctUpdate(t, i, b);
    ContentsAt(t);
    forall id | id in Contents(t) ensures !Absent(u, id)
    {
      var j := Find(t, id);
      assert u[j] == t[j];
    }
    ContentsIs(u, Contents(t));
  }

  lemma WrapsRun<K, V>(t: Table<K, V>, id: Id<K>, q: nat)
    requires WellFormed(t) && q < |t| && Wraps(Contents(t), id, |t|)
    ensures var d := Dist(Home(id.hash, |t|), q, |t|); t[q].dib == if d < MAX_DIB then d + 1 else 0
    ensures t[q].dib > 0 ==> t[q].Ident() != id
  {
    var h := Home(id.hash, |t|);
    ContentsSize(t);
    forall i | 0 <= i < |t| && t[i].dib > 0 ensures Home(t[i].hash, |t|) == h
    {
      assert t[i].Ident() in Contents(t);
    }
    CollidingRun(t, h, q);
  }

  lemma FreshRoom<K, V>(t: Table<K, V>, e: Bucket<K, V>, i: nat, z: nat, id: Id<K>, val: V)
    requires WellFormed(t) && Fits(t) && Fresh(t, e, i, id, val) && z < |t| && t[z].dib == 0
    requires t[i].dib >= e.dib && t[i].Ident() != id && !Crowds(Contents(t), id, |t|)
    ensures e.dib < MAX_DIB
  {
    hide Contents, Placed, Ordered, Distinct, Occupied;
    if e.dib == MAX_DIB {
      if Absent(t, id) { FullCrowds(t, e, i, z); } else { KeyAhead(t, e, i, Find(t, id)); }
    }
  }

  /** A key the probe has not met is farther on, with a larger dib. */
  lemma KeyAhead<K, V>(t: Table<K, V>, e: Bucket<K, V>, i: nat, p: nat)
    requires WellFormed(t) && InFlight(t, e, i) && Seeking(t, e.Ident(), i)
    requires p < |t| && t[p].dib > 0 && t[p].Ident() == e.Ident() && p != i
    ensures e.dib < t[p].dib
  {
  }

  lemma OnCourseStep<K, V>(t0: Table<K, V>, t: Table<K, V>, e: Bucket<K, V>, i: nat, z: nat, id: Id<K>, val: V)
    requires WellFormed(t0) && Fits(t0) && |t| == |t0| && i < |t| && OnCourse(t0, t, e, i, id, val)
    requires !Crowds(Contents(t0), id, |t0|) && z < |t| && t[z].dib == 0
    requires t[i].dib > 0 && t[i].Ident() != e.Ident()
    ensures OnCourse(t0, Met(t, e, i), GoesOn(t, e, i), Next(i, |t|), id, val)
  {
    hide Contents, Occupied, Placed, Ordered, Distinct, Underway;
    var c, m := |Occupied(t0)|, Contents(t0)[id := val];
    if t == t0 && Fresh(t0, e, i, id, val) && t[i].dib >= e.dib {
      FreshRoom(t, e, i, z, id, val);
      FreshStep(t, e, i, z, id, val);
    } else {
      if t == t0 && Fresh(t0, e, i, id, val) { FreshUnderway(t, e, i, id, val); }
      assert m.Keys == Contents(t0).Keys + {id};
      if t[i].dib >= e.dib { InsertFits(t, e, i, z, c, m); }
      InsertStep(t, e, i, z, c, m);
    }
  }

  lemma LooseStep<K, V>(t: Table<K, V>, e: Bucket<K, V>, i: nat, c: nat, m: map<Id<K>, V>)
    requires Loose(t, e, c, m) && i < |t| && t[i].dib > 0
    ensures Loose(Met(t, e, i), GoesOn(t, e, i), c, m)
  {
    hide Contents, Occupied, Distinct;
    if t[i].dib < e.dib { CarrySwapContents(t, e, i, GoesOn(t, e, i)); }
  }

  /** One turn of the loop, past a full bucket that holds another key. */
  lemma StoreStep<K, V>(t0: Table<K, V>, t: Table<K, V>, e: Bucket<K, V>, i: nat, z: nat, id: Id<K>, val: V)
    requires Storing(t0, t, e, i, id, val) && z < |t| && t[z].dib == 0
    requires t[i].dib > 0 && t[i].Ident() != e.Ident()
    ensures Storing(t0, Met(t, e, i), GoesOn(t, e, i), Next(i, |t|), id, val)
    ensures Met(t, e, i)[z].dib == 0
    ensures Dist(i, z, |t|) == Dist(Next(i, |t|), z, |t|) + 1
  {
    hide Contents, Occupied, Distinct, WellFormed, OnCourse, Loose, Lapped, Wraps, Crowds;
    if id !in Contents(t0) { LooseStep(t, e, i, |Occupied(t0)|, Contents(t0)[id := val]); }
    if WellFormed(t0) && !Crowds(Contents(t0), id, |t0|) { OnCourseStep(t0, t, e, i, z, id, val); }
    if WellFormed(t0) && Wraps(Contents(t0), id, |t0|) { LappedStep(t0, e, i, z, id); }
  }

  lemma FreshStep<K, V>(t: Table<K, V>, e: Bucket<K, V>, i: nat, z: nat, id: Id<K>, val: V)
    requires WellFormed(t) && Fresh(t, e, i, id, val) && z < |t| && t[z].dib == 0
    requires t[i].dib >= e.dib && t[i].Ident() != id && e.dib < MAX_DIB
    ensures Fresh(t, e.(dib := e.dib + 1), Next(i, |t|), id, val)
    ensures Dist(i, z, |t|) == Dist(Next(i, |t|), z, |t|) + 1
  {
    PassBy(t, e, i, z);
    InFlightBeforeEmpty(t, e, i, z);
    SeekingNext(t, id, i, z);
  }

  lemma LappedStep<K, V>(t: Table<K, V>, e: Bucket<K, V>, i: nat, z: nat, id: Id<K>)
    requires WellFormed(t) && Wraps(Contents(t), id, |t|) && Lapped(t, e, i, id)
    requires z < |t| && t[z].dib == 0 && t[i].dib > 0
    ensures t[i].dib == e.dib && Lapped(t, e.(dib := IncDib(e.dib)), Next(i, |t|), id)
    ensures Dist(i, z, |t|) == Dist(Next(i, |t|), z, |t|) + 1
  {
    hide Contents, Placed, Distinct, Wraps;
    WrapsRun(t, id, i);
    BeforeEmpty(t, Home(id.hash, |t|), i, z);
  }

  /** Meeting its own key, the new entry is still the one that goes round, and the table as it was. */
  lemma StoreMatch<K, V>(t0: Table<K, V>, t: Table<K, V>, e: Bucket<K, V>, i: nat, id: Id<K>, val: V)
    requires Storing(t0, t, e, i, id, val) && t[i].dib > 0 && t[i].Ident() == e.Ident()
    ensures id in Contents(t0)
    ensures WellFormed(t0) ==>
      && t == t0 && e.Ident() == id && e.val == val && Contents(t0)[id] == t0[i].val
      && !Crowds(Contents(t0), id, |t0|)
  {
    hide Contents, Occupied, Placed, Ordered, Crowds, Wraps, Lapped;
    if WellFormed(t0) {
      if Crowds(Contents(t0), id, |t0|) { CrowdsNew(t0, id); }
      ContentsAt(t0);
    }
  }

  lemma Overwrite<K, V>(t: Table<K, V>, i: nat, b: Bucket<K, V>)
    requires WellFormed(t) && i < |t| && t[i].dib > 0
    requires b == t[i].(val := b.val)
    ensures WellFormed(t[i := b]) && Occupied(t[i := b]) == Occupied(t)
    ensures Contents(t[i := b]) == Contents(t)[t[i].Ident() := b.val]
  {
    hide Contents, Placed, Ordered, Occupied, Distinct, AbsentBut;
    OverwriteOrder(t, i, b);
    ContentsUpdate(t, i, b);
    var m, id := Contents(t), b.Ident();
    assert (m - {id})[id := b.val] == m[id := b.val];
  }

  lemma OverwriteOrder<K, V>(t: Table<K, V>, i: nat, b: Bucket<K, V>)
    requires WellFormed(t) && i < |t| && 0 < b.dib == t[i].dib && b.Ident() == t[i].Ident()
    ensures Placed(t[i := b]) && Ordered(t[i := b]) && AbsentBut(t, b.Ident(), i)
  {
    var u := t[i := b];
    forall j | 0 <= j < |u| ensures OrderedAt(u, j)
    {
      assert OrderedAt(t, j);
    }
  }
}
