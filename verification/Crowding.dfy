/**
 When the 16-bit `dib` field is wide enough for the entries of a table: an exact condition on their home buckets.

 Entries whose homes lie in k neighbouring buckets have to be placed from the first of these on. If there are more
 than k + 65534 of them, one is 65535 buckets or more from home.
 */
module Crowding {
  import opened RobinHood

  /** The largest value of the 16-bit `dib` field. */
  const MAX_DIB: nat := 0xFFFF

  ghost predicate Fits<K, V>(t: Table<K, V>) {
    forall i :: 0 <= i < |t| ==> t[i].dib <= MAX_DIB
  }

  /** Those of `ids` whose home is one of the `k` buckets from `h` on. */
  ghost function HomeIn<K>(ids: set<Id<K>>, h: nat, k: nat, n: nat): set<Id<K>>
    requires h < n
  {
    set x | x in ids && Dist(h, Home(x.hash, n), n) < k
  }

  /** Some k neighbouring buckets are home to k + 65535 entries or more. */
  ghost predicate Crowded<K>(ids: set<Id<K>>, n: nat) {
    exists h: nat, k: nat :: h < n && 1 <= k && |HomeIn(ids, h, k, n)| >= k + MAX_DIB
  }

  lemma CrowdedMore<K>(ids: set<Id<K>>, more: set<Id<K>>, n: nat)
    requires ids <= more && Crowded(ids, n)
    ensures Crowded(more, n)
  {
    var h: nat, k: nat :| h < n && 1 <= k && |HomeIn(ids, h, k, n)| >= k + MAX_DIB;
    SubsetSize(HomeIn(ids, h, k, n), HomeIn(more, h, k, n));
  }

  /** 65535 entries and fewer never crowd ... */
  lemma FewNotCrowded<K>(ids: set<Id<K>>, n: nat)
    requires Crowded(ids, n)
    ensures |ids| > 65535
  {
    var h: nat, k: nat :| h < n && 1 <= k && |HomeIn(ids, h, k, n)| >= k + MAX_DIB;
    SubsetSize(HomeIn(ids, h, k, n), ids);
  }

  /** ... and 65536 do exactly when they all have one home. */
  lemma CrowdedAtMax<K>(ids: set<Id<K>>, id: Id<K>, n: nat)
    requires |ids| == 65536 && id in ids && n > 0
    ensures Crowded(ids, n) <==> forall x :: x in ids ==> Home(x.hash, n) == Home(id.hash, n)
  {
    if Crowded(ids, n) {
      var h: nat, k: nat :| h < n && 1 <= k && |HomeIn(ids, h, k, n)| >= k + MAX_DIB;
      SubsetSize(HomeIn(ids, h, k, n), ids);
      SubsetEqual(HomeIn(ids, h, k, n), ids);
      forall x | x in ids ensures Home(x.hash, n) == h
      {
        assert x in HomeIn(ids, h, k, n);
      }
    }
    if forall x :: x in ids ==> Home(x.hash, n) == Home(id.hash, n) {
      var h := Home(id.hash, n);
      assert HomeIn(ids, h, 1, n) == ids;
    }
  }

  // ---------------------------------------------------------------- tables that fit do not crowd

  /** The table with only the entries at `keep`. */
  ghost function Restricted<K, V>(t: Table<K, V>, keep: set<nat>): (u: Table<K, V>)
    ensures |u| == |t|
  {
    seq(|t|, i requires 0 <= i < |t| => if i in keep then t[i] else t[i].(dib := 0))
  }

  lemma RestrictedSize<K, V>(t: Table<K, V>, keep: set<nat>)
    requires Distinct(t) && keep <= Occupied(t)
    ensures |Contents(Restricted(t, keep))| == |keep|
    ensures forall i :: i in keep ==> t[i].Ident() in Contents(Restricted(t, keep))
    ensures forall x :: x in Contents(Restricted(t, keep)) ==> exists i :: i in keep && t[i].Ident() == x
  {
    var u := Restricted(t, keep);
    assert Distinct(u);
    assert Occupied(u) == keep;
    ContentsSize(u);
    forall i | i in keep ensures t[i].Ident() in Contents(u)
    {
      assert u[i] == t[i];
    }
    forall x | x in Contents(u) ensures exists i :: i in keep && t[i].Ident() == x
    {
      var i := Find(u, x);
      assert i in keep && t[i].Ident() == x;
    }
  }

  lemma Around(h: nat, g: nat, i: nat, n: nat)
    requires h < n && g < n && i < n
    ensures Dist(h, i, n) <= Dist(h, g, n) + Dist(g, i, n)
  {
  }

  lemma ArcAtMost<K, V>(t: Table<K, V>, keep: set<nat>, h: nat, d: nat)
    requires h < |t| && keep <= Occupied(t) && forall i :: i in keep ==> Dist(h, i, |t|) < d
    ensures |keep| <= d
  {
    var n := |t|;
    var e := if d < n then d else n;
    assert keep <= Arc(h, e, n);
    ArcSize(h, e, n);
    SubsetSize(keep, Arc(h, e, n));
  }

  /** However many entries a table has: if its stored dibs are right and fit, its homes are not crowded. */
  lemma FitsNotCrowded<K, V>(t: Table<K, V>)
    requires |t| > 0 && Placed(t) && Distinct(t) && Fits(t)
    ensures !Crowded(Contents(t).Keys, |t|)
  {
    var n, ids := |t|, Contents(t).Keys;
    forall h: nat, k: nat | h < n && 1 <= k ensures |HomeIn(ids, h, k, n)| < k + MAX_DIB
    {
      var keep := set i: nat | i < n && t[i].dib > 0 && t[i].Ident() in HomeIn(ids, h, k, n);
      forall i | i in keep ensures Dist(h, i, n) < k + MAX_DIB - 1
      {
        Around(h, Home(t[i].hash, n), i, n);
      }
      ArcAtMost(t, keep, h, k + MAX_DIB - 1);
      RestrictedSize(t, keep);
      forall x | x in HomeIn(ids, h, k, n) ensures x in Contents(Restricted(t, keep))
      {
        var i := Find(t, x);
        assert i in keep;
      }
      SubsetSize(HomeIn(ids, h, k, n), Contents(Restricted(t, keep)).Keys);
    }
  }

  // ---------------------------------------------------------------- an entry that does not fit crowds

  /** The run of full buckets that bucket `p` is in: from its start on, no entry's home is before the start. */
  ghost predicate RunFrom<K, V>(t: Table<K, V>, a: nat, p: nat) {
    && a < |t| && p < |t|
    && forall q :: 0 <= q < |t| && Dist(a, q, |t|) <= Dist(a, p, |t|) ==> 1 <= t[q].dib <= Dist(a, q, |t|) + 1
  }

  lemma {:induction false} RunStart<K, V>(t: Table<K, V>, p: nat, z: nat) returns (a: nat)
    requires |t| >= 4 && Ordered(t) && p < |t| && z < |t| && t[p].dib > 0 && t[z].dib == 0
    ensures RunFrom(t, a, p)
    decreases Dist(z, p, |t|)
  {
    assert OrderedAt(t, p);
    if t[p].dib == 1 {
      a := p;
    } else {
      var r := Prev(p, |t|);
      a := RunStart(t, r, z);
      assert Dist(a, z, |t|) > Dist(a, r, |t|);
      RunOn(t, a, r, p);
    }
  }

  lemma RunOn<K, V>(t: Table<K, V>, a: nat, r: nat, p: nat)
    requires RunFrom(t, a, r) && Ordered(t) && p < |t| && r == Prev(p, |t|) && t[p].dib > 0
    requires Dist(a, r, |t|) < |t| - 1
    ensures RunFrom(t, a, p)
  {
    assert OrderedAt(t, p);
    assert Dist(a, p, |t|) == Dist(a, r, |t|) + 1;
  }

  /** The homes of the entries on the way of `e` lie between the start of the run and the home of `e`. */
  lemma HomesBefore<K, V>(t: Table<K, V>, e: Bucket<K, V>, i: nat, a: nat, q: nat)
    requires |t| >= 4 && Placed(t) && Ordered(t) && InFlight(t, e, i) && t[i].dib >= e.dib && RunFrom(t, a, i)
    requires q < |t| && Dist(a, q, |t|) <= Dist(a, i, |t|)
    ensures var n, h := |t|, Home(e.hash, |t|);
            && Dist(a, i, n) == Dist(a, h, n) + e.dib - 1
            && Dist(a, Home(t[q].hash, n), n) <= Dist(a, h, n)
  {
    var n, h := |t|, Home(e.hash, |t|);
    assert t[i].dib <= Dist(a, i, n) + 1;
    assert Dist(h, i, n) <= Dist(a, i, n);
    if Dist(a, q, n) > Dist(a, h, n) {
      PathFull(t, h, i, q);
    }
  }

  lemma Stored<K, V>(t: Table<K, V>, q: nat)
    requires q < |t| && t[q].dib > 0
    ensures t[q].Ident() in Contents(t)
  {
  }

  /** All entries from the start of the run to `i` have their homes between the start and the home of `e`. */
  lemma RunHomes<K, V>(t: Table<K, V>, e: Bucket<K, V>, i: nat, a: nat, ids: set<Id<K>>)
    requires |t| >= 4 && Placed(t) && Ordered(t) && InFlight(t, e, i) && t[i].dib >= e.dib && RunFrom(t, a, i)
    requires Contents(t).Keys <= ids
    ensures var n, h := |t|, Home(e.hash, |t|);
            forall q :: q in Arc(a, Dist(a, i, n) + 1, n) ==>
              q in Occupied(t) && t[q].Ident() in HomeIn(ids, a, Dist(a, h, n) + 1, n)
  {
    hide Contents;
    var n, h := |t|, Home(e.hash, |t|);
    forall q | q in Arc(a, Dist(a, i, n) + 1, n)
      ensures q in Occupied(t) && t[q].Ident() in HomeIn(ids, a, Dist(a, h, n) + 1, n)
    {
      HomesBefore(t, e, i, a, q);
      Stored(t, q);
    }
  }

  /** An entry in flight that has to go on with its dib at the maximum crowds the table. */
  lemma FullCrowds<K, V>(t: Table<K, V>, e: Bucket<K, V>, i: nat, z: nat)
    requires WellFormed(t) && InFlight(t, e, i) && t[i].dib >= e.dib == MAX_DIB && z < |t| && t[z].dib == 0
    requires Absent(t, e.Ident())
    ensures Crowded(Contents(t).Keys + {e.Ident()}, |t|)
  {
    hide Contents, Occupied, RunFrom, Arc, Absent, Distinct, Ordered;
    var n, h, ids := |t|, Home(e.hash, |t|), Contents(t).Keys + {e.Ident()};
    var a := RunStart(t, i, z);
    HomesBefore(t, e, i, a, i);
    var k, d := Dist(a, h, n) + 1, Dist(a, i, n) + 1;
    ArcSize(a, d, n);
    RunHomes(t, e, i, a, ids);
    Enough(t, e, Arc(a, d, n), HomeIn(ids, a, k, n));
  }

  lemma Enough<K, V>(t: Table<K, V>, e: Bucket<K, V>, keep: set<nat>, ids: set<Id<K>>)
    requires Distinct(t) && Absent(t, e.Ident()) && keep <= Occupied(t) && e.Ident() in ids
    requires forall q :: q in keep ==> t[q].Ident() in ids
    ensures |ids| >= |keep| + 1
  {
    hide Contents, Distinct, Restricted;
    var u := Restricted(t, keep);
    RestrictedSize(t, keep);
    assert e.Ident() !in Contents(u);
    assert Contents(u).Keys + {e.Ident()} <= ids;
    SubsetSize(Contents(u).Keys + {e.Ident()}, ids);
  }
}
