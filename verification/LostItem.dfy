/** Items that `hashmap_set` loses: 65536 keys with one home bucket. */
module LostItem {
  import opened Bits
  import opened RobinHood
  import opened Crowding
  import opened Insertion
  import opened HashMaps

  /** A table whose first 65535 buckets hold keys of hash 0. */
  ghost function OneRun<V>(n: nat, v: V): (t: Table<nat, V>) {
    seq(n, (i: nat) => Bucket(if i < MAX_DIB then i + 1 else 0, 0, i, v))
  }

  /** Such a table is in order, and one more key of hash 0 does not fit. */
  lemma OneRunWraps<V>(n: nat, v: V)
    requires n > 65535
    ensures var t := OneRun(n, v);
            && WellFormed(t) && Fits(t) && |Contents(t)| == 65535
            && Wraps(Contents(t), Id(0, 65535), n) && Crowds(Contents(t), Id(0, 65535), n)
  {
    hide Contents, Crowds;
    var t := OneRun(n, v);
    assert Distinct(t);
    forall i | 0 <= i < n ensures OrderedAt(t, i)
    {
    }
    ArcSize(0, MAX_DIB, n);
    assert Occupied(t) == Arc(0, MAX_DIB, n);
    ContentsSize(t);
    forall x | x in Contents(t) ensures x.hash == 0 && x.key < MAX_DIB
    {
      var i := Find(t, x);
    }
    CrowdsAtMax(Contents(t), Id(0, MAX_DIB), n);
  }

  ghost function FirstKeys(k: nat): map<Id<nat>, nat> {
    map i: nat | i < k :: Id(0, i) := i
  }

  lemma {:induction false} FirstKeysSize(k: nat)
    ensures |FirstKeys(k)| == k
  {
    if k == 0 {
      assert FirstKeys(k) == map[];
    } else {
      FirstKeysSize(k - 1);
      assert FirstKeys(k) == FirstKeys(k - 1)[Id(0, k - 1) := k - 1];
      assert FirstKeys(k).Keys == FirstKeys(k - 1).Keys + {Id(0, k - 1)};
    }
  }

  /** A map of the first `k` keys, far from its load limit, whose hash function is 0 everywhere. */
  ghost predicate Holds(m: HashMap<nat, nat>, k: nat)
    reads m, m.buckets
  {
    m.Sound() && m.Map() == FirstKeys(k) && m.nbuckets >= 0x2_0000 && m.hash(k) == 0
  }

  method AddKey(m: HashMap<nat, nat>, k: nat) returns (r: Option<nat>)
    requires Holds(m, k) && k <= MAX_DIB
    modifies m, m.buckets
    ensures m.buckets == old(m.buckets) || fresh(m.buckets)
    ensures m.Shape() && r.None? && !m.oom
    ensures k < MAX_DIB && m.hash(k + 1) == 0 ==> Holds(m, k + 1)
    ensures k == MAX_DIB ==> m.Map() == FirstKeys(k)
  {
    hide Contents, Crowds, WellFormed, Distinct, Fits, Occupied, Wraps, FirstKeys, IsPow2, Crowded, Clip;
    Room(m, k);
    MoreKeys(k);
    if k < MAX_DIB { Roomy(k, m.nbuckets); } else { AllCollide(m.nbuckets); }
    r := m.Set(k, k, false);
  }

  lemma Room(m: HashMap<nat, nat>, k: nat)
    requires Holds(m, k) && k <= MAX_DIB
    ensures m.count < m.growat && m.nbuckets > 0
  {
    hide Contents, WellFormed, FirstKeys;
    m.LoadBound();
    FirstKeysSize(k);
  }

  /** With a hash function that is 0 everywhere, a new map takes 65535 items; the next one is not there after it has
      been set, though the call reports neither an error nor a replaced item. */
  method LoseItem() returns (m: HashMap<nat, nat>, r: Option<nat>)
    ensures m.Shape() && m.Map() == FirstKeys(65535) && Id(0, 65535) !in m.Map()
    ensures r.None? && !m.oom
  {
    hide Holds, FirstKeys;
    m := NewMap();
    var k := 0;
    while k < MAX_DIB
      invariant k <= MAX_DIB && fresh(m) && fresh(m.buckets) && Holds(m, k)
      invariant forall x :: m.hash(x) == 0
    {
      var _ := AddKey(m, k);
      k := k + 1;
    }
    r := AddKey(m, k);
    NotThere(k);
  }

  method NewMap() returns (m: HashMap<nat, nat>)
    ensures fresh(m) && fresh(m.buckets) && Holds(m, 0) && forall x :: m.hash(x) == 0
  {
    hide Contents, FirstKeys, WellFormed, Distinct, Fits, Occupied, IsPow2;
    m := new HashMap<nat, nat>(0x2_0000, _ => 0);
    NoKeys();
  }

  lemma NotThere(k: nat)
    ensures Id(0, k) !in FirstKeys(k)
  {
  }

  lemma NoKeys()
    ensures FirstKeys(0) == map[]
  {
  }

  lemma MoreKeys(k: nat)
    ensures FirstKeys(k + 1) == FirstKeys(k)[Id(Clip(0), k) := k] && Id(Clip(0), k) !in FirstKeys(k)
  {
  }

  lemma Roomy(k: nat, n: nat)
    requires k < MAX_DIB
    ensures !Crowds(FirstKeys(k), Id(Clip(0), k), n)
  {
    hide Crowded;
    var m := FirstKeys(k);
    var ids := m.Keys + {Id(Clip(0), k)};
    FirstKeysSize(k);
    assert |ids| == k + 1;
    if Crowded(ids, n) { FewNotCrowded(ids, n); }
  }

  lemma AllCollide(n: nat)
    requires n > 0
    ensures Wraps(FirstKeys(MAX_DIB), Id(Clip(0), MAX_DIB), n) && !Crowded(FirstKeys(MAX_DIB).Keys, n)
  {
    hide Crowded;
    var m := FirstKeys(MAX_DIB);
    FirstKeysSize(MAX_DIB);
    if Crowded(m.Keys, n) { FewNotCrowded(m.Keys, n); }
  }
}
