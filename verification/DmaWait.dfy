/**
 The DMA requests of a batch complete in any order while the submitter submits, waits and returns. When it is
 released, the memory is what copying each item of the batch in one go would have made it. When a signal ends the wait
 it returns the same, whatever has been copied by then.
 */
module DmaWait {
  import opened DmaSplit

  datatype Phase =
    | Submitting
    | Waiting
    | Released
    | Interrupted
    | Returned(copied: nat, early: bool)

  datatype State<!B> = State(
    next: nat,               // requests submitted
    moved: set<nat>,         // transferred
    called: set<nat>,        // transferred, and the callback has run
    wakeups: nat,            // wakeup_count
    phase: Phase,
    mem: nat -> B
  )

  /** What the submitter goes by: its requests, `expect_count`, and the sum of the lengths. */
  datatype Job = Job(requests: seq<Copy>, expected: nat, length: nat)

  function TotalLength(batch: seq<Copy>): nat {
    if batch == [] then 0 else TotalLength(batch[..|batch| - 1]) + batch[|batch| - 1].len
  }

  /** The sum of the lengths: that of one copy is its own, and batches add up. */
  lemma {:induction false} LengthSum(a: seq<Copy>, b: seq<Copy>)
    ensures TotalLength(a + b) == TotalLength(a) + TotalLength(b)
    ensures |a| == 1 ==> TotalLength(a) == a[0].len
  {
    if b == [] {
      assert a + b == a;
    } else {
      var n := |b| - 1;
      LengthSum(a, b[..n]);
      assert (a + b)[..|a + b| - 1] == a + b[..n];
    }
  }

  /** Cutting up a copy loses nothing of its length, ... */
  lemma {:induction false} SplitLength(c: Copy, size: nat)
    requires size > 0
    ensures TotalLength(Split(c, size)) == c.len
    decreases c.len
  {
    if c.len > 0 {
      var n := if c.len < size then c.len else size;
      var rest := Copy(c.dst + n, c.src + n, c.len - n);
      SplitLength(rest, size);
      LengthSum([Copy(c.dst, c.src, n)], Split(rest, size));
    }
  }

  /** ... nor does cutting up a batch. */
  lemma {:induction false} RequestsLength(batch: seq<Copy>, size: nat)
    requires size > 0
    ensures TotalLength(SplitAll(batch, size)) == TotalLength(batch)
  {
    if batch != [] {
      var n := |batch| - 1;
      RequestsLength(batch[..n], size);
      SplitLength(batch[n], size);
      LengthSum(SplitAll(batch[..n], size), Split(batch[n], size));
    }
  }

  function JobOf(batch: seq<Copy>, size: nat): Job
    requires size > 0
  {
    Job(SplitAll(batch, size), |SplitAll(batch, size)|, TotalLength(batch))
  }

  datatype Step = Submit | Transfer(k: nat) | Callback(k: nat) | Wait | Release | Interrupt | Return

  function Transferred<B>(mem: nat -> B, c: Copy): nat -> B {
    (x: nat) => if Covers(c, x) then mem(c.src + (x - c.dst)) else mem(x)
  }

  /** What the submitter, the engine and its callbacks can do. A signal ends the wait early. The value returned is the
      sum of the lengths in any case. */
  ghost predicate Next<B>(job: Job, s: State<B>, l: Step, t: State<B>) {
    var q := job.requests;
    match l
    case Submit => s.phase.Submitting? && s.next < |q| && t == s.(next := s.next + 1)
    case Transfer(k) => k < s.next && k < |q| && k !in s.moved &&
                        t == s.(moved := s.moved + {k}, mem := Transferred(s.mem, q[k]))
    case Callback(k) => k in s.moved && k !in s.called &&
                        t == s.(called := s.called + {k}, wakeups := s.wakeups + 1)
    case Wait => s.phase.Submitting? && s.next == |q| && t == s.(phase := Waiting)
    case Release => s.phase.Waiting? && s.wakeups >= job.expected && t == s.(phase := Released)
    case Interrupt => s.phase.Waiting? && t == s.(phase := Interrupted)
    case Return => (s.phase.Released? || s.phase.Interrupted?) &&
                   t == s.(phase := Returned(job.length, s.phase.Interrupted?))
  }

  /** Whatever has been submitted can be transferred next, in any order, and then called back, at any time; the wait can
      be interrupted at any time. */
  lemma AnyOrder<B>(job: Job, s: State<B>, k: nat)
    ensures s.phase.Submitting? && s.next < |job.requests| ==> exists t :: Next(job, s, Submit, t)
    ensures k < s.next <= |job.requests| && k !in s.moved ==>
      exists t :: Next(job, s, Transfer(k), t) && t.mem == Transferred(s.mem, job.requests[k])
    ensures k in s.moved && k !in s.called ==> exists t :: Next(job, s, Callback(k), t)
    ensures s.phase.Waiting? ==> exists t :: Next(job, s, Interrupt, t)
  {
    hide Transferred;
    if s.phase.Submitting? && s.next < |job.requests| {
      assert Next(job, s, Submit, s.(next := s.next + 1));
    }
    if k < s.next <= |job.requests| && k !in s.moved {
      var t := s.(moved := s.moved + {k}, mem := Transferred(s.mem, job.requests[k]));
      assert Next(job, s, Transfer(k), t);
    }
    if k in s.moved && k !in s.called {
      assert Next(job, s, Callback(k), s.(called := s.called + {k}, wakeups := s.wakeups + 1));
    }
    if s.phase.Waiting? { assert Next(job, s, Interrupt, s.(phase := Interrupted)); }
  }

  ghost predicate Init<B>(s: State<B>) {
    s.next == 0 && s.moved == {} && s.called == {} && s.wakeups == 0 && s.phase.Submitting?
  }

  datatype Run<!B> = Run(states: seq<State<B>>, steps: seq<Step>)

  ghost predicate IsRun<B>(job: Job, r: Run<B>) {
    && |r.states| == |r.steps| + 1 && Init(r.states[0])
    && forall i {:trigger r.steps[i]} :: 0 <= i < |r.steps| ==> Next(job, r.states[i], r.steps[i], r.states[i + 1])
  }

  // ---------------------------------------------------------------- which requests have completed

  /** The wait has ended because its condition held. */
  predicate WaitedOut(ph: Phase) {
    ph.Released? || (ph.Returned? && !ph.early)
  }

  ghost predicate Counted<B>(job: Job, s: State<B>) {
    && s.next <= |job.requests| && (!s.phase.Submitting? ==> s.next == |job.requests|)
    && s.called <= s.moved && (forall k :: k in s.moved ==> k < s.next)
    && s.wakeups == |s.called| && (WaitedOut(s.phase) ==> s.wakeups >= job.expected)
    && (s.phase.Returned? ==> s.phase.copied == job.length)
  }

  lemma {:induction false} AllBelow(s: set<nat>, n: nat)
    requires forall k :: k in s ==> k < n
    ensures |s| <= n && (|s| == n <==> forall k: nat :: k < n ==> k in s)
  {
    if n == 0 {
      assert s == {};
    } else {
      AllBelow(s - {n - 1}, n - 1);
    }
  }

  lemma CountedStep<B>(job: Job, s: State<B>, l: Step, t: State<B>)
    requires Counted(job, s) && Next(job, s, l, t)
    ensures Counted(job, t)
  {
  }

  lemma {:induction false} RunCounted<B>(job: Job, r: Run<B>, n: nat)
    requires IsRun(job, r) && n < |r.states|
    ensures Counted(job, r.states[n])
  {
    if n != 0 {
      RunCounted(job, r, n - 1);
      CountedStep(job, r.states[n - 1], r.steps[n - 1], r.states[n]);
    }
  }

  /** In every state of every run of every batch, the condition the submitter waits for holds exactly when the callback
      of every request has run, and a submitter that waits can be released exactly then; ... */
  lemma ConditionExact<B>(batch: seq<Copy>, size: nat, r: Run<B>, n: nat)
    requires size > 0 && IsRun(JobOf(batch, size), r) && n < |r.states|
    ensures var q, s := SplitAll(batch, size), r.states[n];
            && (s.wakeups >= |q| <==> forall k: nat :: k < |q| ==> k in s.called)
            && (s.phase.Waiting? ==>
                  ((exists t :: Next(JobOf(batch, size), s, Release, t)) <==>
                   forall k: nat :: k < |q| ==> k in s.called))
  {
    hide SplitAll;
    if r.states[n].phase.Waiting? && r.states[n].wakeups >= |SplitAll(batch, size)| {
      assert Next(JobOf(batch, size), r.states[n], Release, r.states[n].(phase := Released));
    }
    RunCounted(JobOf(batch, size), r, n);
    AllBelow(r.states[n].called, |SplitAll(batch, size)|);
  }

  /** ... so that it is released only after the last request has completed. */
  lemma ReleasedComplete<B>(batch: seq<Copy>, size: nat, r: Run<B>, n: nat)
    requires size > 0 && IsRun(JobOf(batch, size), r) && n < |r.states| && WaitedOut(r.states[n].phase)
    ensures forall k: nat :: k < |SplitAll(batch, size)| ==> k in r.states[n].called && k in r.states[n].moved
  {
    hide SplitAll;
    RunCounted(JobOf(batch, size), r, n);
    ConditionExact(batch, size, r, n);
  }

  // ---------------------------------------------------------------- what is in memory

  predicate Disjoint(a: nat, m: nat, b: nat, n: nat) {
    a + m <= b || b + n <= a
  }

  /** No item is read or written where another is written. */
  ghost predicate Apart(q: seq<Copy>) {
    && (forall i, j :: 0 <= i < j < |q| ==> Disjoint(q[i].dst, q[i].len, q[j].dst, q[j].len))
    && (forall i, j :: 0 <= i < |q| && 0 <= j < |q| ==> Disjoint(q[i].src, q[i].len, q[j].dst, q[j].len))
  }

  /** What copying the items in `done` makes of byte `x`. */
  ghost predicate HoldsAt<B>(q: seq<Copy>, done: set<nat>, mem: nat -> B, now: nat -> B, x: nat) {
    && (forall k :: k in done && k < |q| && Covers(q[k], x) ==> now(x) == mem(q[k].src + (x - q[k].dst)))
    && ((forall k :: k in done && k < |q| ==> !Covers(q[k], x)) ==> now(x) == mem(x))
  }

  ghost predicate Holds<B>(q: seq<Copy>, done: set<nat>, mem: nat -> B, now: nat -> B) {
    forall x: nat :: HoldsAt(q, done, mem, now, x)
  }

  /** One transfer reads what was there at the start, and changes only its own target. */
  lemma HoldsStep<B>(q: seq<Copy>, done: set<nat>, mem: nat -> B, now: nat -> B, k: nat)
    requires Apart(q) && Holds(q, done, mem, now) && k < |q| && k !in done
    ensures Holds(q, done + {k}, mem, Transferred(now, q[k]))
  {
    hide Apart, HoldsAt, Transferred;
    forall x: nat ensures HoldsAt(q, done + {k}, mem, Transferred(now, q[k]), x)
    {
      assert HoldsAt(q, done, mem, now, x);
      if Covers(q[k], x) {
        var y := q[k].src + (x - q[k].dst);
        assert HoldsAt(q, done, mem, now, y);
        TargetStep(q, done, mem, now, k, x, y);
      } else {
        OtherStep(q, done, mem, now, k, x);
      }
    }
  }

  lemma TargetStep<B>(q: seq<Copy>, done: set<nat>, mem: nat -> B, now: nat -> B, k: nat, x: nat, y: nat)
    requires Apart(q) && k < |q| && k !in done && Covers(q[k], x) && y == q[k].src + (x - q[k].dst)
    requires HoldsAt(q, done, mem, now, y)
    ensures HoldsAt(q, done + {k}, mem, Transferred(now, q[k]), x)
  {
    SourceKept(q, done, mem, now, k, y);
    assert Transferred(now, q[k])(x) == mem(y);
    forall j | j in done + {k} && j < |q| && Covers(q[j], x) ensures j == k
    {
      if j != k { NotBoth(q, j, k, x); }
    }
    assert k in done + {k};
  }

  lemma OtherStep<B>(q: seq<Copy>, done: set<nat>, mem: nat -> B, now: nat -> B, k: nat, x: nat)
    requires k < |q| && !Covers(q[k], x) && HoldsAt(q, done, mem, now, x)
    ensures HoldsAt(q, done + {k}, mem, Transferred(now, q[k]), x)
  {
    assert Transferred(now, q[k])(x) == now(x);
    if forall j :: j in done + {k} && j < |q| ==> !Covers(q[j], x) {
      forall j | j in done && j < |q| ensures !Covers(q[j], x) { assert j in done + {k}; }
    }
  }

  lemma NotBoth(q: seq<Copy>, j: nat, k: nat, x: nat)
    requires Apart(q) && j < |q| && k < |q| && j != k && Covers(q[j], x)
    ensures !Covers(q[k], x)
  {
    assert j < k ==> Disjoint(q[j].dst, q[j].len, q[k].dst, q[k].len);
    assert k < j ==> Disjoint(q[k].dst, q[k].len, q[j].dst, q[j].len);
  }

  lemma SourceKept<B>(q: seq<Copy>, done: set<nat>, mem: nat -> B, now: nat -> B, k: nat, y: nat)
    requires Apart(q) && HoldsAt(q, done, mem, now, y) && k < |q| && q[k].src <= y < q[k].src + q[k].len
    ensures now(y) == mem(y)
  {
    forall j | j in done && j < |q| ensures !Covers(q[j], y)
    {
      assert Disjoint(q[k].src, q[k].len, q[j].dst, q[j].len);
    }
  }

  // ---------------------------------------------------------------- requests of a batch

  lemma TilesApart(q: seq<Copy>, c: Copy, size: nat)
    requires Tiles(q, c, size) && Disjoint(c.src, c.len, c.dst, c.len)
    ensures Apart(q)
  {
    forall i, j | 0 <= i < j < |q| ensures Disjoint(q[i].dst, q[i].len, q[j].dst, q[j].len)
    {
      TilesOrder(q, c, size, i, j);
    }
    forall i, j | 0 <= i < |q| && 0 <= j < |q| ensures Disjoint(q[i].src, q[i].len, q[j].dst, q[j].len)
    {
      assert PartOf(q[i], c) && PartOf(q[j], c);
    }
  }

  /** Every request is part of an item of the batch. */
  lemma {:induction false} HasItem(batch: seq<Copy>, size: nat, k: nat) returns (i: nat)
    requires size > 0 && k < |SplitAll(batch, size)|
    ensures i < |batch| && PartOf(SplitAll(batch, size)[k], batch[i])
  {
    var n := |batch| - 1;
    var first := SplitAll(batch[..n], size);
    if k < |first| {
      i := HasItem(batch[..n], size, k);
    } else {
      SplitTiles(batch[n], size);
      i := n;
      assert SplitAll(batch, size)[k] == Split(batch[n], size)[k - |first|];
    }
  }

  /** Every byte of an item is in a request that does that part of it. */
  lemma {:induction false} HasRequest(batch: seq<Copy>, size: nat, i: nat, x: nat) returns (k: nat)
    requires size > 0 && i < |batch| && Covers(batch[i], x)
    ensures var q := SplitAll(batch, size); k < |q| && Covers(q[k], x) && PartOf(q[k], batch[i])
  {
    var n := |batch| - 1;
    var first := SplitAll(batch[..n], size);
    if i < n {
      k := HasRequest(batch[..n], size, i, x);
    } else {
      var q := Split(batch[n], size);
      SplitTiles(batch[n], size);
      var j := TilesCover(q, batch[n], size, |q|, x);
      k := |first| + j;
      assert SplitAll(batch, size)[k] == q[j];
    }
  }

  /** Requests of items that are apart are apart. */
  lemma {:induction false} RequestsApart(batch: seq<Copy>, size: nat)
    requires size > 0 && Apart(batch)
    ensures Apart(SplitAll(batch, size))
  {
    hide Apart, Tiles, Split, Disjoint;
    if batch == [] {
      NoneApart();
    } else {
      var n := |batch| - 1;
      var p, q := SplitAll(batch[..n], size), Split(batch[n], size);
      ApartLast(batch);
      RequestsApart(batch[..n], size);
      SplitTiles(batch[n], size);
      TilesApart(q, batch[n], size);
      forall i, j | 0 <= i < |p| && 0 <= j < |q| ensures Clear(p[i], q[j])
      {
        var m := HasItem(batch[..n], size, i);
        PartsOnly(q, batch[n], size, j);
        ItemsApart(batch, m, n, p[i], q[j]);
      }
      ApartJoin(p, q);
    }
  }

  lemma NoneApart()
    ensures Apart([])
  {
  }

  lemma ApartLast(batch: seq<Copy>)
    requires Apart(batch) && batch != []
    ensures var c := batch[|batch| - 1]; Apart(batch[..|batch| - 1]) && Disjoint(c.src, c.len, c.dst, c.len)
  {
  }

  lemma PartsOnly(q: seq<Copy>, c: Copy, size: nat, j: nat)
    requires Tiles(q, c, size) && j < |q|
    ensures PartOf(q[j], c)
  {
  }

  /** Neither item is read or written where the other is written. */
  predicate Clear(a: Copy, b: Copy) {
    && Disjoint(a.dst, a.len, b.dst, b.len)
    && Disjoint(a.src, a.len, b.dst, b.len) && Disjoint(b.src, b.len, a.dst, a.len)
  }

  lemma ItemsApart(batch: seq<Copy>, m: nat, n: nat, a: Copy, b: Copy)
    requires Apart(batch) && m < n < |batch| && PartOf(a, batch[m]) && PartOf(b, batch[n])
    ensures Clear(a, b)
  {
    assert Disjoint(batch[m].src, batch[m].len, batch[n].dst, batch[n].len);
    assert Disjoint(batch[n].src, batch[n].len, batch[m].dst, batch[m].len);
  }

  lemma ApartJoin(p: seq<Copy>, q: seq<Copy>)
    requires Apart(p) && Apart(q)
    requires forall i, j :: 0 <= i < |p| && 0 <= j < |q| ==> Clear(p[i], q[j])
    ensures Apart(p + q)
  {
  }

  // ---------------------------------------------------------------- memory over runs

  lemma {:induction false} RunHolds<B>(job: Job, r: Run<B>, n: nat)
    requires IsRun(job, r) && n < |r.states| && Apart(job.requests)
    ensures Holds(job.requests, r.states[n].moved, r.states[0].mem, r.states[n].mem)
  {
    hide Apart, Holds, Next;
    if n == 0 {
      NothingHolds(job.requests, r.states[0].mem);
    } else {
      RunHolds(job, r, n - 1);
      StepHolds(job, r.states[0].mem, r.states[n - 1], r.steps[n - 1], r.states[n]);
    }
  }

  lemma NothingHolds<B>(q: seq<Copy>, mem: nat -> B)
    ensures Holds(q, {}, mem, mem)
  {
  }

  lemma StepHolds<B>(job: Job, mem: nat -> B, s: State<B>, l: Step, t: State<B>)
    requires Apart(job.requests) && Holds(job.requests, s.moved, mem, s.mem) && Next(job, s, l, t)
    ensures Holds(job.requests, t.moved, mem, t.mem)
  {
    hide Apart, Holds, Transferred;
    if l.Transfer? { HoldsStep(job.requests, s.moved, mem, s.mem, l.k); }
  }

  /** Every byte of every item is what its source was at the start. */
  ghost predicate InMemory<B>(batch: seq<Copy>, mem: nat -> B, now: nat -> B) {
    forall i, x: nat :: 0 <= i < |batch| && Covers(batch[i], x) ==> now(x) == mem(batch[i].src + (x - batch[i].dst))
  }

  /** Doing the request would change nothing. */
  ghost predicate AlreadyThere<B>(c: Copy, mem: nat -> B) {
    forall x: nat :: Covers(c, x) ==> mem(x) == mem(c.src + (x - c.dst))
  }

  lemma HoldsThere<B>(q: seq<Copy>, done: set<nat>, mem: nat -> B, now: nat -> B, k: nat, x: nat)
    requires Holds(q, done, mem, now) && k in done && k < |q| && Covers(q[k], x)
    ensures now(x) == mem(q[k].src + (x - q[k].dst))
  {
    assert HoldsAt(q, done, mem, now, x);
  }

  lemma HoldsElsewhere<B>(q: seq<Copy>, done: set<nat>, mem: nat -> B, now: nat -> B, x: nat)
    requires Holds(q, done, mem, now) && forall k :: k in done && k < |q| ==> !Covers(q[k], x)
    ensures now(x) == mem(x)
  {
    assert HoldsAt(q, done, mem, now, x);
  }

  /** What a request that has not been done covers is as it was. */
  lemma NotDone<B>(q: seq<Copy>, done: set<nat>, mem: nat -> B, now: nat -> B, k: nat, x: nat)
    requires Apart(q) && Holds(q, done, mem, now) && k !in done && k < |q| && Covers(q[k], x)
    ensures now(x) == mem(x)
  {
    hide Apart, Holds;
    forall j | j in done && j < |q| ensures !Covers(q[j], x) { NotBoth(q, k, j, x); }
    HoldsElsewhere(q, done, mem, now, x);
  }

  /** At any time, the batch is in memory exactly when every request has been done or would change nothing. */
  lemma InMemoryExactly<B>(batch: seq<Copy>, size: nat, r: Run<B>, n: nat)
    requires size > 0 && Apart(batch) && IsRun(JobOf(batch, size), r) && n < |r.states|
    ensures var q, s, mem := SplitAll(batch, size), r.states[n], r.states[0].mem;
            InMemory(batch, mem, s.mem) <==> forall k: nat :: k < |q| ==> k in s.moved || AlreadyThere(q[k], mem)
  {
    hide Apart, IsRun, SplitAll, Holds, AlreadyThere, InMemory;
    var q, s, mem := SplitAll(batch, size), r.states[n], r.states[0].mem;
    RequestsApart(batch, size);
    RunHolds(JobOf(batch, size), r, n);
    if InMemory(batch, mem, s.mem) {
      forall k: nat | k < |q| ensures k in s.moved || AlreadyThere(q[k], mem)
      {
        if k !in s.moved { MustBeThere(batch, size, s.moved, mem, s.mem, k); }
      }
    }
    if forall k: nat :: k < |q| ==> k in s.moved || AlreadyThere(q[k], mem) {
      AllThere(batch, size, s.moved, mem, s.mem);
    }
  }

  lemma MustBeThere<B>(batch: seq<Copy>, size: nat, done: set<nat>, mem: nat -> B, now: nat -> B, k: nat)
    requires size > 0 && InMemory(batch, mem, now) && k !in done && k < |SplitAll(batch, size)|
    requires Apart(SplitAll(batch, size)) && Holds(SplitAll(batch, size), done, mem, now)
    ensures AlreadyThere(SplitAll(batch, size)[k], mem)
  {
    hide Apart, SplitAll, Holds;
    var q := SplitAll(batch, size);
    forall x: nat | Covers(q[k], x) ensures mem(x) == mem(q[k].src + (x - q[k].dst))
    {
      NotDone(q, done, mem, now, k, x);
      var i := HasItem(batch, size, k);
      assert Covers(batch[i], x);
    }
  }

  lemma AllThere<B>(batch: seq<Copy>, size: nat, done: set<nat>, mem: nat -> B, now: nat -> B)
    requires size > 0 && Apart(SplitAll(batch, size)) && Holds(SplitAll(batch, size), done, mem, now)
    requires forall k: nat :: k < |SplitAll(batch, size)| ==> k in done || AlreadyThere(SplitAll(batch, size)[k], mem)
    ensures InMemory(batch, mem, now)
  {
    hide Apart, SplitAll, Holds;
    var q := SplitAll(batch, size);
    forall i, x: nat | 0 <= i < |batch| && Covers(batch[i], x)
      ensures now(x) == mem(batch[i].src + (x - batch[i].dst))
    {
      var k := HasRequest(batch, size, i, x);
      if k in done { HoldsThere(q, done, mem, now, k, x); } else { NotDone(q, done, mem, now, k, x); }
    }
  }

  /** Whatever the order of the transfers and callbacks, when the submitter is released, and when it returns after that,
      the memory is what copying each item in one go makes of it. */
  lemma Delivered<B>(batch: seq<Copy>, size: nat, r: Run<B>, n: nat)
    requires size > 0 && Apart(batch) && IsRun(JobOf(batch, size), r) && n < |r.states|
    requires WaitedOut(r.states[n].phase)
    ensures InMemory(batch, r.states[0].mem, r.states[n].mem)
    ensures forall x: nat :: (forall i :: 0 <= i < |batch| ==> !Covers(batch[i], x)) ==>
              r.states[n].mem(x) == r.states[0].mem(x)
  {
    hide Apart, IsRun, SplitAll, Holds, AlreadyThere, InMemory, WaitedOut;
    var q, s, mem := SplitAll(batch, size), r.states[n], r.states[0].mem;
    ReleasedComplete(batch, size, r, n);
    InMemoryExactly(batch, size, r, n);
    RequestsApart(batch, size);
    RunHolds(JobOf(batch, size), r, n);
    forall x: nat | forall i :: 0 <= i < |batch| ==> !Covers(batch[i], x) ensures s.mem(x) == mem(x)
    {
      forall k | k in s.moved && k < |q| ensures !Covers(q[k], x)
      {
        var i := HasItem(batch, size, k);
      }
      HoldsElsewhere(q, s.moved, mem, s.mem, x);
    }
  }

  /** What the submitter returns is the length of the whole batch, that of its requests together, early or not; what it
      says has been copied is in memory exactly when every request has been done by then or would change nothing. */
  lemma ReportExact<B>(batch: seq<Copy>, size: nat, r: Run<B>, n: nat)
    requires size > 0 && Apart(batch) && IsRun(JobOf(batch, size), r) && n < |r.states| && r.states[n].phase.Returned?
    ensures var q, s, mem := SplitAll(batch, size), r.states[n], r.states[0].mem;
            && s.phase.copied == TotalLength(batch) == TotalLength(q)
            && (InMemory(batch, mem, s.mem) <==> forall k: nat :: k < |q| ==> k in s.moved || AlreadyThere(q[k], mem))
            && (!s.phase.early ==> InMemory(batch, mem, s.mem))
  {
    hide Apart, IsRun, SplitAll, InMemory, AlreadyThere, TotalLength;
    RequestsLength(batch, size);
    RunCounted(JobOf(batch, size), r, n);
    InMemoryExactly(batch, size, r, n);
    if !r.states[n].phase.early { Delivered(batch, size, r, n); }
  }

  // ---------------------------------------------------------------- a wait that ends early

  ghost function Last<B>(r: Run<B>): State<B>
    requires |r.states| > 0
  {
    r.states[|r.states| - 1]
  }

  lemma {:induction false} SubmitAll<B>(job: Job, mem: nat -> B, n: nat) returns (r: Run<B>)
    requires n <= |job.requests|
    ensures |r.states| > 0 && IsRun(job, r) && Last(r) == State(n, {}, {}, 0, Submitting, mem)
    ensures r.states[0].mem == mem
  {
    if n == 0 {
      r := Run([State(0, {}, {}, 0, Submitting, mem)], []);
    } else {
      r := SubmitAll(job, mem, n - 1);
      r := Run(r.states + [State(n, {}, {}, 0, Submitting, mem)], r.steps + [Submit]);
    }
  }

  /** For every batch and every memory: a signal during the wait can make the submitter report everything as copied when
      nothing is. */
  lemma InterruptedEarly<B>(batch: seq<Copy>, size: nat, mem: nat -> B) returns (r: Run<B>)
    requires size > 0
    ensures |r.states| > 0 && IsRun(JobOf(batch, size), r) && r.states[0].mem == mem
    ensures Last(r).phase == Returned(TotalLength(batch), true) && Last(r).moved == {} && Last(r).mem == mem
    ensures InMemory(batch, mem, Last(r).mem) <==> forall i :: 0 <= i < |batch| ==> AlreadyThere(batch[i], mem)
  {
    hide SplitAll, TotalLength;
    var job := JobOf(batch, size);
    r := SubmitAll(job, mem, |job.requests|);
    var s := Last(r);
    r := Run(r.states + [s.(phase := Waiting)], r.steps + [Wait]);
    r := Run(r.states + [s.(phase := Interrupted)], r.steps + [Interrupt]);
    r := Run(r.states + [s.(phase := Returned(job.length, true))], r.steps + [Return]);
  }
}
