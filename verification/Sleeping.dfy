/**
 What `Dispatcher` does not do needlessly, and what it does exactly: a worker sleeps when it has had nothing to do for
 long enough, is woken only for an event, and runs what it has received once or twice before it receives again.
 */
module Sleeping {
  import opened Dispatcher
  import opened Waiting

  // ---------------------------------------------------------------- woken only for an event

  /** From state `m` to state `k` the waker is at entry `i`. */
  ghost predicate Stays(r: Run, i: nat, m: nat, k: nat)
    requires k < |r.states|
  {
    forall x :: m <= x <= k ==> r.states[x].pos == i
  }

  /** At step `m` the waker, at entry `i`, reads state 0 ... */
  ghost predicate ReadsAsleep(r: Run, i: nat, m: nat)
    requires m < |r.steps| < |r.states|
  {
    var s := r.states[m];
    r.steps[m].Scan? && s.pos == i && s.waker.ReadState? && i < |s.workers| && s.workers[i].state == 0
  }

  /** ... or an event. */
  ghost predicate ReadsEvent(r: Run, i: nat, m: nat)
    requires m < |r.steps| < |r.states|
  {
    var s := r.states[m];
    r.steps[m].Scan? && s.pos == i && s.waker.ReadCom? && i < |s.com| && s.com[i] != {}
  }

  /** The waker is where it is because of what it has read there. */
  ghost predicate HasRead(r: Run, k: nat)
    requires k < |r.states| == |r.steps| + 1
  {
    var i := r.states[k].pos;
    match r.states[k].waker
    case ReadState => true
    case ReadCom => exists m :: 0 <= m < k && ReadsAsleep(r, i, m) && Stays(r, i, m, k)
    case Kill => exists m, n :: 0 <= m < n < k && ReadsAsleep(r, i, m) && ReadsEvent(r, i, n) && Stays(r, i, m, k)
  }

  lemma OthersLeaveWaker(s: System, l: Step, t: System)
    requires Next(s, l, t) && !l.Scan?
    ensures t.pos == s.pos && t.waker == s.waker
  {
  }

  lemma {:induction false} WakerHasRead(r: Run, k: nat)
    requires IsRun(r) && k < |r.states|
    ensures HasRead(r, k)
  {
    if k > 0 {
      WakerHasRead(r, k - 1);
      HasReadStep(r, k - 1);
    }
  }

  lemma HasReadStep(r: Run, k: nat)
    requires IsRun(r) && k < |r.steps| && HasRead(r, k)
    ensures HasRead(r, k + 1)
  {
    hide WorkerNext;
    var s, l, t, i := r.states[k], r.steps[k], r.states[k + 1], r.states[k + 1].pos;
    if !l.Scan? { OthersLeaveWaker(s, l, t); }
    match t.waker
    case ReadState =>
    case ReadCom =>
      if l.Scan? {
        assert ReadsAsleep(r, i, k) && Stays(r, i, k, k + 1);
      } else {
        var m :| 0 <= m < k && ReadsAsleep(r, i, m) && Stays(r, i, m, k);
        assert Stays(r, i, m, k + 1);
      }
    case Kill =>
      if l.Scan? {
        var m :| 0 <= m < k && ReadsAsleep(r, i, m) && Stays(r, i, m, k);
        assert ReadsEvent(r, i, k) && Stays(r, i, m, k + 1);
      } else {
        var m, n :| 0 <= m < n < k && ReadsAsleep(r, i, m) && ReadsEvent(r, i, n) && Stays(r, i, m, k);
        assert Stays(r, i, m, k + 1);
      }
  }

  /** In every run: a worker leaves `pause` only by a signal of the waker, which has read state 0 at its entry, then an
      event, and has not left the entry since. */
  lemma WokenForEvent(r: Run, i: nat, k: nat)
    requires IsRun(r) && k < |r.steps| && i < |r.states[k].workers| && i < |r.states[k + 1].workers|
    requires r.states[k].workers[i].pc.Paused? && !r.states[k + 1].workers[i].pc.Paused?
    ensures r.steps[k].Scan? && r.states[k + 1].workers[i].pc.Waking?
    ensures exists m, n :: 0 <= m < n < k && ReadsAsleep(r, i, m) && ReadsEvent(r, i, n) && Stays(r, i, m, k)
  {
    hide ReadsAsleep, ReadsEvent, Stays;
    assert Next(r.states[k], r.steps[k], r.states[k + 1]);
    WakerHasRead(r, k);
  }

  // ---------------------------------------------------------------- asleep when there is nothing to do

  /** Own steps of a worker with nothing to do until it is in `pause`. */
  function ToPause(w: Worker): int {
    match w.pc
    case Receiving => NCYCLESLEEP - w.rounds + 3
    case Drowsy => 2
    case Dozing => 1
    case _ => 0
  }

  ghost predicate Idle(w: Worker) {
    w.temp == {} && (w.pc.Receiving? || w.pc.Drowsy? || w.pc.Dozing? || w.pc.Paused?)
  }

  lemma IdleStep(s: System, l: Step, t: System, i: nat)
    requires Inv(s) && Next(s, l, t) && i < |s.workers| && s.com[i] == {} && Idle(s.workers[i])
    requires !s.workers[i].pc.Paused?
    ensures i < |t.workers| && Idle(t.workers[i])
    ensures ToPause(t.workers[i]) == ToPause(s.workers[i]) - if Own(l, i) then 1 else 0
  {
    assert WorkerOk(s.workers[i]);
  }

  /** From state `j` on worker `i` has nothing to do and no event is posted for it, and up to state `k` it has not been
      in `pause`. */
  ghost predicate NothingToDo(r: Run, i: nat, j: nat, k: nat)
    requires j <= k < |r.states|
  {
    && i < |r.states[j].workers| && r.states[j].workers[i].pc.Receiving? && r.states[j].workers[i].temp == {}
    && (forall m :: j <= m < k ==> i < |r.states[m].com| && r.states[m].com[i] == {})
    && (forall m :: j <= m < k ==> i < |r.states[m].workers| && !r.states[m].workers[i].pc.Paused?)
  }

  lemma {:induction false} IdleSince(r: Run, i: nat, j: nat, k: nat)
    requires IsRun(r) && j <= k < |r.states| && NothingToDo(r, i, j, k)
    ensures i < |r.states[k].workers| && Idle(r.states[k].workers[i])
    ensures ToPause(r.states[k].workers[i]) + Count(r.steps, OwnBy(i), j, k) == ToPause(r.states[j].workers[i])
    decreases k - j
  {
    hide Next, Init, WorkerOk, Count, ToPause;
    if j == k {
      CountNone(r.steps, OwnBy(i), j);
    } else {
      IdleSince(r, i, j, k - 1);
      RunInv(r, k - 1);
      assert r.states[k - 1].com[i] == {};
      IdleStep(r.states[k - 1], r.steps[k - 1], r.states[k], i);
      CountMore(r.steps, OwnBy(i), j, k);
    }
  }

  /** In every run: a worker that is at `rcv` with nothing to do, and for which no event is posted, is in `pause` after
      exactly 100003 of its own steps, less the rounds without an event it has counted. */
  lemma SleepsWhenIdle(r: Run, i: nat, j: nat, k: nat)
    requires IsRun(r) && j <= k < |r.states| && NothingToDo(r, i, j, k)
    ensures i < |r.states[k].workers|
    ensures var own := |set m: nat | j <= m < k && !r.steps[m].Post? && !r.steps[m].Scan? && r.steps[m].i == i|;
            var most := 100003 - r.states[j].workers[i].rounds;
            own <= most && (r.states[k].workers[i].pc.Paused? <==> own == most)
  {
    assert (set m: nat | j <= m < k && !r.steps[m].Post? && !r.steps[m].Scan? && r.steps[m].i == i) ==
           Which(r.steps, OwnBy(i), j, k);
    IdleSince(r, i, j, k);
    RunInv(r, k);
    assert WorkerOk(r.states[k].workers[i]);
  }

  // ---------------------------------------------------------------- after how many empty rounds

  /** At step `m` worker `i` finds nothing to do. */
  ghost predicate FindsNothing(r: Run, i: nat, m: nat)
    requires m < |r.steps| < |r.states|
  {
    var s := r.states[m];
    r.steps[m] == Receive(i) && i < |s.workers| && i < |s.com| && s.workers[i].temp == {} && s.com[i] == {}
  }

  ghost function EmptyRounds(r: Run, i: nat, j: nat, k: nat): set<nat>
    requires j <= k < |r.states| == |r.steps| + 1
  {
    set m: nat | j <= m < k && FindsNothing(r, i, m)
  }

  /** Worker `i` has been started or woken at state `j`, and up to state `k` it has not made up its mind to sleep. */
  ghost predicate UpSince(r: Run, i: nat, j: nat, k: nat)
    requires j <= k < |r.states| == |r.steps| + 1
  {
    && i < |r.states[j].workers| && (j == 0 || r.steps[j - 1] == Wake(i))
    && forall m :: j <= m < k ==> i < |r.states[m].workers| && !r.states[m].workers[i].pc.Drowsy?
  }

  lemma RoundsReset(s: System, t: System, i: nat)
    requires Inv(s) && Next(s, Wake(i), t)
    ensures i < |t.workers| && t.workers[i].rounds == 0 && !t.workers[i].pc.Drowsy?
  {
    assert WorkerOk(s.workers[i]);
  }

  lemma RoundStep(r: Run, i: nat, k: nat)
    requires IsRun(r) && k < |r.steps| && i < |r.states[k].workers| && !r.states[k].workers[i].pc.Drowsy?
    requires Inv(r.states[k])
    ensures i < |r.states[k + 1].workers|
    ensures var w, v := r.states[k].workers[i], r.states[k + 1].workers[i];
            if !FindsNothing(r, i, k) then v.rounds == w.rounds && !v.pc.Drowsy?
            else if w.rounds < 100000 then v.rounds == w.rounds + 1 && !v.pc.Drowsy?
            else w.rounds == 100000 && v.pc.Drowsy?
  {
    assert Next(r.states[k], r.steps[k], r.states[k + 1]) && WorkerOk(r.states[k].workers[i]);
  }

  lemma {:induction false} RoundsCounted(r: Run, i: nat, j: nat, k: nat)
    requires IsRun(r) && j <= k < |r.states| && UpSince(r, i, j, k)
    ensures i < |r.states[k].workers|
    ensures var w := r.states[k].workers[i];
            var n := |EmptyRounds(r, i, j, k)|;
            if w.pc.Drowsy? then n == 100001 else n == w.rounds <= 100000
    decreases k - j
  {
    hide Next, Init, WorkerOk, FindsNothing;
    RunInv(r, k);
    if j == k {
      assert EmptyRounds(r, i, j, k) == {};
      if j == 0 {
        AtStart(r.states[0], i);
      } else {
        RunInv(r, j - 1);
        RoundsReset(r.states[j - 1], r.states[j], i);
      }
    } else {
      RoundsCounted(r, i, j, k - 1);
      RunInv(r, k - 1);
      assert !r.states[k - 1].workers[i].pc.Drowsy?;
      RoundStep(r, i, k - 1);
      var before, now := EmptyRounds(r, i, j, k - 1), EmptyRounds(r, i, j, k);
      assert now == if FindsNothing(r, i, k - 1) then before + {k - 1} else before;
    }
  }

  lemma AtStart(s: System, i: nat)
    requires Init(s) && i < |s.workers|
    ensures s.workers[i].rounds == 0 && s.workers[i].pc.Receiving?
  {
  }

  /** In every run: whatever it runs in between, a worker makes up its mind to sleep exactly when it has found nothing
      to do for the 100001st time since it was started or last woken. */
  lemma SleepsAfterRounds(r: Run, i: nat, j: nat, k: nat)
    requires IsRun(r) && j <= k < |r.states| && UpSince(r, i, j, k)
    ensures i < |r.states[k].workers|
    ensures var empty := |set m: nat | j <= m < k && FindsNothing(r, i, m)|;
            empty <= 100001 && (r.states[k].workers[i].pc.Drowsy? <==> empty == 100001)
  {
    hide Next, Init, FindsNothing, UpSince;
    assert (set m: nat | j <= m < k && FindsNothing(r, i, m)) == EmptyRounds(r, i, j, k);
    RoundsCounted(r, i, j, k);
  }

  /** What can stand at an entry: any set of the 32 events of a word, and nothing else. */
  lemma PostedExactly(s: System, i: nat, events: set<nat>)
    requires Shaped(s) && i < |s.com|
    ensures (exists t :: Next(s, Post(i, events), t) && t.com[i] == events) <==> forall x :: x in events ==> x < 32
  {
    if forall x :: x in events ==> x < 32 {
      assert Next(s, Post(i, events), s.(com := s.com[i := events]));
    }
  }

  // ---------------------------------------------------------------- once or twice between two receives

  /** Event `b` of the last receive has been run `n` times since. */
  ghost predicate HasRun(w: Worker, b: nat, n: nat) {
    var now := if b in w.done || w.pc == Running(b) then 1 else 0;
    && (InPass(w) || w.pc.Receiving?)
    && (InPass(w) ==> (b in w.temp ==> b in w.pass) && (w.passes == 0 ==> b in w.pass))
    && (InPass(w) && w.passes == 0 ==> n == now)
    && (InPass(w) && w.passes != 0 ==> n == if b in w.pass then 1 + now else 1)
    && (w.pc.Receiving? ==> 1 <= n <= 2 && (b in w.temp ==> n == 2))
  }

  lemma HasRunStep(w: Worker, events: set<nat>, l: Step, v: Worker, b: nat, n: nat)
    requires WorkerOk(w) && WorkerNext(w, events, l, v) && !l.Receive? && HasRun(w, b, n)
    ensures HasRun(v, b, if l.Dispatch? && l.id == b then n + 1 else n)
  {
    match l
    case Dispatch(_, id) =>
    case Return(_, finished) => HasRunBack(w, finished, b, n);
    case _ =>
  }

  lemma HasRunBack(w: Worker, finished: bool, b: nat, n: nat)
    requires WorkerOk(w) && MayReturn(w, finished) && HasRun(w, b, n)
    ensures HasRun(ThreadBack(w, w.pc.id, finished), b, n)
  {
    var v := ThreadBack(w, w.pc.id, finished);
    if w.snap - {w.pc.id} == {} { assert w.snap == {w.pc.id}; }
  }

  lemma HasRunSystem(s: System, l: Step, t: System, i: nat, b: nat, n: nat)
    requires Inv(s) && Next(s, l, t) && i < |s.workers| && HasRun(s.workers[i], b, n) && l != Receive(i)
    ensures i < |t.workers| && HasRun(t.workers[i], b, if l == Dispatch(i, b) then n + 1 else n)
  {
    hide WorkerNext, WorkerOk, HasRun;
    match l
    case Post(_, _) =>
    case Scan => HasRunScan(s, i, b, n);
    case Receive(_) =>
    case _ => if l.i == i { HasRunStep(s.workers[i], s.com[i], l, t.workers[i], b, n); }
  }

  lemma HasRunScan(s: System, i: nat, b: nat, n: nat)
    requires Inv(s) && i < |s.workers| && HasRun(s.workers[i], b, n)
    ensures i < |ScanStep(s).workers| && HasRun(ScanStep(s).workers[i], b, n)
  {
  }

  lemma ReceivedHasRun(s: System, t: System, i: nat, b: nat)
    requires Next(s, Receive(i), t) && i < |t.workers| && b in t.workers[i].temp
    ensures HasRun(t.workers[i], b, 0)
  {
  }

  lemma {:induction false} RunSince(r: Run, i: nat, b: nat, j: nat, k: nat)
    requires IsRun(r) && j < k < |r.states| && r.steps[j] == Receive(i)
    requires i < |r.states[j + 1].workers| && b in r.states[j + 1].workers[i].temp
    requires forall m :: j < m < k ==> r.steps[m] != Receive(i)
    ensures i < |r.states[k].workers| && HasRun(r.states[k].workers[i], b, Count(r.steps, RunBy(i, b), j + 1, k))
  {
    hide Next, Init, HasRun, Count, WorkerOk;
    if k == j + 1 {
      CountNone(r.steps, RunBy(i, b), j + 1);
      ReceivedHasRun(r.states[j], r.states[k], i, b);
    } else {
      RunSince(r, i, b, j, k - 1);
      RunInv(r, k - 1);
      HasRunSystem(r.states[k - 1], r.steps[k - 1], r.states[k], i, b, Count(r.steps, RunBy(i, b), j + 1, k - 1));
      CountMore(r.steps, RunBy(i, b), j + 1, k);
    }
  }

  /** In every run: an event a worker has after a receive is run once or twice before the next one, and twice if the
      worker still has it then. */
  lemma RunOnceOrTwice(r: Run, i: nat, b: nat, j: nat, k: nat)
    requires IsRun(r) && j < k < |r.steps| && r.steps[j] == Receive(i) && r.steps[k] == Receive(i)
    requires forall m :: j < m < k ==> r.steps[m] != Receive(i)
    requires i < |r.states[j + 1].workers| && b in r.states[j + 1].workers[i].temp
    ensures i < |r.states[k].workers|
    ensures var runs := |set m: nat | j + 1 <= m < k && r.steps[m] == Dispatch(i, b)|;
            1 <= runs <= 2 && (b in r.states[k].workers[i].temp ==> runs == 2)
  {
    assert (set m: nat | j + 1 <= m < k && r.steps[m] == Dispatch(i, b)) ==
           Which(r.steps, RunBy(i, b), j + 1, k);
    RunSince(r, i, b, j, k);
    assert Next(r.states[k], r.steps[k], r.states[k + 1]);
  }

  // ---------------------------------------------------------------- which threads are not finished

  /** Thread `b` has been given control and has not finished since. */
  ghost predicate Begun(r: Run, i: nat, b: nat, k: nat)
    requires k < |r.states| == |r.steps| + 1
  {
    exists j :: 0 <= j < k && r.steps[j] == Dispatch(i, b) && NotFinished(r, i, b, j + 1, k)
  }

  lemma UnfinishedStep(s: System, l: Step, t: System, i: nat, b: nat)
    requires Inv(s) && Next(s, l, t) && i < |s.workers|
    ensures i < |t.workers|
    ensures b in t.workers[i].unfinished <==>
            l == Dispatch(i, b) || (b in s.workers[i].unfinished && !Finishes(s, l, i, b))
  {
    KeepsWorkers(s, l, t);
  }

  /** In every run: the threads in state 1 are exactly those that have been given control and not finished since. */
  lemma {:induction false} UnfinishedExactly(r: Run, i: nat, b: nat, k: nat)
    requires IsRun(r) && k < |r.states| && i < |r.states[k].workers|
    ensures b in r.states[k].workers[i].unfinished <==> Begun(r, i, b, k)
  {
    hide Next, Inv, Finishes;
    if k > 0 {
      RunInv(r, k - 1);
      RunInv(r, k);
      UnfinishedExactly(r, i, b, k - 1);
      UnfinishedStep(r.states[k - 1], r.steps[k - 1], r.states[k], i, b);
      BegunStep(r, i, b, k - 1);
    }
  }

  lemma BegunStep(r: Run, i: nat, b: nat, k: nat)
    requires IsRun(r) && k < |r.steps|
    ensures Begun(r, i, b, k + 1) <==>
            r.steps[k] == Dispatch(i, b) || (Begun(r, i, b, k) && !Finishes(r.states[k], r.steps[k], i, b))
  {
    hide Next, Finishes, Init;
    if r.steps[k] == Dispatch(i, b) {
      assert NotFinished(r, i, b, k + 1, k + 1);
    } else if Begun(r, i, b, k) && !Finishes(r.states[k], r.steps[k], i, b) {
      var j :| 0 <= j < k && r.steps[j] == Dispatch(i, b) && NotFinished(r, i, b, j + 1, k);
      assert NotFinished(r, i, b, j + 1, k + 1);
    }
    if Begun(r, i, b, k + 1) && r.steps[k] != Dispatch(i, b) {
      var j :| 0 <= j < k + 1 && r.steps[j] == Dispatch(i, b) && NotFinished(r, i, b, j + 1, k + 1);
      assert NotFinished(r, i, b, j + 1, k);
    }
  }

  /** A thread may give up control unfinished exactly when its worker has another event. */
  lemma YieldsToOthers(s: System, i: nat, b: nat)
    requires Shaped(s) && i < |s.workers| && s.workers[i].pc == Running(b)
    ensures (exists t :: Next(s, Return(i, false), t)) <==> exists x :: x in s.workers[i].temp && x != b
  {
    var w := s.workers[i];
    if x :| x in w.temp && x != b {
      assert x in w.temp - {b};
      assert Next(s, Return(i, false), Put(s, i, ThreadBack(w, b, false)));
    } else {
      assert w.temp - {b} == {};
    }
  }
}
