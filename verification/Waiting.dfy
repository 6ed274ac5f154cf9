/**
 How long an event waits in `Dispatcher`: a sleeping worker is woken in a bounded number of the waker's steps, and a
 posted event is run in a bounded number of dispatches.
 */
module Waiting {
  import opened Dispatcher

  // ---------------------------------------------------------------- no lost wake-up

  /** Worker `i` is in `pause` with an event posted. */
  ghost predicate Stranded(s: System, i: nat) {
    i < |s.workers| && i < |s.com| && s.workers[i].pc.Paused? && s.com[i] != {}
  }

  /** The waker cannot get past the entry of a worker that stays in `pause` with an event posted. */
  lemma CannotPass(s: System, l: Step, t: System, i: nat)
    requires Inv(s) && Next(s, l, t) && Stranded(s, i) && Stranded(t, i) && s.pos == i
    ensures t.pos == i && (l.Scan? ==> !t.waker.ReadState?)
  {
    assert WorkerOk(s.workers[i]);
  }

  /** Entries the waker has to leave behind before it is at entry `i`. */
  function Away(s: System, i: nat): nat
    requires s.pos < |s.workers| && i < |s.workers|
  {
    if s.pos <= i then i - s.pos else i + |s.workers| - s.pos
  }

  /** Steps of the waker until it signals worker `i`, at most. */
  function ToSignal(s: System, i: nat): nat
    requires s.pos < |s.workers| && i < |s.workers|
  {
    3 * Away(s, i) + match s.waker case ReadState => 3 case ReadCom => 2 case Kill => 1
  }

  /** Each step of the waker brings the signal nearer; no other step puts it off. */
  lemma SignalNearer(s: System, l: Step, t: System, i: nat)
    requires Inv(s) && Next(s, l, t) && Stranded(s, i) && Stranded(t, i)
    ensures t.pos < |t.workers| && i < |t.workers|
    ensures ToSignal(t, i) <= ToSignal(s, i) - if l.Scan? then 1 else 0
  {
    assert WorkerOk(s.workers[i]);
  }

  /** Steps to be counted: of the waker; dispatches of a worker; dispatches of one of its events; its own steps. */
  datatype Kind = ByWaker | DispatchBy(i: nat) | RunBy(i: nat, id: nat) | OwnBy(i: nat)

  predicate Of(l: Step, kind: Kind) {
    match kind
    case ByWaker => l.Scan?
    case DispatchBy(i) => l.Dispatch? && l.i == i
    case RunBy(i, id) => l == Dispatch(i, id)
    case OwnBy(i) => Own(l, i)
  }

  ghost function Which(steps: seq<Step>, kind: Kind, j: nat, k: nat): set<nat>
    requires j <= k <= |steps|
  {
    set m: nat | j <= m < k && Of(steps[m], kind)
  }

  /** How many there are from `j` to `k`. */
  ghost function Count(steps: seq<Step>, kind: Kind, j: nat, k: nat): nat
    requires j <= k <= |steps|
  {
    |Which(steps, kind, j, k)|
  }

  lemma CountNone(steps: seq<Step>, kind: Kind, j: nat)
    requires j <= |steps|
    ensures Count(steps, kind, j, j) == 0
  {
    assert Which(steps, kind, j, j) == {};
  }

  lemma CountMore(steps: seq<Step>, kind: Kind, j: nat, k: nat)
    requires j < k <= |steps|
    ensures Count(steps, kind, j, k) == Count(steps, kind, j, k - 1) + if Of(steps[k - 1], kind) then 1 else 0
  {
    assert Which(steps, kind, j, k) == Which(steps, kind, j, k - 1) + if Of(steps[k - 1], kind) then {k - 1} else {};
  }

  ghost predicate StrandedAlong(r: Run, i: nat, j: nat, k: nat)
    requires j <= k < |r.states|
  {
    forall m :: j <= m <= k ==> Stranded(r.states[m], i)
  }

  lemma {:induction false} SignalComes(r: Run, i: nat, j: nat, k: nat)
    requires IsRun(r) && j <= k < |r.states| && StrandedAlong(r, i, j, k)
    ensures r.states[k].pos < |r.states[k].workers| && i < |r.states[k].workers|
    ensures r.states[j].pos < |r.states[j].workers| && i < |r.states[j].workers|
    ensures ToSignal(r.states[k], i) + Count(r.steps, ByWaker, j, k) <= ToSignal(r.states[j], i)
    decreases k - j
  {
    hide Inv, Next, Init, ToSignal, Count;
    RunInv(r, k);
    assert Stranded(r.states[j], i) && Stranded(r.states[k], i);
    InRange(r.states[k]);
    RunInv(r, j);
    InRange(r.states[j]);
    if j < k {
      SignalComes(r, i, j, k - 1);
      RunInv(r, k - 1);
      SignalNearer(r.states[k - 1], r.steps[k - 1], r.states[k], i);
      CountMore(r.steps, ByWaker, j, k);
    } else {
      CountNone(r.steps, ByWaker, j);
    }
  }

  lemma InRange(s: System)
    requires Inv(s)
    ensures s.pos < |s.workers|
  {
  }

  /** No wake-up is lost: with M workers on the watch list, a worker in `pause` with an event posted does not stay so
      over 3M steps of the waker. */
  lemma NoLostWakeUp(r: Run, i: nat, j: nat, k: nat)
    requires IsRun(r) && j <= k < |r.states| && StrandedAlong(r, i, j, k)
    ensures |set m: nat | j <= m < k && r.steps[m].Scan?| < 3 * |r.states[0].workers|
  {
    assert (set m: nat | j <= m < k && r.steps[m].Scan?) ==
           Which(r.steps, ByWaker, j, k);
    SignalComes(r, i, j, k);
    RunInv(r, j);
  }

  /** The scan has to go round: a signal that comes before the `pause` it is meant to end is lost. */
  lemma EarlySignalLost(s: System, i: nat)
    requires Inv(s) && i < |s.workers| && s.pos == i && s.waker.Kill? && s.workers[i].pc.Dozing?
    ensures var t := ScanStep(s);
            var u := Put(t, i, t.workers[i].(pc := Paused));
            Next(s, Scan, t) && Next(t, Pause(i), u) && (s.com[i] != {} ==> Stranded(u, i))
  {
  }

  // ---------------------------------------------------------------- bounded waiting

  /** Threads the pass has still to give control to. */
  function Left(w: Worker): int {
    if w.pc.Running? then |w.snap| - 1 else |w.snap|
  }

  predicate InPass(w: Worker) {
    w.pc.Dispatching? || w.pc.Running?
  }

  /** Event `b` is still to be run in this pass. */
  predicate Due(w: Worker, b: nat) {
    InPass(w) && b in w.snap && w.pc != Running(b)
  }

  /** Event `b` will be in the pass after this one, at the latest after the next. */
  predicate NextTime(w: Worker, b: nat) {
    w.passes != 0 || (b in w.temp && w.pc != Running(b))
  }

  /** Dispatches until event `b` is run, its own included, at most. */
  function ToRun(w: Worker, b: nat): int {
    if Due(w, b) then Left(w)
    else if InPass(w) then Left(w) + if NextTime(w, b) then MAX_UTHREADS else 2 * MAX_UTHREADS - 1
    else MAX_UTHREADS
  }

  lemma {:induction false} Bounded(s: set<nat>, n: nat)
    requires forall x :: x in s ==> x < n
    ensures |s| <= n
  {
    if n == 0 {
      assert s == {};
    } else {
      Bounded(s - {n - 1}, n - 1);
    }
  }

  lemma FewEvents(w: Worker, b: nat)
    requires WorkerOk(w) && b < MAX_UTHREADS
    ensures |w.temp| <= MAX_UTHREADS && (b !in w.temp ==> |w.temp| < MAX_UTHREADS)
    ensures InPass(w) ==> |w.snap| <= |w.temp| && 1 <= |w.snap|
  {
    Bounded(w.temp, MAX_UTHREADS);
    if b !in w.temp { Bounded(w.temp + {b}, MAX_UTHREADS); }
    if InPass(w) { Smaller(w.snap, w.temp); }
  }

  lemma {:induction false} Smaller(s: set<nat>, t: set<nat>)
    requires s <= t
    ensures |s| <= |t|
  {
    assert t == s + (t - s);
  }

  lemma ToRunBounds(w: Worker, b: nat)
    requires WorkerOk(w) && b < MAX_UTHREADS
    ensures 1 <= ToRun(w, b) <= 3 * MAX_UTHREADS - 2
  {
    FewEvents(w, b);
    if Due(w, b) && w.pc.Running? { Smaller({w.pc.id, b}, w.snap); }
    if InPass(w) && b in w.temp && b !in w.snap {
      assert w.snap <= w.temp - {b};
      Smaller(w.snap, w.temp - {b});
    }
  }

  /** Each dispatch brings the run of `b` nearer; no other step puts it off. */
  lemma RunNearer(w: Worker, events: set<nat>, l: Step, v: Worker, b: nat)
    requires WorkerOk(w) && WorkerNext(w, events, l, v) && b in events && b < MAX_UTHREADS
    requires WorkerOk(v) && !(l.Dispatch? && l.id == b)
    ensures ToRun(v, b) <= ToRun(w, b) - if l.Dispatch? then 1 else 0
  {
    FewEvents(v, b);
    if l.Return? { ReturnNoFarther(w, l.finished, b); }
  }

  lemma ReturnNoFarther(w: Worker, finished: bool, b: nat)
    requires WorkerOk(w) && MayReturn(w, finished) && b < MAX_UTHREADS
    ensures ToRun(ThreadBack(w, w.pc.id, finished), b) <= ToRun(w, b)
  {
    var v := ThreadBack(w, w.pc.id, finished);
    ThreadBackOk(w, finished);
    FewEvents(v, b);
    if w.snap - {w.pc.id} == {} { assert w.snap == {w.pc.id}; }
  }

  /** Event `b` of worker `i` is posted from state `j` to state `k`, and is not run. */
  ghost predicate Waits(r: Run, i: nat, b: nat, j: nat, k: nat)
    requires j <= k < |r.states| && |r.states| == |r.steps| + 1
  {
    && (forall m :: j <= m <= k ==> i < |r.states[m].com| && b in r.states[m].com[i])
    && (forall m :: j <= m < k ==> r.steps[m] != Dispatch(i, b))
  }

  lemma SystemNearer(s: System, l: Step, t: System, i: nat, b: nat)
    requires Inv(s) && Next(s, l, t) && Inv(t) && i < |s.com| && b in s.com[i] && l != Dispatch(i, b)
    ensures i < |s.workers| && i < |t.workers| && b < MAX_UTHREADS
    ensures ToRun(t.workers[i], b) <= ToRun(s.workers[i], b) - if l.Dispatch? && l.i == i then 1 else 0
  {
    hide WorkerNext, ToRun, WorkerOk;
    match l
    case Post(_, _) =>
    case Scan => ScanNoFarther(s, i, b);
    case _ => if l.i == i { RunNearer(s.workers[i], s.com[i], l, t.workers[i], b); }
  }

  lemma ScanNoFarther(s: System, i: nat, b: nat)
    requires Inv(s) && i < |s.workers|
    ensures i < |ScanStep(s).workers| && ToRun(ScanStep(s).workers[i], b) == ToRun(s.workers[i], b)
  {
  }

  lemma {:induction false} RunComes(r: Run, i: nat, b: nat, j: nat, k: nat)
    requires IsRun(r) && j <= k < |r.states| && Waits(r, i, b, j, k)
    ensures i < |r.states[j].workers| && i < |r.states[k].workers|
    ensures ToRun(r.states[k].workers[i], b) + Count(r.steps, DispatchBy(i), j, k) <= ToRun(r.states[j].workers[i], b)
    decreases k - j
  {
    hide Next, Init, ToRun, WorkerOk, Count;
    RunInv(r, k);
    RunInv(r, j);
    assert i < |r.states[j].com| && i < |r.states[k].com|;
    if j < k {
      RunComes(r, i, b, j, k - 1);
      RunInv(r, k - 1);
      assert b in r.states[k - 1].com[i] && r.steps[k - 1] != Dispatch(i, b);
      SystemNearer(r.states[k - 1], r.steps[k - 1], r.states[k], i, b);
      CountMore(r.steps, DispatchBy(i), j, k);
    } else {
      CountNone(r.steps, DispatchBy(i), j);
    }
  }

  /** No event starves: one that stays posted is run within 3N - 2 dispatches of its worker, N being the number of
      user threads. */
  lemma BoundedWaiting(r: Run, i: nat, b: nat, j: nat, k: nat)
    requires IsRun(r) && j <= k < |r.states| && Waits(r, i, b, j, k)
    ensures |set m: nat | j <= m < k && r.steps[m].Dispatch? && r.steps[m].i == i| < 3 * 32 - 2
  {
    hide Next, Init, ToRun, WorkerOk;
    assert (set m: nat | j <= m < k && r.steps[m].Dispatch? && r.steps[m].i == i) ==
           Which(r.steps, DispatchBy(i), j, k);
    RunComes(r, i, b, j, k);
    RunInv(r, j);
    RunInv(r, k);
    assert b in r.states[j].com[i];
    ToRunBounds(r.states[j].workers[i], b);
    ToRunBounds(r.states[k].workers[i], b);
  }

  // ---------------------------------------------------------------- progress

  /** Steps the worker has to take itself before it is back at `rcv`. */
  function ToReceive(w: Worker): nat {
    match w.pc
    case Drowsy => 3
    case Dozing => 2
    case Paused => 1
    case Waking => 1
    case _ => 0
  }

  /** Steps of the worker until event `b` is run, at most. */
  function ToRunSteps(w: Worker, b: nat): int {
    2 * ToRun(w, b) + (if w.pc.Running? then 1 else 0) + (if Due(w, b) then 0 else 1) + ToReceive(w)
  }

  lemma ToRunStepsBounds(w: Worker, b: nat)
    requires WorkerOk(w) && b < MAX_UTHREADS
    ensures 1 <= ToRunSteps(w, b) <= 6 * MAX_UTHREADS - 2
  {
    ToRunBounds(w, b);
    FewEvents(w, b);
  }

  /** Each step of the worker brings the run of `b` nearer. */
  lemma WorkerNearer(w: Worker, events: set<nat>, l: Step, v: Worker, b: nat)
    requires WorkerOk(w) && WorkerNext(w, events, l, v) && b in events && b < MAX_UTHREADS
    requires WorkerOk(v) && !(l.Dispatch? && l.id == b)
    ensures ToRunSteps(v, b) < ToRunSteps(w, b)
  {
    FewEvents(v, b);
    if l.Return? { ReturnNearer(w, l.finished, b); }
  }

  lemma ReturnNearer(w: Worker, finished: bool, b: nat)
    requires WorkerOk(w) && MayReturn(w, finished) && b < MAX_UTHREADS
    ensures ToRunSteps(ThreadBack(w, w.pc.id, finished), b) < ToRunSteps(w, b)
  {
    var v := ThreadBack(w, w.pc.id, finished);
    ThreadBackOk(w, finished);
    FewEvents(v, b);
    if w.snap - {w.pc.id} == {} { assert w.snap == {w.pc.id}; }
  }

  predicate Own(l: Step, i: nat) {
    !l.Post? && !l.Scan? && l.i == i
  }

  lemma SystemProgress(s: System, l: Step, t: System, i: nat, b: nat)
    requires Inv(s) && Next(s, l, t) && Inv(t) && i < |s.com| && b in s.com[i] && l != Dispatch(i, b)
    ensures i < |s.workers| && i < |t.workers| && b < MAX_UTHREADS
    ensures ToRunSteps(t.workers[i], b) <= ToRunSteps(s.workers[i], b) - if Own(l, i) then 1 else 0
  {
    hide WorkerNext, ToRunSteps, WorkerOk;
    match l
    case Post(_, _) =>
    case Scan => ScanProgress(s, i, b);
    case _ => if l.i == i { WorkerNearer(s.workers[i], s.com[i], l, t.workers[i], b); }
  }

  lemma ScanProgress(s: System, i: nat, b: nat)
    requires Inv(s) && i < |s.workers|
    ensures i < |ScanStep(s).workers| && ToRunSteps(ScanStep(s).workers[i], b) <= ToRunSteps(s.workers[i], b)
  {
  }

  lemma {:induction false} ProgressComes(r: Run, i: nat, b: nat, j: nat, k: nat)
    requires IsRun(r) && j <= k < |r.states| && Waits(r, i, b, j, k)
    ensures i < |r.states[j].workers| && i < |r.states[k].workers|
    ensures ToRunSteps(r.states[k].workers[i], b) + Count(r.steps, OwnBy(i), j, k) <=
            ToRunSteps(r.states[j].workers[i], b)
    decreases k - j
  {
    hide Next, Init, ToRunSteps, WorkerOk, Count;
    RunInv(r, k);
    RunInv(r, j);
    assert i < |r.states[j].com| && i < |r.states[k].com|;
    if j < k {
      ProgressComes(r, i, b, j, k - 1);
      RunInv(r, k - 1);
      assert b in r.states[k - 1].com[i] && r.steps[k - 1] != Dispatch(i, b);
      SystemProgress(r.states[k - 1], r.steps[k - 1], r.states[k], i, b);
      CountMore(r.steps, OwnBy(i), j, k);
    } else {
      CountNone(r.steps, OwnBy(i), j);
    }
  }

  /** An event that stays posted is run before its worker has taken 6N - 2 steps, whatever it was doing, asleep or
      in the middle of a pass. */
  lemma EventServed(r: Run, i: nat, b: nat, j: nat, k: nat)
    requires IsRun(r) && j <= k < |r.states| && Waits(r, i, b, j, k)
    ensures |set m: nat | j <= m < k && !r.steps[m].Post? && !r.steps[m].Scan? && r.steps[m].i == i| < 6 * 32 - 2
  {
    hide Next, Init, ToRunSteps, WorkerOk;
    assert (set m: nat | j <= m < k && !r.steps[m].Post? && !r.steps[m].Scan? && r.steps[m].i == i) ==
           Which(r.steps, OwnBy(i), j, k);
    ProgressComes(r, i, b, j, k);
    RunInv(r, j);
    RunInv(r, k);
    assert b in r.states[j].com[i];
    ToRunStepsBounds(r.states[j].workers[i], b);
    ToRunStepsBounds(r.states[k].workers[i], b);
  }

  lemma {:induction false} HasLowest(s: set<nat>, n: nat) returns (id: nat)
    requires n in s
    ensures Lowest(s, id)
    decreases n
  {
    if x :| x in s && x < n {
      id := HasLowest(s, x);
    } else {
      id := n;
    }
  }

  /** A worker that is not in `pause`, and whose running thread gives control back, can always take a step. */
  lemma NeverStuck(s: System, i: nat) returns (l: Step, t: System)
    requires Inv(s) && i < |s.workers| && !s.workers[i].pc.Paused?
    ensures Own(l, i) && Next(s, l, t)
  {
    var w := s.workers[i];
    assert WorkerOk(w);
    var v;
    match w.pc {
      case Receiving => l, v := Receive(i), Collect(w, s.com[i]);
      case Drowsy => l, v := Doze(i), w.(state := 0, pc := Dozing);
      case Dozing => l, v := Pause(i), w.(pc := Paused);
      case Waking => l, v := Wake(i), w.(state := 1, pc := Receiving);
      case Dispatching =>
        var x :| x in w.snap;
        var id := HasLowest(w.snap, x);
        l, v := Dispatch(i, id), RunThread(w, id);
      case Running(id) => l, v := Return(i, true), ThreadBack(w, id, true);
    }
    t := Put(s, i, v);
  }

  // ---------------------------------------------------------------- no spurious run

  /** Worker `i` has received event `b` and not finished with it since, at state `k`. */
  ghost predicate Pending(r: Run, i: nat, b: nat, k: nat)
    requires IsRun(r) && k < |r.states|
  {
    exists m :: 0 <= m < k && Received(r, i, b, m) && NotFinished(r, i, b, m + 1, k)
  }

  ghost predicate Received(r: Run, i: nat, b: nat, m: nat)
    requires m < |r.steps| < |r.states|
  {
    r.steps[m] == Receive(i) && i < |r.states[m].com| && b in r.states[m].com[i]
  }

  ghost predicate Finishes(s: System, l: Step, i: nat, b: nat) {
    l == Return(i, true) && i < |s.workers| && s.workers[i].pc == Running(b)
  }

  ghost predicate NotFinished(r: Run, i: nat, b: nat, j: nat, k: nat)
    requires k <= |r.steps| < |r.states|
  {
    forall m :: j <= m < k ==> !Finishes(r.states[m], r.steps[m], i, b)
  }

  /** An event of a worker was its event before, or is received; and it is not finished with. */
  lemma EventKept(s: System, l: Step, t: System, i: nat, b: nat)
    requires Inv(s) && Next(s, l, t) && i < |t.workers| && b in t.workers[i].temp
    ensures i < |s.workers| && i < |s.com|
    ensures (l == Receive(i) && b in s.com[i]) || (b in s.workers[i].temp && !Finishes(s, l, i, b))
  {
    KeepsWorkers(s, l, t);
  }

  lemma {:induction false} EventsPending(r: Run, i: nat, b: nat, k: nat)
    requires IsRun(r) && k < |r.states| && i < |r.states[k].workers| && b in r.states[k].workers[i].temp
    ensures Pending(r, i, b, k)
  {
    hide Next, Inv, Finishes;
    if k > 0 {
      RunInv(r, k - 1);
      EventKept(r.states[k - 1], r.steps[k - 1], r.states[k], i, b);
      if r.steps[k - 1] == Receive(i) && b in r.states[k - 1].com[i] {
        assert Received(r, i, b, k - 1) && NotFinished(r, i, b, k, k);
      } else {
        EventsPending(r, i, b, k - 1);
        var m :| 0 <= m < k - 1 && Received(r, i, b, m) && NotFinished(r, i, b, m + 1, k - 1);
        assert NotFinished(r, i, b, m + 1, k);
      }
    }
  }

  /** A user thread is run only for an event that has been received and not finished with since. */
  lemma NoSpuriousRun(r: Run, i: nat, b: nat, k: nat)
    requires IsRun(r) && k < |r.steps| && r.steps[k] == Dispatch(i, b)
    ensures Pending(r, i, b, k)
  {
    hide Pending;
    RunInv(r, k);
    assert WorkerOk(r.states[k].workers[i]);
    EventsPending(r, i, b, k);
  }
}
