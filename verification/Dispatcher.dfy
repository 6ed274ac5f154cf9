/**
 The workers' user-thread dispatchers and the process that wakes them, as a system of interleaved steps.

 A worker collects the events the kernel posts in its `com` word, runs the user thread of each, and goes to sleep
 after enough rounds without an event. One waker goes round the watch list for ever, and signals a worker whose
 state is 0 and whose `com` is not. A word of event bits is the set of the numbers of its bits.
 */
module Dispatcher {

  const MAX_UTHREADS: nat := 32
  const NCYCLESLEEP: nat := 100000

  /** Where a worker is. */
  datatype Pc =
    | Receiving         // at `rcv`
    | Drowsy            // before its state becomes 0
    | Dozing            // state 0, not yet paused
    | Paused            // in `pause`
    | Waking            // signalled, state still 0
    | Dispatching       // in a pass, between threads
    | Running(id: nat)  // thread `id` has control

  datatype Worker = Worker(
    pc: Pc,
    state: nat,                // shared with the waker
    temp: set<nat>,            // tempEvents of the vCPU
    snap: set<nat>,            // tempEvents of the pass: still to be run or running
    passes: nat,               // receiveOtherFaults
    rounds: nat,
    unfinished: set<nat>,      // user threads in state 1
    pass: set<nat>,            // auxiliary: what the pass began with ...
    done: seq<nat>             // ... and what it has run
  )

  datatype WakerPc = ReadState | ReadCom | Kill

  datatype System = System(
    workers: seq<Worker>,
    com: seq<set<nat>>,
    pos: nat,                  // entry of the watch list the waker is at
    waker: WakerPc
  )

  datatype Step =
    | Post(i: nat, events: set<nat>)      // the kernel or a handler changes `com`
    | Receive(i: nat)
    | Doze(i: nat)
    | Pause(i: nat)
    | Wake(i: nat)
    | Dispatch(i: nat, id: nat)
    | Return(i: nat, finished: bool)
    | Scan                                // the waker

  // ---------------------------------------------------------------- the worker

  predicate Lowest(s: set<nat>, id: nat) {
    id in s && forall x :: x in s ==> id <= x
  }

  function StartPass(w: Worker, passes: nat): Worker {
    w.(pc := Dispatching, snap := w.temp, passes := passes, pass := w.temp, done := [])
  }

  /** Events are added to those left over; without any, the round is counted, or it is time to sleep. */
  function Collect(w: Worker, events: set<nat>): Worker {
    var temp := w.temp + events;
    if temp != {} then StartPass(w.(temp := temp), 0)
    else if w.rounds == NCYCLESLEEP then w.(rounds := 0, pc := Drowsy)
    else w.(rounds := w.rounds + 1)
  }

  function RunThread(w: Worker, id: nat): Worker {
    w.(pc := Running(id), unfinished := w.unfinished + {id})
  }

  /** What follows a pass: a second one on what is left, or `rcv`. */
  function EndPass(w: Worker): Worker {
    if w.passes == 0 && w.temp != {} then StartPass(w, 1) else w.(pc := Receiving)
  }

  function ThreadBack(w: Worker, id: nat, finished: bool): Worker {
    var v := w.(pc := Dispatching, snap := w.snap - {id}, done := w.done + [id],
                temp := if finished then w.temp - {id} else w.temp,
                unfinished := if finished then w.unfinished - {id} else w.unfinished);
    if v.snap == {} then EndPass(v) else v
  }

  /** A thread that is not finished has yielded, which it does only when another has something to do. */
  predicate MayReturn(w: Worker, finished: bool) {
    w.pc.Running? && (finished || w.temp - {w.pc.id} != {})
  }

  // ---------------------------------------------------------------- the waker

  function Following(s: System): nat {
    if s.pos + 1 < |s.workers| then s.pos + 1 else 0
  }

  /** `SIGUSR1` ends a pause. At any other time it is lost. */
  function Signal(w: Worker): Worker {
    if w.pc.Paused? then w.(pc := Waking) else w
  }

  function ScanStep(s: System): System
    requires s.pos < |s.workers| == |s.com|
  {
    match s.waker
    case ReadState =>
      if s.workers[s.pos].state != 0 then s.(pos := Following(s)) else s.(waker := ReadCom)
    case ReadCom =>
      if s.com[s.pos] == {} then s.(pos := Following(s), waker := ReadState) else s.(waker := Kill)
    case Kill =>
      s.(workers := s.workers[s.pos := Signal(s.workers[s.pos])], pos := Following(s), waker := ReadState)
  }

  // ---------------------------------------------------------------- steps

  function Put(s: System, i: nat, w: Worker): System
    requires i < |s.workers|
  {
    s.(workers := s.workers[i := w])
  }

  predicate Shaped(s: System) {
    s.pos < |s.workers| == |s.com|
  }

  ghost predicate WorkerNext(w: Worker, events: set<nat>, l: Step, v: Worker) {
    match l
    case Receive(_) => w.pc.Receiving? && v == Collect(w, events)
    case Doze(_) => w.pc.Drowsy? && v == w.(state := 0, pc := Dozing)
    case Pause(_) => w.pc.Dozing? && v == w.(pc := Paused)
    case Wake(_) => w.pc.Waking? && v == w.(state := 1, pc := Receiving)
    case Dispatch(_, id) => w.pc.Dispatching? && Lowest(w.snap, id) && v == RunThread(w, id)
    case Return(_, finished) => MayReturn(w, finished) && v == ThreadBack(w, w.pc.id, finished)
    case _ => false
  }

  ghost predicate Next(s: System, l: Step, t: System) {
    && Shaped(s)
    && match l
       case Post(i, events) =>
         i < |s.com| && (forall x :: x in events ==> x < MAX_UTHREADS) && t == s.(com := s.com[i := events])
       case Scan => t == ScanStep(s)
       case _ =>
         && l.i < |s.workers| && |t.workers| == |s.workers| && t == Put(s, l.i, t.workers[l.i])
         && WorkerNext(s.workers[l.i], s.com[l.i], l, t.workers[l.i])
  }

  // ---------------------------------------------------------------- the invariant

  ghost predicate Increasing(q: seq<nat>) {
    forall i, j :: 0 <= i < j < |q| ==> q[i] < q[j]
  }

  /** What a pass has run, and in what order, and what it has left. */
  ghost predicate PassOk(w: Worker) {
    && Increasing(w.done) && w.snap <= w.temp
    && (forall x :: x in w.pass <==> x in w.done || x in w.snap)
    && (forall x, y :: x in w.done && y in w.snap ==> x < y)
    && (w.pc.Running? ==> Lowest(w.snap, w.pc.id))
  }

  ghost predicate WorkerOk(w: Worker) {
    && w.passes <= 1 && w.rounds <= NCYCLESLEEP
    && (w.pc.Dozing? || w.pc.Paused? || w.pc.Waking? <==> w.state == 0)
    && (w.pc.Drowsy? || w.pc.Dozing? || w.pc.Paused? || w.pc.Waking? ==> w.temp == {} && w.rounds == 0)
    && (w.pc.Dispatching? || w.pc.Running? ==> PassOk(w) && w.snap != {})
    && w.unfinished <= w.temp
    && (forall x :: x in w.temp ==> x < MAX_UTHREADS)
  }

  ghost predicate Inv(s: System) {
    && Shaped(s)
    && (forall i :: 0 <= i < |s.workers| ==> WorkerOk(s.workers[i]))
    && (forall i :: 0 <= i < |s.com| ==> forall x :: x in s.com[i] ==> x < MAX_UTHREADS)
  }

  ghost predicate Init(s: System) {
    && Shaped(s) && s.waker.ReadState?
    && (forall i :: 0 <= i < |s.workers| ==>
          var w := s.workers[i];
          w.pc.Receiving? && w.state == 1 && w.temp == {} && w.unfinished == {} && w.rounds == 0 && w.passes == 0)
    && (forall i :: 0 <= i < |s.com| ==> s.com[i] == {})
  }

  lemma InitInv(s: System)
    requires Init(s)
    ensures Inv(s)
  {
  }

  lemma StartPassOk(w: Worker, passes: nat)
    requires w.state != 0 && w.temp != {} && passes <= 1 && w.rounds <= NCYCLESLEEP && w.unfinished <= w.temp
    requires forall x :: x in w.temp ==> x < MAX_UTHREADS
    ensures WorkerOk(StartPass(w, passes))
  {
  }

  lemma {:induction false} IncreasingSnoc(q: seq<nat>, x: nat)
    requires Increasing(q) && forall y :: y in q ==> y < x
    ensures Increasing(q + [x])
  {
    forall i, j | 0 <= i < j < |q + [x]| ensures (q + [x])[i] < (q + [x])[j]
    {
      if j == |q| { assert q[i] in q; }
    }
  }

  /** A pass, thread by thread. */
  lemma PassGoesOn(w: Worker, id: nat)
    requires PassOk(w) && w.pc == Running(id)
    ensures var v := w.(pc := Dispatching, snap := w.snap - {id}, done := w.done + [id]);
            Increasing(v.done) && (forall x :: x in v.pass <==> x in v.done || x in v.snap)
            && (forall x, y :: x in v.done && y in v.snap ==> x < y)
  {
    IncreasingSnoc(w.done, id);
  }

  lemma ThreadBackOk(w: Worker, finished: bool)
    requires WorkerOk(w) && MayReturn(w, finished)
    ensures WorkerOk(ThreadBack(w, w.pc.id, finished))
  {
    var id := w.pc.id;
    PassGoesOn(w, id);
    var v := w.(pc := Dispatching, snap := w.snap - {id}, done := w.done + [id],
                temp := if finished then w.temp - {id} else w.temp,
                unfinished := if finished then w.unfinished - {id} else w.unfinished);
    if v.snap == {} && v.passes == 0 && v.temp != {} { StartPassOk(v, 1); }
  }

  /** Every step of a worker keeps what is true of it. */
  lemma WorkerKeeps(w: Worker, events: set<nat>, l: Step, v: Worker)
    requires WorkerOk(w) && WorkerNext(w, events, l, v) && forall x :: x in events ==> x < MAX_UTHREADS
    ensures WorkerOk(v)
  {
    match l
    case Receive(_) => if w.temp + events != {} { StartPassOk(w.(temp := w.temp + events), 0); }
    case Return(_, finished) => ThreadBackOk(w, finished);
    case _ =>
  }

  lemma StepKeeps(s: System, l: Step, t: System)
    requires Inv(s) && Next(s, l, t)
    ensures Inv(t)
  {
    hide WorkerOk, WorkerNext;
    match l
    case Post(_, _) =>
    case Scan => ScanKeeps(s);
    case _ => WorkerKeeps(s.workers[l.i], s.com[l.i], l, t.workers[l.i]);
  }

  lemma ScanKeeps(s: System)
    requires Inv(s)
    ensures Inv(ScanStep(s))
  {
  }

  // ---------------------------------------------------------------- runs

  datatype Run = Run(states: seq<System>, steps: seq<Step>)

  ghost predicate IsRun(r: Run) {
    && |r.states| == |r.steps| + 1 && Init(r.states[0])
    && forall i {:trigger r.steps[i]} :: 0 <= i < |r.steps| ==> Next(r.states[i], r.steps[i], r.states[i + 1])
  }

  lemma {:induction false} RunInv(r: Run, k: nat)
    requires IsRun(r) && k < |r.states|
    ensures Inv(r.states[k]) && |r.states[k].workers| == |r.states[0].workers|
  {
    hide Inv, Next, Init;
    if k == 0 {
      InitInv(r.states[0]);
    } else {
      RunInv(r, k - 1);
      StepKeeps(r.states[k - 1], r.steps[k - 1], r.states[k]);
      KeepsWorkers(r.states[k - 1], r.steps[k - 1], r.states[k]);
    }
  }

  lemma KeepsWorkers(s: System, l: Step, t: System)
    requires Inv(s) && Next(s, l, t)
    ensures |t.workers| == |s.workers|
  {
  }

  /** Over every run: a user thread that is not finished keeps its event, and a worker shows state 0 exactly from before
      its pause until after it. */
  lemma RunSafe(r: Run, k: nat, i: nat)
    requires IsRun(r) && k < |r.states| && i < |r.states[k].workers|
    ensures var w := r.states[k].workers[i];
            && w.unfinished <= w.temp
            && (w.state == 0 <==> w.pc.Dozing? || w.pc.Paused? || w.pc.Waking?)
  {
    RunInv(r, k);
  }

  /** When the last thread of a pass comes back, the pass has run every event it began with exactly once, in
      ascending order. */
  lemma PassRunsAll(w: Worker, finished: bool)
    requires WorkerOk(w) && MayReturn(w, finished) && w.snap - {w.pc.id} == {}
    ensures var ran := w.done + [w.pc.id];
            Increasing(ran) && (forall x :: x in w.pass <==> x in ran) && |ran| == |w.pass|
  {
    PassGoesOn(w, w.pc.id);
    IncreasingSize(w.done + [w.pc.id], w.pass);
  }

  lemma {:induction false} IncreasingSize(q: seq<nat>, s: set<nat>)
    requires Increasing(q) && forall x :: x in s <==> x in q
    ensures |q| == |s|
  {
    if q == [] {
      assert s == {};
    } else {
      var z := q[|q| - 1];
      forall x ensures x in s - {z} <==> x in q[..|q| - 1]
      {
        assert q == q[..|q| - 1] + [z];
      }
      IncreasingSize(q[..|q| - 1], s - {z});
    }
  }
}
