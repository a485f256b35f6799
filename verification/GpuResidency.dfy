/**
 The local inference process manager: reference-counted model processes that
 share one GPU under a condition variable, one lock per model and one serial
 queue per model.

 A task is suspended only at an `await`, so every program counter below names
 one suspension point and `Advance` is the straight-line code between two of
 them.  A task runs `serial_session`: load, one serialized operation, unload.
 */
module GpuResidency {
  import opened Common

  datatype Workload = Embedding | Reranker | Chat | Media

  /** Where a task is suspended. */
  datatype Pc =
    | Idle
    | WantGate      // acquiring the condition's lock, for the first time or after a wake-up
    | AtGate        // holds it, about to test for a conflicting workload
    | Parked        // in wait(), the lock released
    | Evicting      // holds it, awaiting the end of a stopped hot process
    | WantStart     // reserved; acquiring the model lock
    | AtStart       // holds the model lock, about to test `running` again
    | Starting      // holds the model lock, awaiting start
    | WantSerial    // load returned; acquiring the serial queue
    | InSession     // the operation is executing
    | WantRelease   // unload: acquiring the model lock
    | AtRelease     // holds the model lock, about to drop the reference
    | Stopping      // holds the model lock, awaiting the end of the process
    | WantNotify    // acquiring the condition's lock
    | AtNotify      // holds it, about to wake every waiter

  /** A task, the model it loads, uses or releases, and the next spec its eviction looks at. */
  datatype Task = Task(pc: Pc, model: nat, next: nat)

  /** `work` lists the configured models in dictionary order; the tables are indexed by it. */
  datatype State = State(
    work: seq<Workload>,
    refs: seq<nat>,
    running: seq<bool>,
    gate: Option<nat>,
    locks: seq<Option<nat>>,
    serial: seq<Option<nat>>,
    tasks: seq<Task>)

  /** HOT_WORKLOADS: every workload but media. */
  predicate Hot(w: Workload): (hot: bool)
    ensures hot <==> !w.Media?
  {
    w.Embedding? || w.Reranker? || w.Chat?
  }

  /** The models whose references make a load of `m` wait: the hot ones for a media model, the media ones for others. */
  predicate Rivals(work: seq<Workload>, m: nat, other: nat)
    requires m < |work| && other < |work|
  {
    if work[m].Media? then Hot(work[other]) else work[other].Media?
  }

  predicate Conflict(work: seq<Workload>, refs: seq<nat>, m: nat)
    requires m < |work| == |refs|
  {
    exists r :: 0 <= r < |work| && Rivals(work, m, r) && refs[r] > 0
  }

  /** The first idle running hot model at or after `from`; the table size when there is none. */
  function NextIdleHot(work: seq<Workload>, refs: seq<nat>, running: seq<bool>, from: nat): (j: nat)
    requires |work| == |refs| == |running| && from <= |work|
    ensures from <= j <= |work|
    ensures j < |work| ==> Hot(work[j]) && refs[j] == 0 && running[j]
    ensures forall k :: from <= k < j ==> !(Hot(work[k]) && refs[k] == 0 && running[k])
    decreases |work| - from
  {
    if from == |work| then from
    else if Hot(work[from]) && refs[from] == 0 && running[from] then from
    else NextIdleHot(work, refs, running, from + 1)
  }

  // ---------------------------------------------------------------- the machine

  predicate Shape(s: State) {
    && |s.refs| == |s.running| == |s.locks| == |s.serial| == |s.work|
    && (forall t :: 0 <= t < |s.tasks| ==> TaskShape(s.tasks[t], |s.work|))
  }

  predicate TaskShape(task: Task, models: nat) {
    !task.pc.Idle? ==> task.model < models && task.next <= models
  }

  function Init(work: seq<Workload>, tasks: nat): State {
    State(work, seq(|work|, _ => 0), seq(|work|, _ => false), None,
          seq(|work|, _ => None), seq(|work|, _ => None), seq(tasks, _ => Task(Idle, 0, 0)))
  }

  function Goto(s: State, t: nat, pc: Pc): State
    requires t < |s.tasks|
  {
    s.(tasks := s.tasks[t := s.tasks[t].(pc := pc)])
  }

  /** Stop the idle hot model `j`: its process leaves the table before the first suspension. */
  function Evict(s: State, t: nat, j: nat): State
    requires Shape(s) && t < |s.tasks| && j < |s.work|
  {
    s.(running := s.running[j := false], tasks := s.tasks[t := s.tasks[t].(pc := Evicting, next := j + 1)])
  }

  /** Take a reference, leave the gate, and go on to the model lock only if no process is running. */
  function Reserve(s: State, t: nat): State
    requires Shape(s) && t < |s.tasks| && !s.tasks[t].pc.Idle?
  {
    var m := s.tasks[t].model;
    Goto(s.(refs := s.refs[m := s.refs[m] + 1], gate := None), t,
         if s.running[m] then WantSerial else WantStart)
  }

  /** The rest of load's critical section, with the eviction loop resumed at spec `from`. */
  function PassGate(s: State, t: nat, from: nat): State
    requires Shape(s) && t < |s.tasks| && !s.tasks[t].pc.Idle? && from <= |s.work|
  {
    var j := NextIdleHot(s.work, s.refs, s.running, from);
    if s.work[s.tasks[t].model].Media? && j < |s.work| then Evict(s, t, j) else Reserve(s, t)
  }

  /** start returned: the process is in the table and the model lock is released. */
  function Started(s: State, t: nat): State
    requires Shape(s) && t < |s.tasks| && !s.tasks[t].pc.Idle?
  {
    var m := s.tasks[t].model;
    Goto(s.(running := s.running[m := true], locks := s.locks[m := None]), t, WantSerial)
  }

  /** The locked part of unload: drop the reference, and stop a cold model with the last one. */
  function Release(s: State, t: nat): State
    requires Shape(s) && t < |s.tasks| && !s.tasks[t].pc.Idle?
  {
    var m := s.tasks[t].model;
    if s.refs[m] == 0 then Goto(s.(locks := s.locks[m := None]), t, Idle)
    else if s.refs[m] == 1 && s.work[m].Media? then
      Goto(s.(refs := s.refs[m := 0], running := s.running[m := false]), t, Stopping)
    else
      Goto(s.(refs := s.refs[m := s.refs[m] - 1], locks := s.locks[m := None]), t, WantNotify)
  }

  /** notify_all: every waiter goes back to acquiring the condition's lock. */
  function Woken(tasks: seq<Task>): (r: seq<Task>)
    ensures |r| == |tasks|
  {
    seq(|tasks|, i requires 0 <= i < |tasks| =>
      if tasks[i].pc.Parked? then tasks[i].(pc := WantGate) else tasks[i])
  }

  /** Whether task `t` can move without a new session being requested. */
  predicate Enabled(s: State, t: nat)
    requires Shape(s)
  {
    t < |s.tasks| &&
    var m := s.tasks[t].model;
    match s.tasks[t].pc
    case Idle => false
    case Parked => false
    case WantGate => s.gate.None?
    case WantNotify => s.gate.None?
    case WantStart => s.locks[m].None?
    case WantRelease => s.locks[m].None?
    case WantSerial => s.serial[m].None?
    case _ => true
  }

  function Advance(s: State, t: nat): State
    requires Shape(s) && Enabled(s, t)
  {
    var m := s.tasks[t].model;
    match s.tasks[t].pc
    case WantGate => Goto(s.(gate := Some(t)), t, AtGate)
    case AtGate =>
      if Conflict(s.work, s.refs, m) then Goto(s.(gate := None), t, Parked)
      else PassGate(s, t, 0)
    case Evicting => PassGate(s, t, s.tasks[t].next)
    case WantStart => Goto(s.(locks := s.locks[m := Some(t)]), t, AtStart)
    case AtStart =>
      if s.running[m] then Goto(s.(locks := s.locks[m := None]), t, WantSerial)
      else Goto(s, t, Starting)
    case Starting => Started(s, t)
    case WantSerial => Goto(s.(serial := s.serial[m := Some(t)]), t, InSession)
    case InSession => Goto(s.(serial := s.serial[m := None]), t, WantRelease)
    case WantRelease => Goto(s.(locks := s.locks[m := Some(t)]), t, AtRelease)
    case AtRelease => Release(s, t)
    case Stopping => Goto(s.(locks := s.locks[m := None]), t, WantNotify)
    case WantNotify => Goto(s.(gate := Some(t)), t, AtNotify)
    case AtNotify => Goto(s.(gate := None, tasks := Woken(s.tasks)), t, Idle)
  }

  /** A caller opens a session on a configured model. */
  predicate Begins(s: State, t: nat, m: nat, s': State) {
    && t < |s.tasks| && s.tasks[t].pc.Idle? && m < |s.work|
    && s' == s.(tasks := s.tasks[t := Task(WantGate, m, 0)])
  }

  predicate Advances(s: State, t: nat, s': State)
    requires Shape(s)
  {
    Enabled(s, t) && s' == Advance(s, t)
  }

  ghost predicate Step(s: State, s': State)
    requires Shape(s)
  {
    || (exists t :: Advances(s, t, s'))
    || (exists t, m :: Begins(s, t, m, s'))
  }

  ghost predicate Sized(s: State, work: seq<Workload>, tasks: nat) {
    Shape(s) && s.work == work && |s.tasks| == tasks
  }

  ghost predicate StepAt(states: seq<State>, i: nat)
    requires 0 < i < |states| && Shape(states[i - 1])
  {
    Step(states[i - 1], states[i])
  }

  /** Finite executions; any state of one is reachable. */
  ghost predicate Run(states: seq<State>, work: seq<Workload>, tasks: nat) {
    && |states| > 0
    && states[0] == Init(work, tasks)
    && (forall i :: 0 <= i < |states| ==> Sized(states[i], work, tasks))
    && (forall i :: 0 < i < |states| ==> StepAt(states, i))
  }

  // ------------------------------------------------------------- the invariant

  /** Between reservation and release: the tasks `references` is meant to count. */
  predicate Refers(task: Task, m: nat) {
    && task.model == m
    && (task.pc.WantStart? || task.pc.AtStart? || task.pc.Starting? || Loaded(task))
  }

  /** load returned and the reference is still held. */
  predicate Loaded(task: Task) {
    task.pc.WantSerial? || task.pc.InSession? || task.pc.WantRelease? || task.pc.AtRelease?
  }

  predicate HoldsGate(task: Task) { task.pc.AtGate? || task.pc.Evicting? || task.pc.AtNotify? }

  predicate HoldsLock(task: Task) {
    task.pc.AtStart? || task.pc.Starting? || task.pc.AtRelease? || task.pc.Stopping?
  }

  /** An unload that has dropped its reference but not yet notified. */
  predicate WillNotify(task: Task) { task.pc.Stopping? || task.pc.WantNotify? || task.pc.AtNotify? }

  function Count(tasks: seq<Task>, m: nat): nat {
    if tasks == [] then 0
    else (if Refers(tasks[0], m) then 1 else 0) + Count(tasks[1..], m)
  }

  /** The condition's lock is held exactly by the one task inside its critical section. */
  ghost predicate GateOk(s: State) {
    && (s.gate.Some? ==> s.gate.value < |s.tasks| && HoldsGate(s.tasks[s.gate.value]))
    && (forall t :: 0 <= t < |s.tasks| && HoldsGate(s.tasks[t]) ==> s.gate == Some(t))
  }

  ghost predicate LocksOk(s: State)
    requires Shape(s)
  {
    && (forall m :: 0 <= m < |s.work| && s.locks[m].Some? ==>
          && s.locks[m].value < |s.tasks|
          && HoldsLock(s.tasks[s.locks[m].value]) && s.tasks[s.locks[m].value].model == m)
    && (forall t :: 0 <= t < |s.tasks| && HoldsLock(s.tasks[t]) ==> s.locks[s.tasks[t].model] == Some(t))
  }

  ghost predicate SerialOk(s: State)
    requires Shape(s)
  {
    && (forall m :: 0 <= m < |s.work| && s.serial[m].Some? ==>
          && s.serial[m].value < |s.tasks|
          && s.tasks[s.serial[m].value].pc.InSession? && s.tasks[s.serial[m].value].model == m)
    && (forall t :: 0 <= t < |s.tasks| && s.tasks[t].pc.InSession? ==> s.serial[s.tasks[t].model] == Some(t))
  }

  ghost predicate Counted(s: State)
    requires Shape(s)
  {
    forall m :: 0 <= m < |s.work| ==> s.refs[m] == Count(s.tasks, m)
  }

  /** Media processes never outlive their references, and the two groups exclude each other. */
  ghost predicate Exclusive(s: State)
    requires Shape(s)
  {
    && (forall a :: 0 <= a < |s.work| && s.work[a].Media? && s.running[a] ==> s.refs[a] > 0)
    && (forall a, b | 0 <= a < |s.work| && 0 <= b < |s.work| && s.work[a].Media? && Hot(s.work[b]) ::
          s.refs[a] > 0 ==> s.refs[b] == 0 && !s.running[b])
    && (forall t :: 0 <= t < |s.tasks| && s.tasks[t].pc.Evicting? ==> EvictionOk(s, s.tasks[t]))
  }

  ghost predicate EvictionOk(s: State, task: Task)
    requires Shape(s) && task.model < |s.work|
  {
    && s.work[task.model].Media?
    && (forall b :: 0 <= b < |s.work| && Hot(s.work[b]) ==>
          s.refs[b] == 0 && (b < task.next ==> !s.running[b]))
  }

  ghost predicate ProcessesOk(s: State)
    requires Shape(s)
  {
    && (forall t :: 0 <= t < |s.tasks| && Loaded(s.tasks[t]) ==> s.running[s.tasks[t].model])
    && (forall t :: 0 <= t < |s.tasks| && s.tasks[t].pc.Starting? ==> !s.running[s.tasks[t].model])
  }

  ghost predicate NoLostWakeup(s: State)
    requires Shape(s)
  {
    forall t :: 0 <= t < |s.tasks| && s.tasks[t].pc.Parked? ==>
      || Conflict(s.work, s.refs, s.tasks[t].model)
      || (exists u :: 0 <= u < |s.tasks| && WillNotify(s.tasks[u]))
  }

  ghost predicate Inv(s: State) {
    && Shape(s) && GateOk(s) && LocksOk(s) && SerialOk(s) && Counted(s)
    && Exclusive(s) && ProcessesOk(s) && NoLostWakeup(s)
  }

  // ------------------------------------------------------------------ counting

  lemma {:induction false} CountUpdate(tasks: seq<Task>, t: nat, task: Task, m: nat)
    requires t < |tasks|
    ensures Count(tasks[t := task], m) ==
            Count(tasks, m) - (if Refers(tasks[t], m) then 1 else 0) + (if Refers(task, m) then 1 else 0)
  {
    if t == 0 {
      assert tasks[t := task][1..] == tasks[1..];
    } else {
      assert tasks[t := task][1..] == tasks[1..][t - 1 := task];
      CountUpdate(tasks[1..], t - 1, task, m);
    }
  }

  lemma {:induction false} CountAgrees(a: seq<Task>, b: seq<Task>, m: nat)
    requires |a| == |b| && forall t :: 0 <= t < |a| ==> (Refers(a[t], m) <==> Refers(b[t], m))
    ensures Count(a, m) == Count(b, m)
  {
    if a != [] {
      assert Refers(a[0], m) <==> Refers(b[0], m);
      CountAgrees(a[1..], b[1..], m);
    }
  }

  lemma {:induction false} CountPositive(tasks: seq<Task>, m: nat)
    ensures Count(tasks, m) > 0 <==> exists t :: 0 <= t < |tasks| && Refers(tasks[t], m)
  {
    if tasks != [] {
      CountPositive(tasks[1..], m);
      if t :| 0 <= t < |tasks| && Refers(tasks[t], m) {
        assert t > 0 ==> tasks[1..][t - 1] == tasks[t];
      }
      if t :| 0 <= t < |tasks[1..]| && Refers(tasks[1..][t], m) {
        assert Refers(tasks[t + 1], m);
      }
    }
  }

  lemma CountsMove(s: State, t: nat, task: Task)
    requires t < |s.tasks|
    ensures forall m :: 0 <= m < |s.work| ==>
              Count(s.tasks[t := task], m) ==
              Count(s.tasks, m) - (if Refers(s.tasks[t], m) then 1 else 0) + (if Refers(task, m) then 1 else 0)
  {
    forall m | 0 <= m < |s.work| { CountUpdate(s.tasks, t, task, m); }
  }

  /** A model some task refers to has a positive count. */
  lemma Referenced(s: State)
    requires Shape(s) && Counted(s)
    ensures forall t :: 0 <= t < |s.tasks| && Refers(s.tasks[t], s.tasks[t].model) ==> s.refs[s.tasks[t].model] > 0
  {
    forall t | 0 <= t < |s.tasks| && Refers(s.tasks[t], s.tasks[t].model)
      ensures s.refs[s.tasks[t].model] > 0
    {
      CountPositive(s.tasks, s.tasks[t].model);
    }
  }

  // -------------------------------------------------------------- preservation

  lemma InitHolds(work: seq<Workload>, tasks: nat)
    ensures Inv(Init(work, tasks))
  {
    var s := Init(work, tasks);
    forall m | 0 <= m < |work| ensures Count(s.tasks, m) == 0 {
      CountPositive(s.tasks, m);
    }
  }

  lemma BeginKeeps(s: State, t: nat, m: nat, s': State)
    requires Inv(s) && Begins(s, t, m, s')
    ensures Inv(s')
  {
    assert Shape(s');
    BeginCounts(s, t, m, s');
    BeginWakes(s, t, m, s');
    BeginMutex(s, t, m, s');
  }

  lemma BeginMutex(s: State, t: nat, m: nat, s': State)
    requires Shape(s) && GateOk(s) && LocksOk(s) && SerialOk(s) && Begins(s, t, m, s')
    ensures Shape(s') && GateOk(s') && LocksOk(s') && SerialOk(s')
  {
  }

  lemma BeginCounts(s: State, t: nat, m: nat, s': State)
    requires Shape(s) && Counted(s) && Begins(s, t, m, s')
    ensures Shape(s') && Counted(s')
  {
    CountsMove(s, t, Task(WantGate, m, 0));
  }

  lemma BeginWakes(s: State, t: nat, m: nat, s': State)
    requires Shape(s) && Exclusive(s) && ProcessesOk(s) && NoLostWakeup(s) && Begins(s, t, m, s')
    ensures Shape(s') && Exclusive(s') && ProcessesOk(s') && NoLostWakeup(s')
  {
    BeginExcludes(s, t, m, s');
    assert forall u :: 0 <= u < |s.tasks| && WillNotify(s.tasks[u]) ==> WillNotify(s'.tasks[u]);
  }

  lemma BeginExcludes(s: State, t: nat, m: nat, s': State)
    requires Shape(s) && Exclusive(s) && Begins(s, t, m, s')
    ensures Shape(s') && Exclusive(s')
  {
  }

  lemma ShapeKept(s: State, t: nat)
    requires Shape(s) && Enabled(s, t)
    ensures Shape(Advance(s, t)) && Advance(s, t).work == s.work && |Advance(s, t).tasks| == |s.tasks|
  {
  }

  lemma GateKept(s: State, t: nat)
    requires Shape(s) && GateOk(s) && Enabled(s, t)
    ensures GateOk(Advance(s, t))
  {
  }

  /** What any step leaves alone: the configuration and every other task, save for woken waiters. */
  ghost predicate OthersKept(s: State, t: nat, s': State) {
    && s'.work == s.work && |s'.tasks| == |s.tasks| && t < |s.tasks|
    && s'.tasks[t].model == s.tasks[t].model
    && (forall u :: 0 <= u < |s.tasks| && u != t ==>
          || s'.tasks[u] == s.tasks[u]
          || (s.tasks[u].pc.Parked? && s'.tasks[u] == s.tasks[u].(pc := WantGate)))
  }

  lemma OthersAlways(s: State, t: nat)
    requires Shape(s) && Enabled(s, t)
    ensures OthersKept(s, t, Advance(s, t))
  {
  }

  ghost predicate LockMove(s: State, t: nat, s': State)
    requires Shape(s) && t < |s.tasks| == |s'.tasks| && s.tasks[t].model < |s.work|
  {
    var m := s.tasks[t].model;
    var before, after := HoldsLock(s.tasks[t]), HoldsLock(s'.tasks[t]);
    || (before == after && s'.locks == s.locks)
    || (!before && after && s.locks[m].None? && s'.locks == s.locks[m := Some(t)])
    || (before && !after && s'.locks == s.locks[m := None])
  }

  lemma LocksKept(s: State, t: nat)
    requires Shape(s) && LocksOk(s) && Enabled(s, t)
    ensures Shape(Advance(s, t)) && LocksOk(Advance(s, t))
  {
    var s' := Advance(s, t);
    ShapeKept(s, t);
    OthersAlways(s, t);
    assert LockMove(s, t, s');
    LocksMoved(s, t, s');
  }

  lemma LocksMoved(s: State, t: nat, s': State)
    requires Shape(s) && Shape(s') && LocksOk(s) && OthersKept(s, t, s') && !s.tasks[t].pc.Idle?
    requires LockMove(s, t, s')
    ensures LocksOk(s')
  {
  }

  ghost predicate SerialMove(s: State, t: nat, s': State)
    requires Shape(s) && t < |s.tasks| == |s'.tasks| && s.tasks[t].model < |s.work|
  {
    var m := s.tasks[t].model;
    var before, after := s.tasks[t].pc.InSession?, s'.tasks[t].pc.InSession?;
    || (before == after && s'.serial == s.serial)
    || (!before && after && s.serial[m].None? && s'.serial == s.serial[m := Some(t)])
    || (before && !after && s'.serial == s.serial[m := None])
  }

  lemma SerialKept(s: State, t: nat)
    requires Shape(s) && SerialOk(s) && Enabled(s, t)
    ensures Shape(Advance(s, t)) && SerialOk(Advance(s, t))
  {
    var s' := Advance(s, t);
    ShapeKept(s, t);
    OthersAlways(s, t);
    assert SerialMove(s, t, s');
    SerialMoved(s, t, s');
  }

  lemma SerialMoved(s: State, t: nat, s': State)
    requires Shape(s) && Shape(s') && SerialOk(s) && OthersKept(s, t, s') && !s.tasks[t].pc.Idle?
    requires SerialMove(s, t, s')
    ensures SerialOk(s')
  {
  }

  /** A step that changes no reference and no process, and does not wake anyone. */
  ghost predicate Quiet(s: State, t: nat, s': State)
    requires Shape(s) && t < |s.tasks| == |s'.tasks| && s.tasks[t].model < |s.work|
  {
    var old_, new_ := s.tasks[t], s'.tasks[t];
    && s'.refs == s.refs && s'.running == s.running
    && (Refers(old_, old_.model) <==> Refers(new_, old_.model))
    && (Loaded(new_) ==> Loaded(old_) || s.running[old_.model])
    && (new_.pc.Starting? ==> !s.running[old_.model])
    && !new_.pc.Evicting?
    && (new_.pc.Parked? ==> Conflict(s.work, s.refs, old_.model))
    && (WillNotify(old_) ==> WillNotify(new_) || forall u :: 0 <= u < |s'.tasks| ==> !s'.tasks[u].pc.Parked?)
  }

  /** The part of the invariant about references and processes. */
  ghost predicate Accounts(s: State)
    requires Shape(s)
  {
    Counted(s) && Exclusive(s) && ProcessesOk(s) && NoLostWakeup(s)
  }

  predicate IsQuiet(s: State, t: nat)
    requires Shape(s) && Enabled(s, t)
  {
    && !s.tasks[t].pc.Evicting? && !s.tasks[t].pc.Starting? && !s.tasks[t].pc.AtRelease?
    && (s.tasks[t].pc.AtGate? ==> Conflict(s.work, s.refs, s.tasks[t].model))
  }

  lemma QuietSteps(s: State, t: nat)
    requires Shape(s) && Enabled(s, t) && IsQuiet(s, t)
    ensures |Advance(s, t).tasks| == |s.tasks| && Quiet(s, t, Advance(s, t))
  {
  }

  lemma QuietKeeps(s: State, t: nat, s': State)
    requires Shape(s) && Shape(s') && Accounts(s) && OthersKept(s, t, s') && !s.tasks[t].pc.Idle?
    requires Quiet(s, t, s')
    ensures Accounts(s')
  {
    QuietCounts(s, t, s');
    QuietWakes(s, t, s');
    QuietExcludes(s, t, s');
    assert ProcessesOk(s');
  }

  lemma QuietExcludes(s: State, t: nat, s': State)
    requires Shape(s) && Shape(s') && Exclusive(s) && OthersKept(s, t, s') && !s.tasks[t].pc.Idle?
    requires Quiet(s, t, s')
    ensures Exclusive(s')
  {
  }

  lemma QuietCounts(s: State, t: nat, s': State)
    requires Shape(s) && Shape(s') && Counted(s) && OthersKept(s, t, s') && !s.tasks[t].pc.Idle?
    requires Quiet(s, t, s')
    ensures Counted(s')
  {
    forall m | 0 <= m < |s.work| ensures Count(s'.tasks, m) == Count(s.tasks, m) {
      CountAgrees(s.tasks, s'.tasks, m);
    }
  }

  lemma QuietWakes(s: State, t: nat, s': State)
    requires Shape(s) && Shape(s') && NoLostWakeup(s) && OthersKept(s, t, s') && !s.tasks[t].pc.Idle?
    requires Quiet(s, t, s')
    ensures NoLostWakeup(s')
  {
    forall u | 0 <= u < |s'.tasks| && s'.tasks[u].pc.Parked?
      ensures Conflict(s.work, s.refs, s'.tasks[u].model) || exists v :: 0 <= v < |s'.tasks| && WillNotify(s'.tasks[v])
    {
      if u != t {
        assert s'.tasks[u] == s.tasks[u];
        if v :| 0 <= v < |s.tasks| && WillNotify(s.tasks[v]) {
          assert WillNotify(s'.tasks[v]);
        }
      }
    }
  }

  /** Parked tasks stay justified when references only grow or stay and no notifier disappears. */
  lemma WakeupFramed(s: State, s': State, t: nat)
    requires Shape(s) && Shape(s') && NoLostWakeup(s) && OthersKept(s, t, s')
    requires !s'.tasks[t].pc.Parked? && (WillNotify(s.tasks[t]) ==> WillNotify(s'.tasks[t]))
    requires WillNotify(s'.tasks[t]) || forall m :: 0 <= m < |s.work| ==> s.refs[m] <= s'.refs[m]
    ensures NoLostWakeup(s')
  {
    forall u | 0 <= u < |s'.tasks| && s'.tasks[u].pc.Parked?
      ensures Conflict(s'.work, s'.refs, s'.tasks[u].model)
              || exists v :: 0 <= v < |s'.tasks| && WillNotify(s'.tasks[v])
    {
      assert s'.tasks[u] == s.tasks[u];
      if v :| 0 <= v < |s.tasks| && WillNotify(s.tasks[v]) {
        assert WillNotify(s'.tasks[v]);
      } else if !WillNotify(s'.tasks[t]) {
        var r :| 0 <= r < |s.work| && Rivals(s.work, s.tasks[u].model, r) && s.refs[r] > 0;
        assert s'.refs[r] > 0;
      }
    }
  }

  /** `references` changes by exactly what task `t` gains or loses. */
  lemma CountedFramed(s: State, s': State, t: nat)
    requires Shape(s) && Shape(s') && Counted(s) && s'.work == s.work && t < |s.tasks| == |s'.tasks|
    requires s'.tasks == s.tasks[t := s'.tasks[t]] && s'.tasks[t].model == s.tasks[t].model < |s.work|
    requires var m := s.tasks[t].model;
             && s'.refs == s.refs[m := s'.refs[m]]
             && s'.refs[m] + (if Refers(s.tasks[t], m) then 1 else 0)
                == s.refs[m] + (if Refers(s'.tasks[t], m) then 1 else 0)
    ensures Counted(s')
  {
    CountsMove(s, t, s'.tasks[t]);
  }

  lemma EvictKeeps(s: State, t: nat, j: nat)
    requires Shape(s) && Accounts(s) && t < |s.tasks| && (s.tasks[t].pc.AtGate? || s.tasks[t].pc.Evicting?)
    requires s.work[s.tasks[t].model].Media?
    requires forall b :: 0 <= b < |s.work| && Hot(s.work[b]) ==> s.refs[b] == 0 && (b < j ==> !s.running[b])
    requires j < |s.work| && Hot(s.work[j])
    ensures Shape(Evict(s, t, j)) && Accounts(Evict(s, t, j))
  {
    var s' := Evict(s, t, j);
    CountedFramed(s, s', t);
    WakeupFramed(s, s', t);
    EvictExcludes(s, t, j);
    EvictRuns(s, t, j);
  }

  lemma EvictExcludes(s: State, t: nat, j: nat)
    requires Shape(s) && Exclusive(s) && t < |s.tasks| && (s.tasks[t].pc.AtGate? || s.tasks[t].pc.Evicting?)
    requires s.work[s.tasks[t].model].Media?
    requires forall b :: 0 <= b < |s.work| && Hot(s.work[b]) ==> s.refs[b] == 0 && (b < j ==> !s.running[b])
    requires j < |s.work| && Hot(s.work[j])
    ensures Shape(Evict(s, t, j)) && Exclusive(Evict(s, t, j))
  {
  }

  /** No task relies on the process being stopped. */
  lemma EvictRuns(s: State, t: nat, j: nat)
    requires Shape(s) && Counted(s) && ProcessesOk(s) && t < |s.tasks| &&
             (s.tasks[t].pc.AtGate? || s.tasks[t].pc.Evicting?)
    requires j < |s.work| && s.refs[j] == 0
    ensures Shape(Evict(s, t, j)) && ProcessesOk(Evict(s, t, j))
  {
    Referenced(s);
  }

  lemma ReserveKeeps(s: State, t: nat)
    requires Shape(s) && GateOk(s) && Accounts(s) && t < |s.tasks|
    requires s.tasks[t].pc.AtGate? || s.tasks[t].pc.Evicting?
    requires !Conflict(s.work, s.refs, s.tasks[t].model)
    requires s.work[s.tasks[t].model].Media? ==> forall b :: 0 <= b < |s.work| && Hot(s.work[b]) ==> !s.running[b]
    ensures Shape(Reserve(s, t)) && Accounts(Reserve(s, t))
  {
    var s' := Reserve(s, t);
    CountedFramed(s, s', t);
    WakeupFramed(s, s', t);
    ReserveExcludes(s, t);
    assert ProcessesOk(s');
  }

  lemma ReserveExcludes(s: State, t: nat)
    requires Shape(s) && GateOk(s) && Exclusive(s) && t < |s.tasks|
    requires s.tasks[t].pc.AtGate? || s.tasks[t].pc.Evicting?
    requires !Conflict(s.work, s.refs, s.tasks[t].model)
    requires s.work[s.tasks[t].model].Media? ==> forall b :: 0 <= b < |s.work| && Hot(s.work[b]) ==> !s.running[b]
    ensures Shape(Reserve(s, t)) && Exclusive(Reserve(s, t))
  {
    forall b | 0 <= b < |s.work| && Rivals(s.work, s.tasks[t].model, b) ensures s.refs[b] == 0 {}
  }

  lemma StartedKeeps(s: State, t: nat)
    requires Shape(s) && LocksOk(s) && Accounts(s) && t < |s.tasks| && s.tasks[t].pc.Starting?
    ensures Shape(Started(s, t)) && Accounts(Started(s, t))
  {
    var s' := Started(s, t);
    CountedFramed(s, s', t);
    WakeupFramed(s, s', t);
    StartedExcludes(s, t);
    assert ProcessesOk(s');
  }

  lemma StartedExcludes(s: State, t: nat)
    requires Shape(s) && Counted(s) && Exclusive(s) && t < |s.tasks| && s.tasks[t].pc.Starting?
    ensures Shape(Started(s, t)) && Exclusive(Started(s, t))
  {
    Referenced(s);
    assert Refers(s.tasks[t], s.tasks[t].model);
  }

  lemma ReleaseKeeps(s: State, t: nat)
    requires Shape(s) && LocksOk(s) && Accounts(s) && t < |s.tasks| && s.tasks[t].pc.AtRelease?
    ensures Shape(Release(s, t)) && Accounts(Release(s, t))
  {
    var s' := Release(s, t);
    Referenced(s);
    CountedFramed(s, s', t);
    WakeupFramed(s, s', t);
    ReleaseExcludes(s, t);
    ReleaseRuns(s, t);
  }

  lemma ReleaseExcludes(s: State, t: nat)
    requires Shape(s) && Exclusive(s) && t < |s.tasks| && s.tasks[t].pc.AtRelease?
    ensures Shape(Release(s, t)) && Exclusive(Release(s, t))
  {
    FewerExcludes(s, Release(s, t));
  }

  /** Dropping references and processes keeps the exclusion, if a stopped process is a dropped one. */
  lemma FewerExcludes(s: State, s': State)
    requires Shape(s) && Shape(s') && Exclusive(s) && s'.work == s.work
    requires forall r :: 0 <= r < |s.work| ==> s'.refs[r] <= s.refs[r] && (s'.running[r] ==> s.running[r])
    requires forall r :: 0 <= r < |s.work| && s.work[r].Media? && s'.running[r] && s.refs[r] > 0 ==> s'.refs[r] > 0
    requires forall u :: 0 <= u < |s'.tasks| && s'.tasks[u].pc.Evicting? ==> u < |s.tasks| && s'.tasks[u] == s.tasks[u]
    ensures Exclusive(s')
  {
  }

  lemma ReleaseRuns(s: State, t: nat)
    requires Shape(s) && LocksOk(s) && Counted(s) && ProcessesOk(s) && t < |s.tasks| && s.tasks[t].pc.AtRelease?
    requires Shape(Release(s, t)) && Counted(Release(s, t))
    ensures ProcessesOk(Release(s, t))
  {
    Referenced(Release(s, t));
  }

  lemma PassGateKeeps(s: State, t: nat, from: nat)
    requires Shape(s) && GateOk(s) && Accounts(s) && t < |s.tasks| && from <= |s.work|
    requires s.tasks[t].pc.AtGate? || s.tasks[t].pc.Evicting?
    requires !Conflict(s.work, s.refs, s.tasks[t].model)
    requires forall b :: 0 <= b < from && Hot(s.work[b]) ==> !s.running[b] || !s.work[s.tasks[t].model].Media?
    ensures Shape(PassGate(s, t, from)) && Accounts(PassGate(s, t, from))
  {
    var m := s.tasks[t].model;
    var j := NextIdleHot(s.work, s.refs, s.running, from);
    if s.work[m].Media? {
      forall b | 0 <= b < |s.work| && Hot(s.work[b]) ensures s.refs[b] == 0 {
        assert Rivals(s.work, m, b);
      }
    }
    if s.work[m].Media? && j < |s.work| { EvictKeeps(s, t, j); } else { ReserveKeeps(s, t); }
  }

  lemma AdvanceKeeps(s: State, t: nat)
    requires Inv(s) && Enabled(s, t)
    ensures Inv(Advance(s, t))
  {
    var s' := Advance(s, t);
    ShapeKept(s, t);
    GateKept(s, t);
    LocksKept(s, t);
    SerialKept(s, t);
    AccountsKept(s, t);
  }

  lemma AccountsKept(s: State, t: nat)
    requires Inv(s) && Enabled(s, t)
    ensures Shape(Advance(s, t)) && Accounts(Advance(s, t))
  {
    var task := s.tasks[t];
    if IsQuiet(s, t) {
      ShapeKept(s, t);
      OthersAlways(s, t);
      QuietSteps(s, t);
      QuietKeeps(s, t, Advance(s, t));
    } else if task.pc.AtGate? {
      PassGateKeeps(s, t, 0);
    } else if task.pc.Evicting? {
      assert EvictionOk(s, task);
      PassGateKeeps(s, t, task.next);
    } else if task.pc.Starting? {
      StartedKeeps(s, t);
    } else {
      ReleaseKeeps(s, t);
    }
  }

  // ------------------------------------------------------------ safety of runs

  lemma StepKeeps(s: State, s': State)
    requires Inv(s) && Step(s, s')
    ensures Inv(s')
  {
    if t :| Advances(s, t, s') {
      AdvanceKeeps(s, t);
    } else {
      var t, m :| Begins(s, t, m, s');
      BeginKeeps(s, t, m, s');
    }
  }

  lemma {:induction false} RunKeeps(states: seq<State>, work: seq<Workload>, tasks: nat, i: nat)
    requires Run(states, work, tasks) && i < |states|
    ensures Inv(states[i])
    decreases i
  {
    if i == 0 {
      InitHolds(work, tasks);
    } else {
      RunKeeps(states, work, tasks, i - 1);
      assert StepAt(states, i);
      StepKeeps(states[i - 1], states[i]);
    }
  }

  /** A run starts with every table empty. */
  lemma RunStarts(work: seq<Workload>, tasks: nat)
    ensures Run([Init(work, tasks)], work, tasks)
  {
    InitHolds(work, tasks);
  }

  lemma StepSized(s: State, s': State, work: seq<Workload>, tasks: nat)
    requires Sized(s, work, tasks) && Step(s, s')
    ensures Sized(s', work, tasks)
  {
    if t :| Advances(s, t, s') {
      ShapeKept(s, t);
    } else {
      var t, m :| Begins(s, t, m, s');
    }
  }

  /** Every step from the last state of a run continues it. */
  lemma RunGrows(states: seq<State>, work: seq<Workload>, tasks: nat, s': State)
    requires Run(states, work, tasks) && Step(states[|states| - 1], s')
    ensures Run(states + [s'], work, tasks)
  {
    StepSized(states[|states| - 1], s', work, tasks);
    RunAppend(states, work, tasks, s');
  }

  lemma RunAppend(states: seq<State>, work: seq<Workload>, tasks: nat, s': State)
    requires Run(states, work, tasks) && Sized(s', work, tasks) && Step(states[|states| - 1], s')
    ensures Run(states + [s'], work, tasks)
  {
    var longer := states + [s'];
    forall i | 0 <= i < |longer| ensures Sized(longer[i], work, tasks) {
      assert i < |states| ==> longer[i] == states[i];
    }
    forall i | 0 < i < |longer| ensures StepAt(longer, i) {
      if i < |states| { assert StepAt(states, i); }
    }
  }

  /** In the table of processes, or being started. */
  ghost predicate Resident(s: State, m: nat)
    requires Shape(s) && m < |s.work|
  {
    s.running[m] || exists t :: 0 <= t < |s.tasks| && s.tasks[t].pc.Starting? && s.tasks[t].model == m
  }

  /** The task waits for the end of the process of `m`, which has already left the table. */
  predicate EndsAt(task: Task, m: nat) {
    || (task.pc.Stopping? && task.model == m)
    || (task.pc.Evicting? && task.next == m + 1)
  }

  ghost predicate Ending(s: State, m: nat) {
    exists t :: 0 <= t < |s.tasks| && EndsAt(s.tasks[t], m)
  }

  /** Whatever may have a live process: in the table, starting, or not yet ended. */
  ghost predicate Occupies(s: State, m: nat)
    requires Shape(s) && m < |s.work|
  {
    Resident(s, m) || Ending(s, m)
  }

  /** An unload has dropped the last reference of `m` and waits for its process without the gate. */
  ghost predicate UnloadEnding(s: State, m: nat) {
    exists t :: 0 <= t < |s.tasks| && s.tasks[t].pc.Stopping? && s.tasks[t].model == m
  }

  ghost predicate EndingOk(s: State, task: Task)
    requires Shape(s) && TaskShape(task, |s.work|)
  {
    && (task.pc.Stopping? ==> s.work[task.model].Media?)
    && (task.pc.Evicting? ==>
          && 0 < task.next && Hot(s.work[task.next - 1])
          && forall a :: 0 <= a < |s.work| && s.work[a].Media? ==> s.refs[a] == 0)
  }

  /** Unload ends media processes only; a load ends hot ones, with no media model referenced. */
  ghost predicate EndingsOk(s: State)
    requires Shape(s)
  {
    forall t :: 0 <= t < |s.tasks| ==> EndingOk(s, s.tasks[t])
  }

  lemma OwnEnding(s: State, t: nat)
    requires Inv(s) && EndingsOk(s) && Enabled(s, t)
    ensures Shape(Advance(s, t)) && |Advance(s, t).tasks| == |s.tasks|
    ensures EndingOk(Advance(s, t), Advance(s, t).tasks[t])
  {
    ShapeKept(s, t);
    assert EndingOk(s, s.tasks[t]);
  }

  /** Only the holder of the gate takes new references, so an eviction keeps its premise. */
  lemma OtherEnding(s: State, t: nat, u: nat)
    requires Inv(s) && EndingsOk(s) && Enabled(s, t) && u < |s.tasks| && u != t
    ensures Shape(Advance(s, t)) && |Advance(s, t).tasks| == |s.tasks|
    ensures EndingOk(Advance(s, t), Advance(s, t).tasks[u])
  {
    ShapeKept(s, t);
    OthersAlways(s, t);
    assert EndingOk(s, s.tasks[u]);
    if s.tasks[u].pc.Evicting? {
      assert HoldsGate(s.tasks[u]);
      assert !HoldsGate(s.tasks[t]);
    }
  }

  lemma EndingsKept(s: State, s': State)
    requires Inv(s) && EndingsOk(s) && Step(s, s')
    ensures Shape(s') && EndingsOk(s')
  {
    if t :| Advances(s, t, s') {
      ShapeKept(s, t);
      forall u | 0 <= u < |s'.tasks| ensures EndingOk(s', s'.tasks[u]) {
        if u == t { OwnEnding(s, t); } else { OtherEnding(s, t, u); }
      }
    } else {
      var t, m :| Begins(s, t, m, s');
      assert forall u :: 0 <= u < |s.tasks| ==> EndingOk(s, s.tasks[u]);
    }
  }

  lemma RunStep(states: seq<State>, work: seq<Workload>, tasks: nat, i: nat)
    requires Run(states, work, tasks) && 0 < i < |states|
    ensures Shape(states[i - 1]) && Step(states[i - 1], states[i])
  {
    assert StepAt(states, i);
  }

  lemma {:induction false} RunEndings(states: seq<State>, work: seq<Workload>, tasks: nat, i: nat)
    requires Run(states, work, tasks) && i < |states|
    ensures EndingsOk(states[i])
    decreases i
  {
    if i == 0 {
      assert forall t :: 0 <= t < |states[0].tasks| ==> states[0].tasks[t].pc.Idle?;
    } else {
      RunEndings(states, work, tasks, i - 1);
      RunKeeps(states, work, tasks, i - 1);
      RunStep(states, work, tasks, i);
      EndingsKept(states[i - 1], states[i]);
    }
  }

  /**
   GPU exclusion over every interleaving: a reference of one group keeps the other group
   unreferenced and out of the table, although processes are started outside the condition's lock.
   */
  lemma GpuExclusion(states: seq<State>, work: seq<Workload>, tasks: nat, i: nat, media: nat, hot: nat)
    requires Run(states, work, tasks) && i < |states| && media < |work| && hot < |work|
    requires work[media].Media? && !work[hot].Media?
    ensures states[i].refs[media] > 0 ==> states[i].refs[hot] == 0 && !Resident(states[i], hot)
    ensures states[i].refs[hot] > 0 ==> states[i].refs[media] == 0 && !Resident(states[i], media)
    ensures !(Resident(states[i], media) && Resident(states[i], hot))
  {
    RunKeeps(states, work, tasks, i);
    var s := states[i];
    Referenced(s);
    forall t | 0 <= t < |s.tasks| && s.tasks[t].pc.Starting? ensures s.refs[s.tasks[t].model] > 0 {
      assert Refers(s.tasks[t], s.tasks[t].model);
    }
  }

  /** A media model whose process is in the table or starting is referenced. */
  lemma ResidentMedia(s: State, m: nat)
    requires Inv(s) && m < |s.work| && s.work[m].Media? && Resident(s, m)
    ensures s.refs[m] > 0
  {
    if t :| 0 <= t < |s.tasks| && s.tasks[t].pc.Starting? && s.tasks[t].model == m {
      assert Refers(s.tasks[t], m);
      CountPositive(s.tasks, m);
    }
  }

  /** While one is, every hot process has ended, evicted ones included. */
  lemma HotEnded(s: State, media: nat, hot: nat)
    requires Inv(s) && EndingsOk(s) && media < |s.work| && hot < |s.work|
    requires s.work[media].Media? && !s.work[hot].Media? && s.refs[media] > 0
    ensures !Occupies(s, hot)
  {
    if t :| 0 <= t < |s.tasks| && s.tasks[t].pc.Starting? && s.tasks[t].model == hot {
      assert Refers(s.tasks[t], hot);
      CountPositive(s.tasks, hot);
    }
    assert forall t :: 0 <= t < |s.tasks| ==> EndingOk(s, s.tasks[t]);
  }

  /**
   The two groups are on the GPU together exactly while the media process is one that an unload has
   dropped and is still ending, next to any hot process; it is then neither in the table nor starting.
   */
  lemma OverlapExactly(states: seq<State>, work: seq<Workload>, tasks: nat, i: nat, media: nat, hot: nat)
    requires Run(states, work, tasks) && i < |states| && media < |work| && hot < |work|
    requires work[media].Media? && !work[hot].Media?
    ensures Occupies(states[i], media) && Occupies(states[i], hot)
            <==> Occupies(states[i], hot) && UnloadEnding(states[i], media) && !Resident(states[i], media)
    ensures Occupies(states[i], hot) ==> !Resident(states[i], media)
  {
    var s := states[i];
    RunKeeps(states, work, tasks, i);
    RunEndings(states, work, tasks, i);
    if Resident(s, media) {
      ResidentMedia(s, media);
      HotEnded(s, media, hot);
    }
    if t :| 0 <= t < |s.tasks| && EndsAt(s.tasks[t], media) {
      assert EndingOk(s, s.tasks[t]);
    }
    if t :| 0 <= t < |s.tasks| && s.tasks[t].pc.Stopping? && s.tasks[t].model == media {
      assert EndsAt(s.tasks[t], media);
    }
  }

  lemma RunBegins(states: seq<State>, work: seq<Workload>, tasks: nat, t: nat, m: nat) returns (longer: seq<State>)
    requires Run(states, work, tasks) && t < tasks && states[|states| - 1].tasks[t].pc.Idle? && m < |work|
    ensures var s := states[|states| - 1];
            Run(longer, work, tasks) && |longer| > 0
            && longer[|longer| - 1] == s.(tasks := s.tasks[t := Task(WantGate, m, 0)])
  {
    var s := states[|states| - 1];
    var s' := s.(tasks := s.tasks[t := Task(WantGate, m, 0)]);
    assert Begins(s, t, m, s');
    RunGrows(states, work, tasks, s');
    longer := states + [s'];
  }

  lemma RunAdvances(states: seq<State>, work: seq<Workload>, tasks: nat, t: nat) returns (longer: seq<State>)
    requires Run(states, work, tasks) && Enabled(states[|states| - 1], t)
    ensures Run(longer, work, tasks) && |longer| > 0
    ensures longer[|longer| - 1] == Advance(states[|states| - 1], t)
  {
    var s := states[|states| - 1];
    assert Advances(s, t, Advance(s, t));
    RunGrows(states, work, tasks, Advance(s, t));
    longer := states + [Advance(s, t)];
  }

  /** One media and one hot model, with two tasks and no lock taken but the ones given. */
  function Pair(w: Workload, refs: seq<nat>, running: seq<bool>, locks: seq<Option<nat>>, a: Task, b: Task): State {
    State([Media, w], refs, running, None, locks, [None, None], [a, b])
  }

  /** A media session up to its operation. */
  lemma MediaLoaded(w: Workload) returns (states: seq<State>)
    requires !w.Media?
    ensures Run(states, [Media, w], 2) && |states| > 0
    ensures states[|states| - 1]
            == Pair(w, [1, 0], [true, false], [None, None], Task(WantSerial, 0, 0), Task(Idle, 0, 0))
  {
    var work := [Media, w];
    RunStarts(work, 2);
    states := RunBegins([Init(work, 2)], work, 2, 0, 0);
    states := RunAdvances(states, work, 2, 0);
    states := RunAdvances(states, work, 2, 0);
    assert states[|states| - 1]
           == Pair(w, [1, 0], [false, false], [None, None], Task(WantStart, 0, 0), Task(Idle, 0, 0));
    states := RunAdvances(states, work, 2, 0);
    states := RunAdvances(states, work, 2, 0);
    states := RunAdvances(states, work, 2, 0);
  }

  /** And on to the wait for its process to end. */
  lemma MediaEnding(w: Workload) returns (states: seq<State>)
    requires !w.Media?
    ensures Run(states, [Media, w], 2) && |states| > 0
    ensures states[|states| - 1]
            == Pair(w, [0, 0], [false, false], [Some(0), None], Task(Stopping, 0, 0), Task(Idle, 0, 0))
  {
    var work := [Media, w];
    states := MediaLoaded(w);
    states := RunAdvances(states, work, 2, 0);
    states := RunAdvances(states, work, 2, 0);
    assert states[|states| - 1]
           == Pair(w, [1, 0], [true, false], [None, None], Task(WantRelease, 0, 0), Task(Idle, 0, 0));
    states := RunAdvances(states, work, 2, 0);
    states := RunAdvances(states, work, 2, 0);
  }

  /** The overlap happens: a hot model starts while the process of an unloaded media model is ending. */
  lemma OverlapHappens(w: Workload) returns (states: seq<State>)
    requires !w.Media?
    ensures Run(states, [Media, w], 2) && |states| > 0
    ensures var s := states[|states| - 1];
            s == Pair(w, [0, 1], [false, false], [Some(0), Some(1)], Task(Stopping, 0, 0), Task(Starting, 1, 0))
            && Occupies(s, 0) && Occupies(s, 1)
  {
    var work := [Media, w];
    states := MediaEnding(w);
    states := RunBegins(states, work, 2, 1, 1);
    states := RunAdvances(states, work, 2, 1);
    states := RunAdvances(states, work, 2, 1);
    assert states[|states| - 1]
           == Pair(w, [0, 1], [false, false], [Some(0), None], Task(Stopping, 0, 0), Task(WantStart, 1, 0));
    states := RunAdvances(states, work, 2, 1);
    states := RunAdvances(states, work, 2, 1);
    var s := states[|states| - 1];
    assert EndsAt(s.tasks[0], 0);
    assert s.tasks[1].pc.Starting? && s.tasks[1].model == 1;
  }

  /** The hot model is used meanwhile. */
  lemma HotUsed(w: Workload) returns (states: seq<State>)
    requires !w.Media?
    ensures Run(states, [Media, w], 2) && |states| > 0
    ensures states[|states| - 1]
            == Pair(w, [0, 1], [false, true], [Some(0), None], Task(Stopping, 0, 0), Task(WantRelease, 1, 0))
  {
    var work := [Media, w];
    states := OverlapHappens(w);
    states := RunAdvances(states, work, 2, 1);
    states := RunAdvances(states, work, 2, 1);
    states := RunAdvances(states, work, 2, 1);
  }

  /** And goes idle, its process left running. */
  lemma HotIdle(w: Workload) returns (states: seq<State>)
    requires !w.Media?
    ensures Run(states, [Media, w], 2) && |states| > 0
    ensures states[|states| - 1]
            == Pair(w, [0, 0], [false, true], [Some(0), None], Task(Stopping, 0, 0), Task(Idle, 1, 0))
  {
    var work := [Media, w];
    states := HotUsed(w);
    states := RunAdvances(states, work, 2, 1);
    states := RunAdvances(states, work, 2, 1);
    assert states[|states| - 1]
           == Pair(w, [0, 0], [false, true], [Some(0), None], Task(Stopping, 0, 0), Task(WantNotify, 1, 0));
    states := RunAdvances(states, work, 2, 1);
    states := RunAdvances(states, work, 2, 1);
  }

  /** So an eviction can overlap such a process too: the next media load stops the idle hot one. */
  lemma EvictionOverlapHappens(w: Workload) returns (states: seq<State>)
    requires !w.Media?
    ensures Run(states, [Media, w], 2) && |states| > 0
    ensures var s := states[|states| - 1];
            && s.tasks == [Task(Stopping, 0, 0), Task(Evicting, 0, 2)]
            && Occupies(s, 0) && Ending(s, 1)
  {
    var work := [Media, w];
    states := HotIdle(w);
    states := RunBegins(states, work, 2, 1, 0);
    states := RunAdvances(states, work, 2, 1);
    states := RunAdvances(states, work, 2, 1);
    var s := states[|states| - 1];
    assert EndsAt(s.tasks[0], 0) && EndsAt(s.tasks[1], 1);
  }

  /** A hot process under eviction overlaps no media process but one that an unload is ending. */
  lemma EvictionIsAlone(states: seq<State>, work: seq<Workload>, tasks: nat, i: nat, media: nat, t: nat)
    requires Run(states, work, tasks) && i < |states| && media < |work| && work[media].Media?
    requires t < tasks && states[i].tasks[t].pc.Evicting?
    ensures states[i].tasks[t].next > 0 && states[i].refs[media] == 0 && !Resident(states[i], media)
    ensures Occupies(states[i], media) <==> UnloadEnding(states[i], media)
  {
    RunEndings(states, work, tasks, i);
    assert EndingOk(states[i], states[i].tasks[t]);
    var hot := states[i].tasks[t].next - 1;
    assert EndsAt(states[i].tasks[t], hot);
    OverlapExactly(states, work, tasks, i, media, hot);
  }

  /**
   `references` counts exactly the tasks between reservation and release; one model is never
   started twice at once nor while it runs; an operation always finds its process running and
   runs alone on its model.
   */
  lemma SingleFlight(states: seq<State>, work: seq<Workload>, tasks: nat, i: nat, t: nat, u: nat)
    requires Run(states, work, tasks) && i < |states| && t < tasks && u < tasks
    ensures forall m :: 0 <= m < |work| ==> states[i].refs[m] == Count(states[i].tasks, m)
    ensures var s := states[i]; var a, b := s.tasks[t], s.tasks[u];
            && (Loaded(a) ==> s.running[a.model])
            && (a.pc.Starting? ==> !s.running[a.model])
            && (a.pc.Starting? && b.pc.Starting? && a.model == b.model ==> t == u)
            && (a.pc.InSession? && b.pc.InSession? && a.model == b.model ==> t == u)
  {
    RunKeeps(states, work, tasks, i);
  }

  /** unload never takes its early return, and stop is only called on a process in the table. */
  lemma ReleaseIsPaired(states: seq<State>, work: seq<Workload>, tasks: nat, i: nat, t: nat)
    requires Run(states, work, tasks) && i < |states| && t < tasks && states[i].tasks[t].pc.AtRelease?
    ensures states[i].refs[states[i].tasks[t].model] > 0
    ensures states[i].running[states[i].tasks[t].model]
    ensures !Advance(states[i], t).tasks[t].pc.Idle?
  {
    RunKeeps(states, work, tasks, i);
    Referenced(states[i]);
  }

  /** No lost wake-up: a parked load has a real conflict, or a release is about to notify it. */
  lemma ParkedIsJustified(states: seq<State>, work: seq<Workload>, tasks: nat, i: nat, t: nat)
    requires Run(states, work, tasks) && i < |states| && t < tasks && states[i].tasks[t].pc.Parked?
    ensures || Conflict(work, states[i].refs, states[i].tasks[t].model)
            || exists u :: 0 <= u < tasks && WillNotify(states[i].tasks[u])
  {
    RunKeeps(states, work, tasks, i);
  }

  /** Once every reference is released and every unload has returned, nobody is parked. */
  lemma NobodyLeftParked(states: seq<State>, work: seq<Workload>, tasks: nat, i: nat)
    requires Run(states, work, tasks) && i < |states|
    requires forall m :: 0 <= m < |work| ==> states[i].refs[m] == 0
    requires forall u :: 0 <= u < tasks ==> !WillNotify(states[i].tasks[u])
    ensures forall u :: 0 <= u < tasks ==> !states[i].tasks[u].pc.Parked?
  {
    RunKeeps(states, work, tasks, i);
  }

  /** A load waits exactly for a reference of the other group: a media one, unless it loads a media model itself. */
  lemma ParksExactly(s: State, t: nat)
    requires Inv(s) && t < |s.tasks| && s.tasks[t].pc.AtGate?
    ensures |Advance(s, t).tasks| == |s.tasks|
    ensures Advance(s, t).tasks[t].pc.Parked? <==>
            exists r :: 0 <= r < |s.work| && s.work[r].Media? != s.work[s.tasks[t].model].Media? && s.refs[r] > 0
  {
    assert forall r: nat :: r < |s.work| ==>
             (Rivals(s.work, s.tasks[t].model, r) <==> s.work[r].Media? != s.work[s.tasks[t].model].Media?);
  }

  /**
   A process enters the table only when its start returns. It leaves it with the last reference if it is
   a media one, and otherwise only unreferenced, for a media model that is being loaded.
   */
  lemma TableMoves(s: State, t: nat, m: nat)
    requires Inv(s) && Enabled(s, t) && m < |s.work|
    ensures Shape(Advance(s, t)) && Advance(s, t).work == s.work
    ensures !s.running[m] && Advance(s, t).running[m] <==> s.tasks[t].pc.Starting? && s.tasks[t].model == m
    ensures s.work[m].Media? ==>
              (s.running[m] && !Advance(s, t).running[m]
               <==> s.tasks[t].pc.AtRelease? && s.tasks[t].model == m && s.refs[m] == 1)
    ensures !s.work[m].Media? && s.running[m] && !Advance(s, t).running[m] ==>
              && s.refs[m] == 0 && s.work[s.tasks[t].model].Media?
              && (s.tasks[t].pc.AtGate? || s.tasks[t].pc.Evicting?)
              && Advance(s, t).tasks[t].pc.Evicting?
  {
    ShapeKept(s, t);
    Referenced(s);
  }

  // ------------------------------------------------------ progress and drainage

  /** Somebody `t` waits for, directly or not, can move. */
  lemma Unblocked(s: State, t: nat) returns (u: nat)
    requires Inv(s) && t < |s.tasks| && !s.tasks[t].pc.Idle? && !s.tasks[t].pc.Parked?
    ensures Enabled(s, u)
  {
    var m := s.tasks[t].model;
    match s.tasks[t].pc
    case WantGate => u := if s.gate.None? then t else s.gate.value;
    case WantNotify => u := if s.gate.None? then t else s.gate.value;
    case WantStart => u := if s.locks[m].None? then t else s.locks[m].value;
    case WantRelease => u := if s.locks[m].None? then t else s.locks[m].value;
    case WantSerial => u := if s.serial[m].None? then t else s.serial[m].value;
    case _ => u := t;
  }

  /** Deadlock freedom: while any session is open, some task can move. */
  lemma NoDeadlock(s: State, t: nat)
    requires Inv(s) && t < |s.tasks| && !s.tasks[t].pc.Idle?
    ensures exists u: nat :: Enabled(s, u)
  {
    var v: nat := t;
    if s.tasks[t].pc.Parked? { v := AwaitedBy(s, t); }
    var u := Unblocked(s, v);
  }

  /** A parked task waits for one that holds a conflicting reference or is about to notify. */
  lemma AwaitedBy(s: State, t: nat) returns (v: nat)
    requires Inv(s) && t < |s.tasks| && s.tasks[t].pc.Parked?
    ensures v < |s.tasks| && !s.tasks[v].pc.Idle? && !s.tasks[v].pc.Parked?
  {
    if Conflict(s.work, s.refs, s.tasks[t].model) {
      var r :| 0 <= r < |s.work| && Rivals(s.work, s.tasks[t].model, r) && s.refs[r] > 0;
      CountPositive(s.tasks, r);
      v :| v < |s.tasks| && Refers(s.tasks[v], r);
    } else {
      v :| v < |s.tasks| && WillNotify(s.tasks[v]);
    }
  }

  /** How far a task is from the end of its session, counting the specs still to be looked at. */
  function Rank(task: Task, models: nat): nat {
    match task.pc
    case WantGate => 14 + models
    case AtGate => 13 + models
    case Evicting => if task.next <= models then 12 + models - task.next else 0
    case Parked => 12
    case WantStart => 11
    case AtStart => 10
    case Starting => 9
    case WantSerial => 8
    case InSession => 7
    case WantRelease => 6
    case AtRelease => 5
    case Stopping => 4
    case WantNotify => 3
    case AtNotify => 2
    case Idle => 0
  }

  function Busy(tasks: seq<Task>): nat {
    if tasks == [] then 0 else (if tasks[0].pc.Idle? then 0 else 1) + Busy(tasks[1..])
  }

  function Ranks(tasks: seq<Task>, models: nat): nat {
    if tasks == [] then 0 else Rank(tasks[0], models) + Ranks(tasks[1..], models)
  }

  lemma {:induction false} MeasureUpdate(tasks: seq<Task>, t: nat, task: Task, models: nat)
    requires t < |tasks|
    ensures Busy(tasks[t := task]) ==
            Busy(tasks) - (if tasks[t].pc.Idle? then 0 else 1) + (if task.pc.Idle? then 0 else 1)
    ensures Ranks(tasks[t := task], models) == Ranks(tasks, models) - Rank(tasks[t], models) + Rank(task, models)
  {
    if t == 0 {
      assert tasks[t := task][1..] == tasks[1..];
    } else {
      assert tasks[t := task][1..] == tasks[1..][t - 1 := task];
      MeasureUpdate(tasks[1..], t - 1, task, models);
    }
  }

  lemma {:induction false} BusyAgrees(a: seq<Task>, b: seq<Task>)
    requires |a| == |b| && forall t :: 0 <= t < |a| ==> (a[t].pc.Idle? <==> b[t].pc.Idle?)
    ensures Busy(a) == Busy(b)
  {
    if a != [] { BusyAgrees(a[1..], b[1..]); }
  }

  lemma RankDrops(s: State, t: nat)
    requires Shape(s) && Enabled(s, t) && !s.tasks[t].pc.AtNotify?
    ensures |Advance(s, t).tasks| == |s.tasks|
    ensures Rank(Advance(s, t).tasks[t], |s.work|) < Rank(s.tasks[t], |s.work|)
  {
  }

  /**
   Every step but the arrival of a new session strictly decreases a bounded measure: a notification
   ends a session, and anything else brings its task closer to its end.
   */
  lemma StepsAreBounded(s: State, t: nat)
    requires Inv(s) && Enabled(s, t)
    ensures var s' := Advance(s, t);
            || Busy(s'.tasks) < Busy(s.tasks)
            || (Busy(s'.tasks) == Busy(s.tasks) && Ranks(s'.tasks, |s.work|) < Ranks(s.tasks, |s.work|))
  {
    var s' := Advance(s, t);
    if s.tasks[t].pc.AtNotify? {
      var woken := Woken(s.tasks);
      BusyAgrees(s.tasks, woken);
      MeasureUpdate(woken, t, s'.tasks[t], |s.work|);
    } else {
      RankDrops(s, t);
      MeasureUpdate(s.tasks, t, s'.tasks[t], |s.work|);
      assert s'.tasks == s.tasks[t := s'.tasks[t]];
    }
  }

  predicate AllIdle(s: State) {
    forall t :: 0 <= t < |s.tasks| ==> s.tasks[t].pc.Idle?
  }

  ghost predicate Scheduler(pick: State -> nat) {
    forall s: State, t: nat {:trigger Enabled(s, t)} :: Shape(s) && Enabled(s, t) ==> Enabled(s, pick(s))
  }

  /** Run a scheduler to the end; it needs only to pick some task that can move. */
  ghost function Drain(s: State, pick: State -> nat): (r: State)
    requires Inv(s) && Scheduler(pick)
    ensures Inv(r) && AllIdle(r) && r.work == s.work
    decreases Busy(s.tasks), Ranks(s.tasks, |s.work|)
  {
    if AllIdle(s) then s
    else
      var t :| 0 <= t < |s.tasks| && !s.tasks[t].pc.Idle?;
      NoDeadlock(s, t);
      AdvanceKeeps(s, pick(s));
      ShapeKept(s, pick(s));
      StepsAreBounded(s, pick(s));
      Drain(Advance(s, pick(s)), pick)
  }

  lemma IdleIsClean(s: State, m: nat)
    requires Inv(s) && AllIdle(s) && m < |s.work|
    ensures s.refs[m] == 0 && s.gate.None? && s.locks[m].None? && s.serial[m].None?
    ensures s.work[m].Media? ==> !s.running[m]
  {
    CountPositive(s.tasks, m);
  }

  /** With no new session, any scheduler whatsoever finishes them all and leaves the GPU clean. */
  lemma DrainLeavesNothing(s: State, pick: State -> nat, m: nat)
    requires Inv(s) && Scheduler(pick) && m < |s.work|
    ensures var r := Drain(s, pick);
            && r.refs[m] == 0 && r.gate.None? && r.locks[m].None? && r.serial[m].None?
            && (s.work[m].Media? ==> !r.running[m])
  {
    IdleIsClean(Drain(s, pick), m);
  }

  // ------------------------------------------------------------ the manager

  /** The manager's mutable state, with the code between two awaits as one method. */
  class InferenceProcessManager {
    const specs: seq<Workload>
    var references: seq<nat>
    var running: seq<bool>
    var gate: Option<nat>
    var locks: seq<Option<nat>>
    var serial: seq<Option<nat>>
    var tasks: seq<Task>

    ghost function View(): State
      reads this
    {
      State(specs, references, running, gate, locks, serial, tasks)
    }

    constructor (work: seq<Workload>, callers: nat)
      ensures View() == Init(work, callers)
    {
      specs := work;
      references := seq(|work|, _ => 0);
      running := seq(|work|, _ => false);
      gate := None;
      locks := seq(|work|, _ => None);
      serial := seq(|work|, _ => None);
      tasks := seq(callers, _ => Task(Idle, 0, 0));
    }

    /** _has_active_conflict: one of the other group's models is referenced. */
    method HasActiveConflict(m: nat) returns (conflict: bool)
      requires Shape(View()) && m < |specs|
      ensures conflict <==> exists r :: 0 <= r < |specs| && specs[r].Media? != specs[m].Media? && references[r] > 0
    {
      if specs[m].Media? {
        for r := 0 to |specs|
          invariant forall k :: 0 <= k < r ==> !(Hot(specs[k]) && references[k] > 0)
        {
          if references[r] > 0 && Hot(specs[r]) { return true; }
        }
        return false;
      }
      for r := 0 to |specs|
        invariant forall k :: 0 <= k < r ==> !(specs[k].Media? && references[k] > 0)
      {
        if references[r] > 0 && specs[r].Media? { return true; }
      }
      conflict := false;
    }

    /** The eviction loop from spec `from` to its next suspension, or through to the reservation. */
    method LeaveGate(t: nat, from: nat)
      requires Shape(View()) && t < |tasks| && !tasks[t].pc.Idle? && from <= |specs|
      modifies this
      ensures View() == PassGate(old(View()), t, from)
    {
      var m := tasks[t].model;
      if specs[m].Media? {
        var j := from;
        while j < |specs|
          invariant from <= j <= |specs|
          invariant NextIdleHot(specs, references, running, from) == NextIdleHot(specs, references, running, j)
        {
          if Hot(specs[j]) && references[j] == 0 && running[j] {
            running := running[j := false];
            tasks := tasks[t := tasks[t].(pc := Evicting, next := j + 1)];
            return;
          }
          j := j + 1;
        }
      }
      references := references[m := references[m] + 1];
      gate := None;
      tasks := tasks[t := tasks[t].(pc := if running[m] then WantSerial else WantStart)];
    }

    /** Resume task `t` at its suspension point and run it to the next one. */
    method Resume(t: nat)
      requires Shape(View()) && Enabled(View(), t)
      modifies this
      ensures View() == Advance(old(View()), t)
    {
      var m := tasks[t].model;
      var pc := tasks[t].pc;
      match tasks[t].pc {
      case WantGate => gate, pc := Some(t), AtGate;
      case AtGate =>
        var conflict := HasActiveConflict(m);
        assert conflict <==> Conflict(specs, references, m) by {
          assert forall r: nat :: r < |specs| ==> (Rivals(specs, m, r) <==> specs[r].Media? != specs[m].Media?);
        }
        if !conflict {
          LeaveGate(t, 0);
          return;
        }
        gate, pc := None, Parked;
      case Evicting =>
        LeaveGate(t, tasks[t].next);
        return;
      case WantStart => locks, pc := locks[m := Some(t)], AtStart;
      case AtStart =>
        if running[m] {
          locks, pc := locks[m := None], WantSerial;
        } else {
          pc := Starting;
        }
      case Starting => running, locks, pc := running[m := true], locks[m := None], WantSerial;
      case WantSerial => serial, pc := serial[m := Some(t)], InSession;
      case InSession => serial, pc := serial[m := None], WantRelease;
      case WantRelease => locks, pc := locks[m := Some(t)], AtRelease;
      case AtRelease =>
        if references[m] == 0 {
          locks, pc := locks[m := None], Idle;
        } else {
          references := references[m := references[m] - 1];
          if references[m] == 0 && !Hot(specs[m]) {
            running, pc := running[m := false], Stopping;
          } else {
            locks, pc := locks[m := None], WantNotify;
          }
        }
      case Stopping => locks, pc := locks[m := None], WantNotify;
      case WantNotify => gate, pc := Some(t), AtNotify;
      case AtNotify =>
        tasks := Woken(tasks);
        gate, pc := None, Idle;
      }
      tasks := tasks[t := tasks[t].(pc := pc)];
    }
  }
}
