/** Round-robin dispatch as functions on the scheduler state; each interrupt or system-call handler is one step. */
module SchedulerSpec {
  const MAX_TASKS: nat := 8
  const QUANTUM: nat := 25
  const MAX_PENDING: nat := 8

  /** The saved registers that matter here: the instruction pointer and the result register. */
  datatype Frame = Frame(rip: int, rax: int)

  const NO_FRAME: Frame := Frame(0, 0)

  datatype RunState = Runnable | Sleeping | WaitingInput | Stopped

  /** `user` says that the task has its own address space, `hasStack` that it still holds its kernel stack. */
  datatype Task = Task(user: bool, hasStack: bool, frame: Frame, state: RunState, wake: nat, status: nat,
                       switches: nat, released: bool)

  datatype Current = NoTask | Boot | Of(i: nat)

  /** `pending` lists the tasks whose stacks wait to be freed, `freed` those whose stacks went back to the heap. */
  datatype Sched = Sched(tasks: seq<Task>, boot: Frame, current: Current, index: nat, quantum: nat, ticks: nat,
                         pending: seq<nat>, freed: seq<nat>)

  // ---------- choosing the next task ----------

  /** Scans `left` tasks after `index`, cyclically, for a runnable one. */
  function Scan(tasks: seq<Task>, index: nat, left: nat): (r: (nat, bool))
    requires tasks != []
    decreases left
  {
    if left == 0 then (index, false)
    else
      var j := (index + 1) % |tasks|;
      if tasks[j].state.Runnable? then (j, true) else Scan(tasks, j, left - 1)
  }

  function PickIndex(s: Sched): nat {
    if s.tasks == [] then s.index else Scan(s.tasks, s.index, |s.tasks|).0
  }

  function Picked(s: Sched): Current {
    if s.tasks != [] && Scan(s.tasks, s.index, |s.tasks|).1 then Of(Scan(s.tasks, s.index, |s.tasks|).0) else Boot
  }

  function FrameOf(s: Sched): Frame {
    if s.current.Of? && s.current.i < |s.tasks| then s.tasks[s.current.i].frame else s.boot
  }

  function WithTask(s: Sched, i: nat, t: Task): Sched
    requires i < |s.tasks|
  {
    s.(tasks := s.tasks[i := t])
  }

  /** Dispatches the next runnable task, or the boot task. */
  function Dispatch(s: Sched): (s': Sched) {
    var next := Picked(s);
    var t := s.(index := PickIndex(s), quantum := 0);
    if next == s.current then t
    else if next.Of? && next.i < |s.tasks| then
      WithTask(t, next.i, s.tasks[next.i].(switches := s.tasks[next.i].switches + 1)).(current := next)
    else t.(current := next)
  }

  // ---------- handlers ----------

  function Save(s: Sched, f: Frame): Sched {
    if s.current.Of? && s.current.i < |s.tasks| then WithTask(s, s.current.i, s.tasks[s.current.i].(frame := f))
    else if s.current.Boot? then s.(boot := f) else s
  }

  function EnsureBoot(s: Sched, f: Frame): Sched {
    if !s.current.NoTask? then s
    else s.(boot := f, current := Boot, index := if |s.tasks| == 0 then 0 else |s.tasks| - 1)
  }

  function Woken(t: Task, now: nat): Task {
    if t.state.Sleeping? && t.wake <= now then t.(state := Runnable) else t
  }

  function Reversed(s: seq<nat>): (r: seq<nat>)
    ensures |r| == |s|
  {
    if s == [] then [] else [s[|s| - 1]] + Reversed(s[..|s| - 1])
  }

  /** The part of a tick before the quantum is looked at. */
  function Ticked(s: Sched, f: Frame): Sched {
    var b := EnsureBoot(s, f);
    var now := b.ticks + 1;
    Save(b.(ticks := now, freed := b.freed + Reversed(b.pending), pending := [],
            tasks := seq(|b.tasks|, i requires 0 <= i < |b.tasks| => Woken(b.tasks[i], now))), f)
  }

  function OnTick(s: Sched, f: Frame): (s': Sched) {
    if s.tasks == [] then s
    else
      var t := Ticked(s, f);
      if t.quantum + 1 < QUANTUM then t.(quantum := t.quantum + 1) else Dispatch(t)
  }

  /** Gives up what a finished task holds; its kernel stack is only queued, since the handler still runs on it. */
  function Release(s: Sched, i: nat): (s': Sched) {
    if i >= |s.tasks| || s.tasks[i].released then s
    else
      var t := s.tasks[i];
      if !t.user then WithTask(s, i, t.(released := true))
      else if t.hasStack then
        WithTask(s, i,
                 t.(user := false, released := true, hasStack := false, frame := NO_FRAME)).(pending := s.pending + [i])
      else WithTask(s, i, t.(user := false, released := true))
  }

  function Finish(s: Sched, f: Frame, status: nat): (s': Sched) {
    if !s.current.Of? || s.current.i >= |s.tasks| then s
    else
      var i := s.current.i;
      Release(Dispatch(WithTask(s, i, s.tasks[i].(frame := f, state := Stopped, status := status))), i)
  }

  function Yield(s: Sched, f: Frame): (s': Sched) {
    if s.current.Of? then Dispatch(Save(s, f)) else s
  }

  function SleepFor(s: Sched, f: Frame, n: nat): (s': Sched) {
    if n == 0 then Yield(s, f)
    else if !s.current.Of? || s.current.i >= |s.tasks| then s
    else
      var i := s.current.i;
      Dispatch(WithTask(s, i, s.tasks[i].(frame := f, state := Sleeping, wake := s.ticks + n)))
  }

  function WaitInput(s: Sched, f: Frame): (s': Sched) {
    if !s.current.Of? || s.current.i >= |s.tasks| then s
    else
      var i := s.current.i;
      Dispatch(WithTask(s, i, s.tasks[i].(frame := f, state := WaitingInput)))
  }

  function Roused(t: Task): Task {
    if t.state.WaitingInput? then t.(state := Runnable) else t
  }

  function WakeInput(s: Sched): (s': Sched) {
    s.(tasks := seq(|s.tasks|, i requires 0 <= i < |s.tasks| => Roused(s.tasks[i])))
  }

  function NewTask(user: bool, f: Frame): Task {
    Task(user, true, f, Runnable, 0, 0, 0, false)
  }

  function Create(s: Sched, user: bool, f: Frame): (s': Sched) {
    if |s.tasks| >= MAX_TASKS then s else s.(tasks := s.tasks + [NewTask(user, f)])
  }

  datatype Event =
    | Timer(f: Frame) | Exit(f: Frame, status: nat) | Fault(f: Frame, vector: nat) | YieldCall(f: Frame)
    | SleepCall(f: Frame, n: nat) | WaitCall(f: Frame) | Wake | Spawn(user: bool, f: Frame)

  function Next(s: Sched, e: Event): (s': Sched) {
    match e
    case Timer(f) => OnTick(s, f)
    case Exit(f, status) => Finish(s, f, status)
    case Fault(f, vector) => Finish(s, f, 128 + vector)
    case YieldCall(f) => Yield(s, f)
    case SleepCall(f, n) => SleepFor(s, f, n)
    case WaitCall(f) => WaitInput(s, f)
    case Wake => WakeInput(s)
    case Spawn(user, f) => Create(s, user, f)
  }

  // ---------- the scan ----------

  /** Steps from `index` to `j`, at least 1, going round. */
  function Distance(n: nat, index: nat, j: nat): (d: int)
    requires index < n && j < n
    ensures 1 <= d <= n
  {
    if j > index then j - index else j - index + n
  }

  lemma DistanceStep(n: nat, index: nat, j: nat)
    requires index < n && j < n
    ensures var k := (index + 1) % n;
            k < n && Distance(n, index, k) == 1 && (k != j ==> Distance(n, k, j) == Distance(n, index, j) - 1)
  {
    if index + 1 < n { SmallMod(index + 1, n); } else { assert (index + 1) % n == 0; }
  }

  lemma SmallMod(a: nat, n: nat)
    requires a < n
    ensures a % n == a
  {
  }

  /** The scan finds the nearest runnable task after `index`, if there is one within `left` steps. */
  lemma {:induction false} ScanFinds(tasks: seq<Task>, index: nat, left: nat, j: nat)
    requires index < |tasks| && j < |tasks| && tasks[j].state.Runnable? && Distance(|tasks|, index, j) <= left
    ensures var r := Scan(tasks, index, left);
            && r.1 && r.0 < |tasks| && tasks[r.0].state.Runnable?
            && (r.0 == j || Distance(|tasks|, r.0, j) < Distance(|tasks|, index, j))
    decreases left
  {
    DistanceStep(|tasks|, index, j);
    var k := (index + 1) % |tasks|;
    if k != j && !tasks[k].state.Runnable? { ScanFinds(tasks, k, left - 1, j); }
  }

  lemma {:induction false} ScanSound(tasks: seq<Task>, index: nat, left: nat)
    requires index < |tasks|
    ensures var r := Scan(tasks, index, left);
            r.0 < |tasks| && (r.1 ==> tasks[r.0].state.Runnable?)
    decreases left
  {
    if left > 0 {
      DistanceStep(|tasks|, index, index);
      ScanSound(tasks, (index + 1) % |tasks|, left - 1);
    }
  }

  ghost predicate NoneRunnable(tasks: seq<Task>) {
    forall j :: 0 <= j < |tasks| ==> !tasks[j].state.Runnable?
  }

  /** The boot task is chosen exactly when no task is runnable; otherwise the choice is a runnable task. */
  lemma PickSound(s: Sched)
    requires s.tasks == [] || s.index < |s.tasks|
    ensures Picked(s) == Boot <==> NoneRunnable(s.tasks)
    ensures Picked(s) != Boot ==>
              Picked(s).Of? && Picked(s).i < |s.tasks| && s.tasks[Picked(s).i].state.Runnable?
              && PickIndex(s) == Picked(s).i
    ensures s.tasks == [] || PickIndex(s) < |s.tasks|
  {
    if s.tasks != [] {
      ScanSound(s.tasks, s.index, |s.tasks|);
      forall j: nat | j < |s.tasks| && s.tasks[j].state.Runnable? ensures Picked(s) != Boot {
        ScanFinds(s.tasks, s.index, |s.tasks|, j);
      }
    }
  }
}
