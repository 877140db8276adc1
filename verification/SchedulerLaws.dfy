/** What each handler does to each task, in one table, and what follows over runs: how long a sleeper sleeps, with which
    frame a task is resumed, and that a key brings its reader back. */
module SchedulerLaws {
  import opened SchedulerSpec
  import opened SchedulerSafety

  // ---------- the table ----------

  /** The run state of task `i` after an event: only the current task is stopped, put to sleep or made to wait; a
      sleeper becomes runnable at the tick it asked for, and whoever waits for input at the next wake-up. */
  function StateAfter(s: Sched, e: Event, i: nat): (r: RunState)
    requires i < |s.tasks|
  {
    var t, mine := s.tasks[i], s.current == Of(i);
    match e
    case Timer(_) => if t.state == Sleeping && t.wake <= s.ticks + 1 then Runnable else t.state
    case Exit(_, _) => if mine then Stopped else t.state
    case Fault(_, _) => if mine then Stopped else t.state
    case YieldCall(_) => t.state
    case SleepCall(_, n) => if mine && n > 0 then Sleeping else t.state
    case WaitCall(_) => if mine then WaitingInput else t.state
    case Wake => if t.state == WaitingInput then Runnable else t.state
    case Spawn(_, _) => t.state
  }

  /** The frame an event was entered with, if it has one. */
  function EventFrame(e: Event): (f: Frame)
    requires !e.Wake?
  {
    e.f
  }

  /** The event leaves the current task alive and saves its registers. */
  predicate Suspends(e: Event) {
    e.Timer? || e.YieldCall? || e.SleepCall? || e.WaitCall?
  }

  predicate Ends(e: Event) {
    e.Exit? || e.Fault?
  }

  /** What is left of task `i` after an event. */
  ghost predicate Follows(s: Sched, e: Event, i: nat, t': Task)
    requires i < |s.tasks|
  {
    var t, mine := s.tasks[i], s.current == Of(i);
    && t'.state == StateAfter(s, e, i)
    && (!mine ==> t'.frame == t.frame)
    && (mine && Suspends(e) ==> t'.frame == EventFrame(e))
    && t'.wake == (if mine && e.SleepCall? && e.n > 0 then s.ticks + e.n else t.wake)
    && t'.status == (if mine && e.Exit? then e.status else if mine && e.Fault? then 128 + e.vector else t.status)
    && (!(mine && Ends(e)) ==> t'.user == t.user && t'.hasStack == t.hasStack && t'.released == t.released)
    && (mine && Ends(e) ==> t'.released && !t'.user)
  }

  lemma TickLaw(s: Sched, f: Frame, i: nat)
    requires SchedOk(s) && i < |s.tasks|
    ensures |OnTick(s, f).tasks| == |s.tasks| && Follows(s, Timer(f), i, OnTick(s, f).tasks[i])
    ensures OnTick(s, f).ticks == s.ticks + 1
  {
    TickedKeeps(s, f);
    var t := Ticked(s, f);
    assert t.tasks[i].frame == if s.current == Of(i) then f else s.tasks[i].frame;
    hide StacksOk, Dispatch, Ticked, Reversed;
    DispatchTasks(t, i);
  }

  lemma FinishLaw(s: Sched, f: Frame, status: nat, i: nat)
    requires SchedOk(s) && i < |s.tasks|
    ensures var s' := Finish(s, f, status);
            && |s'.tasks| == |s.tasks| && Follows(s, Exit(f, status), i, s'.tasks[i]) && s'.ticks == s.ticks
  {
    hide StacksOk, Dispatch;
    if s.current.Of? {
      var c := s.current.i;
      var m := WithTask(s, c, s.tasks[c].(frame := f, state := Stopped, status := status));
      DispatchTasks(m, i);
      DispatchTasks(m, c);
    }
  }

  lemma FaultLaw(s: Sched, f: Frame, vector: nat, i: nat)
    requires SchedOk(s) && i < |s.tasks|
    ensures var s' := Finish(s, f, 128 + vector);
            && |s'.tasks| == |s.tasks| && Follows(s, Fault(f, vector), i, s'.tasks[i]) && s'.ticks == s.ticks
  {
    hide SchedOk, Finish;
    FinishLaw(s, f, 128 + vector, i);
  }

  lemma SleepLaw(s: Sched, f: Frame, n: nat, i: nat)
    requires SchedOk(s) && i < |s.tasks|
    ensures var s' := SleepFor(s, f, n);
            && |s'.tasks| == |s.tasks| && Follows(s, SleepCall(f, n), i, s'.tasks[i]) && s'.ticks == s.ticks
  {
    hide StacksOk, Dispatch;
    if s.current.Of? {
      var c := s.current.i;
      var t := if n == 0 then s.tasks[c].(frame := f)
               else s.tasks[c].(frame := f, state := Sleeping, wake := s.ticks + n);
      DispatchTasks(WithTask(s, c, t), i);
    }
  }

  lemma YieldLaw(s: Sched, f: Frame, i: nat)
    requires SchedOk(s) && i < |s.tasks|
    ensures var s' := Yield(s, f);
            && |s'.tasks| == |s.tasks| && Follows(s, YieldCall(f), i, s'.tasks[i]) && s'.ticks == s.ticks
  {
    hide StacksOk, Dispatch;
    if s.current.Of? { DispatchTasks(Save(s, f), i); }
  }

  lemma WaitLaw(s: Sched, f: Frame, i: nat)
    requires SchedOk(s) && i < |s.tasks|
    ensures var s' := WaitInput(s, f);
            && |s'.tasks| == |s.tasks| && Follows(s, WaitCall(f), i, s'.tasks[i]) && s'.ticks == s.ticks
  {
    hide StacksOk, Dispatch;
    if s.current.Of? {
      var c := s.current.i;
      DispatchTasks(WithTask(s, c, s.tasks[c].(frame := f, state := WaitingInput)), i);
    }
  }

  /** Every handler does to every task what the table says, and only a tick moves the clock. */
  lemma StepLaw(s: Sched, e: Event, i: nat)
    requires SchedOk(s) && i < |s.tasks|
    ensures |Next(s, e).tasks| >= |s.tasks| && Follows(s, e, i, Next(s, e).tasks[i])
    ensures Next(s, e).ticks == s.ticks + IsTick(e)
  {
    hide SchedOk, OnTick, Finish, Yield, SleepFor, WaitInput;
    match e
    case Timer(f) => TickLaw(s, f, i);
    case Exit(f, status) => FinishLaw(s, f, status, i);
    case Fault(f, vector) => FaultLaw(s, f, vector, i);
    case YieldCall(f) => YieldLaw(s, f, i);
    case SleepCall(f, n) => SleepLaw(s, f, n, i);
    case WaitCall(f) => WaitLaw(s, f, i);
    case Wake =>
    case Spawn(user, f) =>
  }

  /** The current task keeps the processor until it gives way or its quantum ends; the quantum counts the ticks. */
  lemma QuantumLaw(s: Sched, e: Event)
    requires SchedOk(s) && s.current.Of? && !Decides(s, e)
    ensures Next(s, e).current == s.current && Next(s, e).quantum == s.quantum + IsTick(e)
  {
    hide StacksOk, Dispatch, Reversed;
    if e.Timer? { TickedKeeps(s, e.f); }
  }

  /** A decision starts a new quantum, with the boot task exactly when nothing is runnable. */
  ghost predicate Decided(s: Sched) {
    s.quantum == 0 && !s.current.NoTask? && (s.current == Boot <==> NoneRunnable(s.tasks))
  }

  lemma DecisionLaw(s: Sched, e: Event)
    requires SchedOk(s) && Decides(s, e)
    ensures Decided(Next(s, e))
  {
    hide StacksOk, Dispatch, Reversed, Ticked, Release, Decided;
    match e
    case Timer(f) => {
      TickedKeeps(s, f);
      DispatchDecides(Ticked(s, f));
    }
    case Exit(f, status) => FinishDecides(s, f, status);
    case Fault(f, vector) => FinishDecides(s, f, 128 + vector);
    case YieldCall(f) => ChangeDecides(s, s.tasks[s.current.i].(frame := f));
    case SleepCall(f, n) =>
      ChangeDecides(s, if n == 0 then s.tasks[s.current.i].(frame := f)
                       else s.tasks[s.current.i].(frame := f, state := Sleeping, wake := s.ticks + n));
    case WaitCall(f) => ChangeDecides(s, s.tasks[s.current.i].(frame := f, state := WaitingInput));
  }

  lemma DispatchDecides(s: Sched)
    requires TasksOk(s)
    ensures Decided(Dispatch(s))
  {
    DispatchKeeps(s);
    hide StacksOk, Dispatch;
  }

  lemma ChangeDecides(s: Sched, t: Task)
    requires SchedOk(s) && s.current.Of? && s.current.i < |s.tasks| && SameLife(s.tasks[s.current.i], t)
    ensures Decided(Dispatch(WithTask(s, s.current.i, t)))
  {
    CurrentLive(s);
    LifeKeeps(s, WithTask(s, s.current.i, t));
    hide SchedOk, StacksOk, Dispatch, Decided;
    DispatchDecides(WithTask(s, s.current.i, t));
  }

  lemma FinishDecides(s: Sched, f: Frame, status: nat)
    requires SchedOk(s) && s.current.Of? && s.current.i < |s.tasks|
    ensures Decided(Finish(s, f, status))
  {
    var i := s.current.i;
    var t := s.tasks[i].(frame := f, state := Stopped, status := status);
    ChangeDecides(s, t);
    hide SchedOk, Dispatch;
    ReleaseStates(Dispatch(WithTask(s, i, t)), i);
  }

  lemma ReleaseStates(s: Sched, i: nat)
    ensures Decided(Release(s, i)) == Decided(s)
  {
    assert |Release(s, i).tasks| == |s.tasks|;
    assert forall k :: 0 <= k < |s.tasks| ==> Release(s, i).tasks[k].state == s.tasks[k].state;
  }

  /** The boot task's frame is saved by the ticks that interrupt it, and by nothing else. */
  lemma BootLaw(s: Sched, e: Event)
    requires SchedOk(s)
    ensures Next(s, e).boot == if e.Timer? && s.tasks != [] && !s.current.Of? then e.f else s.boot
  {
    hide StacksOk, Reversed, Scan;
    match e
    case Timer(f) =>
    case Exit(f, status) => FinishBoot(s, f, status);
    case Fault(f, vector) => FinishBoot(s, f, 128 + vector);
    case YieldCall(f) =>
    case SleepCall(f, n) =>
    case WaitCall(f) =>
    case Wake =>
    case Spawn(user, f) =>
  }

  lemma FinishBoot(s: Sched, f: Frame, status: nat)
    ensures Finish(s, f, status).boot == s.boot
  {
    hide Scan;
  }

  /** A new task is runnable with the frame it was given, its own stack and nothing else. */
  lemma SpawnLaw(s: Sched, user: bool, f: Frame)
    requires |s.tasks| < MAX_TASKS
    ensures var s' := Next(s, Spawn(user, f));
            && |s'.tasks| == |s.tasks| + 1 && s'.tasks[..|s.tasks|] == s.tasks && s' == s.(tasks := s'.tasks)
            && var t := s'.tasks[|s.tasks|];
               t.state == Runnable && t.frame == f && t.user == user && t.hasStack && !t.released && t.switches == 0
  {
  }

  // ---------- sleeping ----------

  /** Over a run the clock advances by the ticks in it. */
  lemma {:induction false} ClockCounts(s: Sched, events: seq<Event>)
    requires SchedOk(s) && s.tasks != []
    ensures |Run(s, events).tasks| >= |s.tasks| && Run(s, events).ticks == s.ticks + Ticks(events)
    decreases |events|
  {
    hide SchedOk, Next;
    if events != [] {
      StepLaw(s, events[0], 0);
      StepKeeps(s, events[0]);
      ClockCounts(Next(s, events[0]), events[1..]);
    }
  }

  lemma CurrentRunnable(s: Sched, i: nat)
    requires SchedOk(s) && i < |s.tasks| && s.current == Of(i)
    ensures s.tasks[i].state == Runnable
  {
    hide StacksOk;
  }

  /** A sleeper stays asleep before its tick. */
  lemma {:induction false} Asleep(s: Sched, events: seq<Event>, i: nat)
    requires SchedOk(s) && i < |s.tasks| && s.tasks[i].state == Sleeping
    requires s.ticks + Ticks(events) < s.tasks[i].wake
    ensures var t := Run(s, events);
            i < |t.tasks| && t.tasks[i].state == Sleeping && t.tasks[i].wake == s.tasks[i].wake
    decreases |events|
  {
    if events != [] {
      StepLaw(s, events[0], i);
      StepKeeps(s, events[0]);
      if s.current == Of(i) { CurrentRunnable(s, i); }
      hide SchedOk, Next;
      Asleep(Next(s, events[0]), events[1..], i);
    }
  }

  /** A task that asks to sleep for `n` ticks is asleep until the n-th tick, whatever else happens, and runnable after
      it. */
  lemma SleepsExactly(s: Sched, f: Frame, n: nat, events: seq<Event>, g: Frame)
    requires SchedOk(s) && s.current.Of? && n > 0 && s.current.i < |s.tasks|
    ensures var i, r := s.current.i, Run(Next(s, SleepCall(f, n)), events);
            && (Ticks(events) < n ==> i < |r.tasks| && r.tasks[i].state == Sleeping)
            && (Ticks(events) == n - 1 ==>
                  i < |Next(r, Timer(g)).tasks| && Next(r, Timer(g)).tasks[i].state == Runnable)
  {
    var i, s1 := s.current.i, Next(s, SleepCall(f, n));
    StepLaw(s, SleepCall(f, n), i);
    StepKeeps(s, SleepCall(f, n));
    hide SchedOk, Next;
    ClockCounts(s1, events);
    RunKeeps(s1, events);
    if Ticks(events) < n {
      Asleep(s1, events, i);
      StepLaw(Run(s1, events), Timer(g), i);
    }
  }

  // ---------- resuming ----------

  /** While a task is not current its saved frame does not change. */
  lemma {:induction false} Parked(s: Sched, events: seq<Event>, i: nat)
    requires SchedOk(s) && i < |s.tasks|
    requires forall k: nat :: k < |events| ==> Run(s, events[..k]).current != Of(i)
    ensures i < |Run(s, events).tasks| && Run(s, events).tasks[i].frame == s.tasks[i].frame
    decreases |events|
  {
    hide SchedOk, Next;
    if events != [] {
      assert events[..0] == [];
      assert Run(s, events[..0]).current != Of(i);
      StepLaw(s, events[0], i);
      StepKeeps(s, events[0]);
      forall k: nat | k < |events| - 1 ensures Run(Next(s, events[0]), events[1..][..k]).current != Of(i) {
        assert events[..k + 1][1..] == events[1..][..k];
        assert Run(s, events[..k + 1]).current != Of(i);
      }
      Parked(Next(s, events[0]), events[1..], i);
    }
  }

  /** The boot task is resumed with the frame of the last tick that interrupted it. */
  lemma {:induction false} BootParked(s: Sched, events: seq<Event>)
    requires SchedOk(s) && forall k: nat :: k < |events| ==> Run(s, events[..k]).current.Of?
    ensures Run(s, events).boot == s.boot
    decreases |events|
  {
    hide SchedOk, Next;
    if events != [] {
      assert events[..0] == [];
      assert Run(s, events[..0]).current.Of?;
      BootLaw(s, events[0]);
      StepKeeps(s, events[0]);
      forall k: nat | k < |events| - 1 ensures Run(Next(s, events[0]), events[1..][..k]).current.Of? {
        assert events[..k + 1][1..] == events[1..][..k];
        assert Run(s, events[..k + 1]).current.Of?;
      }
      BootParked(Next(s, events[0]), events[1..]);
    }
  }

  /** A task is resumed with exactly the frame it was suspended with. */
  lemma ResumedWith(s: Sched, e: Event, events: seq<Event>, i: nat)
    requires SchedOk(s) && i < |s.tasks| && s.current == Of(i) && Suspends(e)
    requires forall k: nat :: k < |events| ==> Run(Next(s, e), events[..k]).current != Of(i)
    requires Run(Next(s, e), events).current == Of(i)
    ensures FrameOf(Run(Next(s, e), events)) == EventFrame(e)
  {
    StepLaw(s, e, i);
    StepKeeps(s, e);
    hide SchedOk, Next, Run;
    Parked(Next(s, e), events, i);
  }

  // ---------- waking readers ----------

  /** Every task that waits for input becomes runnable and is otherwise unchanged; nothing else happens. */
  ghost predicate ReadersWoken(s: Sched, s': Sched) {
    && |s'.tasks| == |s.tasks| && s' == s.(tasks := s'.tasks)
    && forall i :: 0 <= i < |s.tasks| ==>
         s'.tasks[i] == if s.tasks[i].state == WaitingInput then s.tasks[i].(state := Runnable) else s.tasks[i]
  }

  lemma WakeLaw(s: Sched)
    ensures ReadersWoken(s, WakeInput(s))
  {
  }

  /** A reader that was blocked when a key came is dispatched within as many decisions as there are tasks, if it stays
      runnable and no task is created. */
  lemma ReaderComesBack(s: Sched, s': Sched, events: seq<Event>, j: nat)
    requires SchedOk(s') && ReadersWoken(s, s') && j < |s.tasks| && s.tasks[j].state == WaitingInput
    requires StaysRunnable(s', events, j)
    requires Decisions(s', events) >= |s.tasks| || Ticks(events) >= QUANTUM * |s.tasks|
    ensures s'.tasks[j].state == Runnable
    ensures exists k: nat :: k <= |events| && Run(s', events[..k]).current == Of(j)
  {
    hide SchedOk;
    Dispatched(s', events, j);
  }
}
