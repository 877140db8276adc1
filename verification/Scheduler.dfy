/** The scheduler's handlers, working in place on the task table. */
module Schedulers {
  import opened SchedulerSpec
  import opened SchedulerSafety
  import opened SchedulerLaws

  class Scheduler {
    var tasks: seq<Task>
    var boot: Frame
    var current: Current
    var index: nat
    var quantum: nat
    var ticks: nat
    var pending: seq<nat>
    ghost var freed: seq<nat>

    ghost function Now(): Sched
      reads this
    {
      Sched(tasks, boot, current, index, quantum, ticks, pending, freed)
    }

    ghost predicate Valid()
      reads this
    {
      SchedOk(Now())
    }

    constructor ()
      ensures Valid() && tasks == [] && current == NoTask && pending == [] && freed == []
    {
      tasks, boot, current, index, quantum, ticks, pending, freed := [], NO_FRAME, NoTask, 0, 0, 0, [], [];
    }

    /** Advances the round-robin index to the next runnable task, or all the way round. */
    method NextRunnable() returns (next: Current)
      requires tasks == [] || index < |tasks|
      modifies this`index
      ensures next == Picked(old(Now())) && index == PickIndex(old(Now()))
    {
      if |tasks| == 0 {
        return Boot;
      }
      ghost var goal := Scan(tasks, index, |tasks|);
      for i := 0 to |tasks|
        invariant index < |tasks| && Scan(tasks, index, |tasks| - i) == goal
      {
        index := (index + 1) % |tasks|;
        if tasks[index].state.Runnable? {
          return Of(index);
        }
      }
      next := Boot;
    }

    /** Makes a task current and returns the frame to resume. */
    method SwitchTo(next: Current) returns (f: Frame)
      requires next.Of? ==> next.i < |tasks|
      modifies this`current, this`tasks
      ensures f == FrameOf(Now())
      ensures current == next
      ensures tasks == if next.Of? && next != old(current) then
                         old(tasks)[next.i := old(tasks)[next.i].(switches := old(tasks)[next.i].switches + 1)]
                           else old(tasks)
    {
      if next != current {
        current := next;
        if next.Of? {
          tasks := tasks[next.i := tasks[next.i].(switches := tasks[next.i].switches + 1)];
        }
      }
      f := if current.Of? then tasks[current.i].frame else boot;
    }

    /** Picks the next task and switches to it. */
    method DispatchNext() returns (f: Frame)
      requires tasks == [] || index < |tasks|
      modifies this`index, this`quantum, this`current, this`tasks
      ensures Now() == Dispatch(old(Now())) && f == FrameOf(Now())
    {
      PickSound(Now());
      hide Picked, PickIndex;
      quantum := 0;
      var next := NextRunnable();
      f := SwitchTo(next);
    }

    method WakeSleeping()
      modifies this`tasks
      ensures |tasks| == |old(tasks)| && forall k :: 0 <= k < |tasks| ==> tasks[k] == Woken(old(tasks)[k], ticks)
    {
      ghost var was := tasks;
      for i := 0 to |tasks|
        invariant |tasks| == |was|
        invariant forall k :: 0 <= k < i ==> tasks[k] == Woken(was[k], ticks)
        invariant forall k :: i <= k < |tasks| ==> tasks[k] == was[k]
      {
        if tasks[i].state.Sleeping? && tasks[i].wake <= ticks {
          tasks := tasks[i := tasks[i].(state := Runnable)];
        }
      }
    }

    /** Frees the queued stacks, last queued first. */
    method ReclaimStacks()
      modifies this`pending, this`freed
      ensures pending == [] && freed == old(freed) + Reversed(old(pending))
    {
      ghost var goal := freed + Reversed(pending);
      while |pending| > 0
        invariant freed + Reversed(pending) == goal
      {
        freed := freed + [pending[|pending| - 1]];
        pending := pending[..|pending| - 1];
      }
    }

    /** One timer tick. */
    method OnTimerTick(frame: Frame) returns (f: Frame)
      requires Valid()
      modifies this
      ensures Valid() && Now() == OnTick(old(Now()), frame) && (old(tasks) != [] ==> f == FrameOf(Now()))
    {
      hide SchedOk, Dispatch, Reversed;
      ghost var s := Now();
      TickKeeps(s, frame);
      if |tasks| == 0 {
        return frame;
      }
      TickedKeeps(s, frame);
      if current.Of? { CurrentLive(s); }
      if current.NoTask? {
        boot, current, index := frame, Boot, |tasks| - 1;
      }
      ticks := ticks + 1;
      ReclaimStacks();
      WakeSleeping();
      SaveFrame(frame);
      assert Now() == Ticked(s, frame);
      quantum := quantum + 1;
      if quantum < QUANTUM {
        return frame;
      }
      DispatchForgets(Ticked(s, frame), quantum);
      IndexOk(Ticked(s, frame));
      f := DispatchNext();
    }

    method SaveFrame(frame: Frame)
      requires current.Of? ==> current.i < |tasks|
      modifies this`tasks, this`boot
      ensures Now() == Save(old(Now()), frame)
    {
      if current.Of? {
        tasks := tasks[current.i := tasks[current.i].(frame := frame)];
      } else if current.Boot? {
        boot := frame;
      }
    }

    /** Ends the current task, by exit or by fault; the queue of stacks to free never overflows. */
    method FinishCurrent(frame: Frame, status: nat) returns (f: Frame, ok: bool)
      requires Valid()
      modifies this
      ensures ok
      ensures Valid() && Now() == Finish(old(Now()), frame, status) && (old(current.Of?) ==> f == FrameOf(Now()))
      ensures old(current.Of?) ==> current != old(current)
    {
      hide SchedOk, Dispatch;
      ghost var s := Now();
      FinishKeeps(s, frame, status);
      if !current.Of? {
        return frame, true;
      }
      CurrentLive(s);
      IndexOk(s);
      var finished := current.i;
      tasks := tasks[finished := tasks[finished].(frame := frame, state := Stopped, status := status)];
      ghost var m := Now();
      DispatchTasks(m, finished);
      f := DispatchNext();
      ReleaseFrame(Now(), finished);
      FinishRoom(s, frame, status);
      ok := ReleaseResources(finished);
    }

    /** Gives up a finished task's resources; false where the kernel would panic because the queue is full. */
    method ReleaseResources(i: nat) returns (ok: bool)
      requires i < |tasks|
      modifies this`tasks, this`pending
      ensures |old(pending)| < MAX_PENDING ==> ok
      ensures ok ==> Now() == Release(old(Now()), i)
    {
      ok := true;
      var t := tasks[i];
      if t.released {
        return;
      }
      if !t.user {
        tasks := tasks[i := t.(released := true)];
        return;
      }
      tasks := tasks[i := t.(user := false, released := true)];
      if t.hasStack {
        if |pending| >= MAX_PENDING {
          return false;
        }
        pending := pending + [i];
        tasks := tasks[i := t.(user := false, released := true, hasStack := false, frame := NO_FRAME)];
      }
    }

    method YieldCurrent(frame: Frame) returns (f: Frame)
      requires Valid()
      modifies this
      ensures Valid() && Now() == Yield(old(Now()), frame) && (old(current.Of?) ==> f == FrameOf(Now()))
    {
      hide SchedOk, Dispatch;
      ghost var s := Now();
      YieldKeeps(s, frame);
      if !current.Of? {
        return frame;
      }
      CurrentLive(s);
      IndexOk(s);
      SaveFrame(frame);
      f := DispatchNext();
    }

    method SleepCurrent(frame: Frame, n: nat) returns (f: Frame)
      requires Valid()
      modifies this
      ensures Valid() && Now() == SleepFor(old(Now()), frame, n) && (old(current.Of?) ==> f == FrameOf(Now()))
    {
      hide SchedOk, Dispatch;
      ghost var s := Now();
      SleepKeeps(s, frame, n);
      hide Yield;
      if n == 0 {
        f := YieldCurrent(frame);
        return;
      }
      if !current.Of? {
        return frame;
      }
      CurrentLive(s);
      IndexOk(s);
      tasks := tasks[current.i := tasks[current.i].(frame := frame, state := Sleeping, wake := ticks + n)];
      f := DispatchNext();
    }

    method WaitCurrentForInput(frame: Frame) returns (f: Frame)
      requires Valid()
      modifies this
      ensures Valid() && Now() == WaitInput(old(Now()), frame) && (old(current.Of?) ==> f == FrameOf(Now()))
    {
      hide SchedOk, Dispatch;
      ghost var s := Now();
      WaitKeeps(s, frame);
      if !current.Of? {
        return frame;
      }
      CurrentLive(s);
      IndexOk(s);
      tasks := tasks[current.i := tasks[current.i].(frame := frame, state := WaitingInput)];
      f := DispatchNext();
    }

    method WakeInputWaiters()
      requires Valid()
      modifies this`tasks
      ensures Valid() && Now() == WakeInput(old(Now())) && ReadersWoken(old(Now()), Now())
    {
      ghost var s := Now();
      WakeKeeps(s);
      WakeLaw(s);
      hide SchedOk;
      for i := 0 to |tasks|
        invariant |tasks| == |s.tasks|
        invariant forall k :: 0 <= k < i ==> tasks[k] == Roused(s.tasks[k])
        invariant forall k :: i <= k < |tasks| ==> tasks[k] == s.tasks[k]
      {
        if tasks[i].state.WaitingInput? {
          tasks := tasks[i := tasks[i].(state := Runnable)];
        }
      }
      assert tasks == WakeInput(s).tasks;
    }

    method CreateTask(user: bool, frame: Frame) returns (ok: bool)
      requires Valid()
      modifies this`tasks
      ensures Valid() && Now() == Create(old(Now()), user, frame) && ok == (|old(tasks)| < MAX_TASKS)
    {
      CreateKeeps(Now(), user, frame);
      hide SchedOk;
      if |tasks| >= MAX_TASKS {
        return false;
      }
      tasks := tasks + [Task(user, true, frame, Runnable, 0, 0, 0, false)];
      ok := true;
    }
  }

  /** When a task ends, there is room for its stack. */
  lemma FinishRoom(s: Sched, f: Frame, status: nat)
    requires SchedOk(s) && s.current.Of? && s.current.i < |s.tasks|
    ensures |Dispatch(WithTask(s, s.current.i,
                               s.tasks[s.current.i].(frame := f, state := Stopped,
                                                     status := status))).pending| < MAX_PENDING
  {
    var i := s.current.i;
    var m := WithTask(s, i, s.tasks[i].(frame := f, state := Stopped, status := status));
    LifeKeeps(s, m);
    PendingRoom(m, i);
    DispatchTasks(m, i);
  }

  lemma IndexOk(s: Sched)
    requires SchedOk(s)
    ensures s.tasks == [] || s.index < |s.tasks|
  {
  }

  /** The quantum does not matter to a dispatch. */
  lemma DispatchForgets(s: Sched, q: nat)
    ensures Dispatch(s.(quantum := q)) == Dispatch(s)
  {
    hide Scan;
  }

  /** Giving up a task that is not current leaves the frame to resume alone. */
  lemma ReleaseFrame(s: Sched, i: nat)
    requires s.current != Of(i)
    ensures FrameOf(Release(s, i)) == FrameOf(s)
  {
  }
}
