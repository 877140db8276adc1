/** What every step of the scheduler keeps, and how long a runnable task can wait. */
module SchedulerSafety {
  import opened SchedulerSpec

  ghost predicate NoDuplicates(s: seq<nat>) {
    forall i, j :: 0 <= i < j < |s| ==> s[i] != s[j]
  }

  /** Each kernel stack is held by its task, waiting to be freed, or freed, and nothing twice. */
  ghost predicate StacksOk(s: Sched) {
    && NoDuplicates(s.freed + s.pending)
    && (forall i :: i in s.freed + s.pending ==> i < |s.tasks| && s.tasks[i].released)
    && (forall i: nat :: i < |s.tasks| ==> (s.tasks[i].hasStack <==> i !in s.freed + s.pending))
  }

  ghost predicate TasksOk(s: Sched) {
    && |s.tasks| <= MAX_TASKS && (if s.tasks == [] then s.index == 0 else s.index < |s.tasks|)
    && (forall i :: 0 <= i < |s.tasks| ==> s.tasks[i].released ==> s.tasks[i].state.Stopped?)
    && StacksOk(s)
  }

  /** The current task is runnable, and every stopped task has given up its resources. */
  ghost predicate SchedOk(s: Sched) {
    && TasksOk(s) && s.quantum < QUANTUM
    && (s.current.Of? ==> s.current.i < |s.tasks| && s.tasks[s.current.i].state.Runnable?)
    && (forall i :: 0 <= i < |s.tasks| ==> s.tasks[i].state.Stopped? ==> s.tasks[i].released)
  }

  // ---------- counting stacks ----------

  lemma {:induction false} DistinctFit(s: seq<nat>, n: nat)
    requires NoDuplicates(s) && forall i :: i in s ==> i < n
    ensures |s| <= n
    decreases n
  {
    assert s != [] ==> s[0] in s;
    if n > 0 && s != [] {
      if n - 1 in s {
        var k :| 0 <= k < |s| && s[k] == n - 1;
        var rest := s[..k] + s[k + 1..];
        assert forall i :: i in rest ==> i in s && i != n - 1;
        DistinctFit(rest, n - 1);
      } else {
        DistinctFit(s, n - 1);
      }
    }
  }

  /** A stack that is about to be queued always finds room: the queue cannot be full. */
  lemma PendingRoom(s: Sched, i: nat)
    requires TasksOk(s) && i < |s.tasks| && s.tasks[i].hasStack
    ensures |s.pending| < MAX_PENDING
  {
    var all := s.freed + s.pending + [i];
    assert s.freed + s.pending + [i] == (s.freed + s.pending) + [i];
    assert NoDuplicates(all);
    DistinctFit(all, |s.tasks|);
  }

  // ---------- dispatching ----------

  /** A task that only differs in its frame, its times and its switch count. */
  predicate SameLife(t: Task, t': Task) {
    t'.user == t.user && t'.hasStack == t.hasStack && t'.released == t.released
  }

  lemma LifeKeeps(s: Sched, s': Sched)
    requires TasksOk(s) && |s'.tasks| == |s.tasks| && s'.pending == s.pending && s'.freed == s.freed
    requires if s'.tasks == [] then s'.index == 0 else s'.index < |s'.tasks|
    requires forall i :: 0 <= i < |s.tasks| ==>
               SameLife(s.tasks[i], s'.tasks[i]) && (s.tasks[i].released ==> s'.tasks[i].state.Stopped?)
    ensures TasksOk(s')
  {
  }

  /** What dispatching leaves: every task as it was but for its switch count. */
  lemma DispatchTasks(s: Sched, i: nat)
    requires i < |s.tasks|
    ensures |Dispatch(s).tasks| == |s.tasks|
    ensures Dispatch(s).tasks[i] == s.tasks[i].(switches := Dispatch(s).tasks[i].switches)
    ensures Dispatch(s).pending == s.pending && Dispatch(s).freed == s.freed && Dispatch(s).ticks == s.ticks
    ensures Dispatch(s).quantum == 0
    ensures Dispatch(s).index == PickIndex(s) && Dispatch(s).current == Picked(s) && Dispatch(s).boot == s.boot
  {
    hide Picked, PickIndex;
  }

  lemma DispatchKeeps(s: Sched)
    requires TasksOk(s)
    ensures var s' := Dispatch(s);
            && TasksOk(s') && s'.quantum == 0 && |s'.tasks| == |s.tasks|
            && (s'.current == Boot <==> NoneRunnable(s'.tasks))
            && (s'.current != Boot ==>
                  s'.current.Of? && s'.current.i < |s'.tasks| && s'.tasks[s'.current.i].state.Runnable?)
  {
    PickSound(s);
    hide Picked, PickIndex, StacksOk, Dispatch;
    var s' := Dispatch(s);
    if s.tasks == [] {
      DispatchNone(s);
    } else {
      DispatchTasks(s, 0);
      forall i: nat | i < |s.tasks| ensures s'.tasks[i] == s.tasks[i].(switches := s'.tasks[i].switches) {
        DispatchTasks(s, i);
      }
    }
    LifeKeeps(s, s');
  }

  lemma DispatchNone(s: Sched)
    requires s.tasks == []
    ensures var s' := Dispatch(s);
            s'.tasks == [] && s'.index == s.index && s'.quantum == 0 && s'.current == Boot && s'.pending == s.pending
            && s'.freed == s.freed
  {
  }

  // ---------- the handlers ----------

  /** A handler that changes one live task and dispatches. */
  lemma ChangeAndDispatch(s: Sched, i: nat, t: Task)
    requires SchedOk(s) && i < |s.tasks| && !s.tasks[i].released && SameLife(s.tasks[i], t) && !t.state.Stopped?
    ensures SchedOk(Dispatch(WithTask(s, i, t)))
  {
    var m := WithTask(s, i, t);
    LifeKeeps(s, m);
    DispatchKeeps(m);
    hide StacksOk, Dispatch;
    forall k: nat | k < |m.tasks|
      ensures Dispatch(m).tasks[k].state == m.tasks[k].state && Dispatch(m).tasks[k].released == m.tasks[k].released {
      DispatchTasks(m, k);
    }
  }

  lemma CurrentLive(s: Sched)
    requires SchedOk(s) && s.current.Of?
    ensures s.current.i < |s.tasks| && s.tasks[s.current.i].state.Runnable? && !s.tasks[s.current.i].released
  {
    hide StacksOk;
  }

  lemma YieldKeeps(s: Sched, f: Frame)
    requires SchedOk(s)
    ensures SchedOk(Yield(s, f))
  {
    hide SchedOk, Dispatch;
    if s.current.Of? {
      CurrentLive(s);
      ChangeAndDispatch(s, s.current.i, s.tasks[s.current.i].(frame := f));
    }
  }

  lemma SleepKeeps(s: Sched, f: Frame, n: nat)
    requires SchedOk(s)
    ensures SchedOk(SleepFor(s, f, n))
  {
    hide SchedOk, Dispatch, Yield;
    if n == 0 {
      YieldKeeps(s, f);
    } else if s.current.Of? {
      CurrentLive(s);
      var i := s.current.i;
      ChangeAndDispatch(s, i, s.tasks[i].(frame := f, state := Sleeping, wake := s.ticks + n));
    }
  }

  lemma WaitKeeps(s: Sched, f: Frame)
    requires SchedOk(s)
    ensures SchedOk(WaitInput(s, f))
  {
    hide SchedOk, Dispatch;
    if s.current.Of? {
      CurrentLive(s);
      var i := s.current.i;
      ChangeAndDispatch(s, i, s.tasks[i].(frame := f, state := WaitingInput));
    }
  }

  /** Giving up a stopped task's resources: its stack is queued, once. */
  lemma ReleaseKeeps(s: Sched, i: nat)
    requires TasksOk(s) && i < |s.tasks| && s.tasks[i].state.Stopped? && !s.tasks[i].released
    ensures var s' := Release(s, i);
            && TasksOk(s') && s'.current == s.current && s'.quantum == s.quantum && |s'.tasks| == |s.tasks|
               && s'.tasks[i].released
            && s'.tasks[i].state.Stopped?
            && (forall k :: 0 <= k < |s.tasks| && k != i ==> s'.tasks[k] == s.tasks[k])
            && s'.freed == s.freed && s'.pending == (if s.tasks[i].user then s.pending + [i] else s.pending)
            && |s'.pending| <= MAX_PENDING
  {
    assert s.tasks[i].hasStack;
    PendingRoom(s, i);
    var s' := Release(s, i);
    if s.tasks[i].user {
      assert s'.freed + s'.pending == (s.freed + s.pending) + [i];
    }
  }

  lemma FinishKeeps(s: Sched, f: Frame, status: nat)
    requires SchedOk(s)
    ensures var s' := Finish(s, f, status);
            SchedOk(s') && (s.current.Of? ==> s'.current != s.current && s'.tasks[s.current.i].state.Stopped?)
  {
    if s.current.Of? {
      var i := s.current.i;
      var m := WithTask(s, i, s.tasks[i].(frame := f, state := Stopped, status := status));
      LifeKeeps(s, m);
      DispatchKeeps(m);
      var d := Dispatch(m);
      forall k: nat | k < |m.tasks| ensures d.tasks[k] == m.tasks[k].(switches := d.tasks[k].switches) {
        DispatchTasks(m, k);
      }
      hide StacksOk, Dispatch, Release;
      ReleaseKeeps(d, i);
    }
  }

  lemma {:induction false} ReversedSame(s: seq<nat>)
    ensures forall x :: x in Reversed(s) <==> x in s
    ensures NoDuplicates(s) ==> NoDuplicates(Reversed(s))
  {
    if s != [] {
      var init := s[..|s| - 1];
      ReversedSame(init);
      assert s == init + [s[|s| - 1]];
      assert NoDuplicates(s) ==> NoDuplicates(init) && s[|s| - 1] !in init;
    }
  }

  /** A list without repetitions stays so when its end is permuted. */
  lemma TailPermuted(a: seq<nat>, p: seq<nat>, q: seq<nat>)
    requires NoDuplicates(a + p) && NoDuplicates(q) && forall x :: x in q <==> x in p
    ensures NoDuplicates(a + q) && NoDuplicates(a)
  {
    assert forall i :: 0 <= i < |a| ==> (a + p)[i] == a[i];
    forall i, j | 0 <= i < j < |a + q| ensures (a + q)[i] != (a + q)[j] {
      if i < |a| <= j {
        assert (a + q)[j] in p;
        var k :| 0 <= k < |p| && p[k] == (a + q)[j];
        assert (a + p)[|a| + k] == p[k];
      }
    }
  }

  lemma TailDistinct(a: seq<nat>, p: seq<nat>)
    requires NoDuplicates(a + p)
    ensures NoDuplicates(p)
  {
    assert forall i :: 0 <= i < |p| ==> (a + p)[|a| + i] == p[i];
  }

  /** Freeing the queued stacks. */
  lemma ReclaimKeeps(s: Sched)
    requires StacksOk(s)
    ensures StacksOk(s.(freed := s.freed + Reversed(s.pending), pending := []))
  {
    TailDistinct(s.freed, s.pending);
    ReversedSame(s.pending);
    TailPermuted(s.freed, s.pending, Reversed(s.pending));
    hide NoDuplicates, Reversed;
    var all := s.freed + Reversed(s.pending);
    assert all + [] == all;
    assert forall x :: x in all <==> x in s.freed + s.pending;
  }

  lemma TickedKeeps(s: Sched, f: Frame)
    requires SchedOk(s) && s.tasks != []
    ensures var t := Ticked(s, f);
            && SchedOk(t) && t.quantum == s.quantum && |t.tasks| == |s.tasks| && t.ticks == s.ticks + 1
            && t.pending == [] && t.freed == s.freed + Reversed(s.pending) && !t.current.NoTask?
            && (!s.current.NoTask? ==> t.current == s.current && t.index == s.index)
            && (forall k :: 0 <= k < |s.tasks| ==>
                  t.tasks[k] == Woken(s.tasks[k], t.ticks).(frame := t.tasks[k].frame))
  {
    ReclaimKeeps(s);
    hide StacksOk;
    var r := s.(freed := s.freed + Reversed(s.pending), pending := []);
    assert TasksOk(r);
    hide Reversed;
    LifeKeeps(r, Ticked(s, f));
  }

  /** Whatever stack a step freed belongs to a task that is current neither before nor after it. */
  ghost predicate FreesIdle(s: Sched, s': Sched) {
    && s.freed <= s'.freed
    && forall i :: i in s'.freed && i !in s.freed ==> s.current != Of(i) && s'.current != Of(i)
  }

  /** A tick keeps the invariant and frees every queued stack, none of them the current task's. */
  lemma TickKeeps(s: Sched, f: Frame)
    requires SchedOk(s)
    ensures SchedOk(OnTick(s, f)) && FreesIdle(s, OnTick(s, f))
    ensures OnTick(s, f).pending == [] && OnTick(s, f).freed == s.freed + Reversed(s.pending)
  {
    TickKeepsOk(s, f);
    hide StacksOk, Reversed, OnTick;
    FreedIdle(OnTick(s, f));
    PendingIdle(s);
    ReversedSame(s.pending);
  }

  lemma TickKeepsOk(s: Sched, f: Frame)
    requires SchedOk(s)
    ensures SchedOk(OnTick(s, f)) && OnTick(s, f).pending == [] && OnTick(s, f).freed == s.freed + Reversed(s.pending)
  {
    if s.tasks == [] {
      PendingFits(s);
    } else {
      TickedKeeps(s, f);
      var t := Ticked(s, f);
      hide StacksOk, Dispatch, Ticked, Reversed;
      if t.quantum + 1 >= QUANTUM {
        DispatchKeeps(t);
        forall k: nat | k < |t.tasks|
          ensures Dispatch(t).tasks[k].state == t.tasks[k].state && Dispatch(t).tasks[k].released == t.tasks[k].released
        {
          DispatchTasks(t, k);
        }
        DispatchTasks(t, 0);
      } else {
        LifeKeeps(t, t.(quantum := t.quantum + 1));
      }
    }
  }

  /** No more stacks wait than there are tasks. */
  lemma PendingFits(s: Sched)
    requires SchedOk(s)
    ensures |s.pending| <= |s.tasks|
  {
    assert forall i :: 0 <= i < |s.pending| ==> s.pending[i] == (s.freed + s.pending)[|s.freed| + i];
    assert forall i :: i in s.pending ==> i in s.freed + s.pending;
    DistinctFit(s.pending, |s.tasks|);
  }

  /** Neither a freed stack nor a queued one belongs to the current task. */
  lemma FreedIdle(s: Sched)
    requires SchedOk(s)
    ensures forall i :: i in s.freed ==> s.current != Of(i)
  {
    assert forall i :: i in s.freed ==> i in s.freed + s.pending;
  }

  lemma PendingIdle(s: Sched)
    requires SchedOk(s)
    ensures forall i :: i in s.pending ==> s.current != Of(i)
  {
    assert forall i :: i in s.pending ==> i in s.freed + s.pending;
  }

  lemma WakeKeeps(s: Sched)
    requires SchedOk(s)
    ensures SchedOk(WakeInput(s))
  {
    hide StacksOk;
    LifeKeeps(s, WakeInput(s));
  }

  lemma CreateKeeps(s: Sched, user: bool, f: Frame)
    requires SchedOk(s)
    ensures SchedOk(Create(s, user, f))
  {
  }

  /** Every handler keeps the invariant. */
  lemma StepKeeps(s: Sched, e: Event)
    requires SchedOk(s)
    ensures SchedOk(Next(s, e))
  {
    hide SchedOk, OnTick, Finish, Yield, SleepFor, WaitInput, WakeInput, Create;
    match e
    case Timer(f) => TickKeeps(s, f);
    case Exit(f, status) => FinishKeeps(s, f, status);
    case Fault(f, vector) => FinishKeeps(s, f, 128 + vector);
    case YieldCall(f) => YieldKeeps(s, f);
    case SleepCall(f, n) => SleepKeeps(s, f, n);
    case WaitCall(f) => WaitKeeps(s, f);
    case Wake => WakeKeeps(s);
    case Spawn(user, f) => CreateKeeps(s, user, f);
  }

  // ---------- runs ----------

  function Run(s: Sched, events: seq<Event>): (s': Sched)
    decreases |events|
  {
    if events == [] then s else Run(Next(s, events[0]), events[1..])
  }

  /** A stopped task stays stopped, and a freed stack stays freed, in the order of freeing. */
  lemma StoppedStays(s: Sched, e: Event, i: nat)
    requires SchedOk(s) && i < |s.tasks| && s.tasks[i].state.Stopped?
    ensures |Next(s, e).tasks| >= |s.tasks| && Next(s, e).tasks[i].state.Stopped? && s.freed <= Next(s, e).freed
  {
    hide StacksOk, Dispatch, Reversed;
    match e
    case Timer(f) => {
      TickedKeeps(s, f);
      DispatchTasks(Ticked(s, f), i);
    }
    case Exit(f, status) => FinishStopped(s, f, status, i);
    case Fault(f, vector) => FinishStopped(s, f, 128 + vector, i);
    case YieldCall(f) => DispatchTasks(Save(s, f), i);
    case SleepCall(f, n) => SleepStopped(s, f, n, i);
    case WaitCall(f) => SleepStopped(s, f, 1, i);
    case Wake =>
    case Spawn(user, f) =>
  }

  lemma FinishStopped(s: Sched, f: Frame, status: nat, i: nat)
    requires SchedOk(s) && i < |s.tasks| && s.tasks[i].state.Stopped?
    ensures var s' := Finish(s, f, status);
            |s'.tasks| == |s.tasks| && s'.tasks[i].state.Stopped? && s'.freed == s.freed
  {
    hide StacksOk, Dispatch;
    if s.current.Of? {
      var c := s.current.i;
      var m := WithTask(s, c, s.tasks[c].(frame := f, state := Stopped, status := status));
      DispatchTasks(m, i);
      DispatchTasks(m, c);
    }
  }

  lemma SleepStopped(s: Sched, f: Frame, n: nat, i: nat)
    requires SchedOk(s) && i < |s.tasks| && s.tasks[i].state.Stopped?
    ensures |SleepFor(s, f, n).tasks| == |s.tasks| && SleepFor(s, f, n).tasks[i].state.Stopped?
    ensures SleepFor(s, f, n).freed == s.freed
    ensures |WaitInput(s, f).tasks| == |s.tasks| && WaitInput(s, f).tasks[i].state.Stopped?
    ensures WaitInput(s, f).freed == s.freed
  {
    hide StacksOk, Dispatch;
    if s.current.Of? {
      var c := s.current.i;
      DispatchTasks(Save(s, f), i);
      DispatchTasks(WithTask(s, c, s.tasks[c].(frame := f, state := Sleeping, wake := s.ticks + n)), i);
      DispatchTasks(WithTask(s, c, s.tasks[c].(frame := f, state := WaitingInput)), i);
    }
  }

  /** Only a tick frees stacks. */
  lemma StepFrees(s: Sched, e: Event)
    requires SchedOk(s)
    ensures FreesIdle(s, Next(s, e)) && (Next(s, e).freed == s.freed || e.Timer?)
  {
    hide StacksOk, Dispatch, Reversed, OnTick, FreesIdle;
    if !e.Timer? && Next(s, e).freed == s.freed { FreesNothing(s, Next(s, e)); }
    match e
    case Timer(f) => TickKeeps(s, f);
    case Exit(f, status) => FinishFrees(s, f, status);
    case Fault(f, vector) => FinishFrees(s, f, 128 + vector);
    case YieldCall(f) => DispatchFrees(Save(s, f));
    case SleepCall(f, n) => SleepFrees(s, f, n);
    case WaitCall(f) => SleepFrees(s, f, 1);
    case Wake =>
    case Spawn(user, f) =>
  }

  lemma FreesNothing(s: Sched, s': Sched)
    requires s'.freed == s.freed
    ensures FreesIdle(s, s')
  {
  }

  lemma DispatchFrees(s: Sched)
    ensures Dispatch(s).freed == s.freed
  {
  }

  lemma FinishFrees(s: Sched, f: Frame, status: nat)
    ensures Finish(s, f, status).freed == s.freed
  {
    hide Dispatch;
    if s.current.Of? && s.current.i < |s.tasks| {
      DispatchFrees(WithTask(s, s.current.i, s.tasks[s.current.i].(frame := f, state := Stopped, status := status)));
    }
  }

  lemma SleepFrees(s: Sched, f: Frame, n: nat)
    ensures SleepFor(s, f, n).freed == s.freed && WaitInput(s, f).freed == s.freed
  {
    hide Dispatch;
    DispatchFrees(Save(s, f));
    if s.current.Of? && s.current.i < |s.tasks| {
      var i := s.current.i;
      DispatchFrees(WithTask(s, i, s.tasks[i].(frame := f, state := Sleeping, wake := s.ticks + n)));
      DispatchFrees(WithTask(s, i, s.tasks[i].(frame := f, state := WaitingInput)));
    }
  }

  ghost predicate StoppedIn(s: Sched, i: nat) {
    i < |s.tasks| && s.tasks[i].state.Stopped?
  }

  /** Over any run: the invariant holds, each stack was freed at most once and stays freed, and a stopped task stays
      stopped and is not the current one. */
  lemma {:induction false} RunKeeps(s: Sched, events: seq<Event>)
    requires SchedOk(s)
    ensures SchedOk(Run(s, events)) && NoDuplicates(Run(s, events).freed) && s.freed <= Run(s, events).freed
    ensures forall i: nat :: StoppedIn(s, i) ==> StoppedIn(Run(s, events), i) && Run(s, events).current != Of(i)
    decreases |events|
  {
    if events == [] {
      assert forall i, j :: 0 <= i < j < |s.freed| ==>
          s.freed[i] == (s.freed + s.pending)[i] && s.freed[j] == (s.freed + s.pending)[j];
    } else {
      forall i: nat | StoppedIn(s, i) ensures StoppedIn(Next(s, events[0]), i) { StoppedStays(s, events[0], i); }
      hide SchedOk, Next, StoppedIn, NoDuplicates, FreesIdle;
      StepKeeps(s, events[0]);
      StepGrows(s, events[0]);
      RunKeeps(Next(s, events[0]), events[1..]);
    }
  }

  lemma StepGrows(s: Sched, e: Event)
    requires SchedOk(s)
    ensures s.freed <= Next(s, e).freed
  {
    hide SchedOk, Next;
    StepFrees(s, e);
  }

  /** Running one event more. */
  lemma {:induction false} RunSnoc(s: Sched, events: seq<Event>, e: Event)
    ensures Run(s, events + [e]) == Next(Run(s, events), e)
    decreases |events|
  {
    hide Next;
    if events == [] {
      assert ([] + [e])[1..] == [];
    } else {
      assert (events + [e])[1..] == events[1..] + [e];
      RunSnoc(Next(s, events[0]), events[1..], e);
    }
  }

  /** The life of a stack: a task that a run leaves without its stack has it freed by the next tick, once, and while
      that task is not current. */
  lemma StackFreedOnce(s: Sched, events: seq<Event>, f: Frame, i: nat)
    requires SchedOk(s) && i < |Run(s, events).tasks| && !Run(s, events).tasks[i].hasStack
    ensures var r := Run(s, events + [Timer(f)]);
            i in r.freed && NoDuplicates(r.freed) && r.current != Of(i) && Run(s, events).current != Of(i)
  {
    RunKeeps(s, events);
    RunKeeps(s, events + [Timer(f)]);
    RunSnoc(s, events, Timer(f));
    var r := Run(s, events);
    hide Run, OnTick, Reversed;
    TickKeeps(r, f);
    ReversedSame(r.pending);
    FreedIdle(r);
    PendingIdle(r);
    FreedIdle(OnTick(r, f));
  }

  // ---------- bounded waiting ----------

  /** Where the next scan starts: the first tick of all puts the index on the last task. */
  function From(s: Sched): (i: nat)
    requires s.tasks != [] && s.index < |s.tasks|
    ensures i < |s.tasks|
  {
    if s.current.NoTask? then |s.tasks| - 1 else s.index
  }

  /** How many scheduling decisions task `j` is away from being dispatched, at most. */
  function Ahead(s: Sched, j: nat): (d: int)
    requires j < |s.tasks| && s.index < |s.tasks|
    ensures 1 <= d <= |s.tasks|
  {
    Distance(|s.tasks|, From(s), j)
  }

  /** The same in ticks: whole quanta for the tasks before it, and the rest of this quantum. */
  function Waiting(s: Sched, j: nat): (m: int)
    requires j < |s.tasks| && s.index < |s.tasks|
  {
    (Ahead(s, j) - 1) * QUANTUM + (QUANTUM - s.quantum)
  }

  predicate Waits(s: Sched, j: nat) {
    j < |s.tasks| && s.index < |s.tasks| && s.tasks[j].state.Runnable? && s.current != Of(j)
  }

  /** The step looks for a task to run: a tick that ends a quantum, or a call by which the current task gives way. */
  predicate Decides(s: Sched, e: Event) {
    match e
    case Timer(_) => s.tasks != [] && s.quantum + 1 >= QUANTUM
    case Wake => false
    case Spawn(_, _) => false
    case _ => s.current.Of?
  }

  function IsTick(e: Event): (n: nat) {
    if e.Timer? then 1 else 0
  }

  function IsDecision(s: Sched, e: Event): (n: nat) {
    if Decides(s, e) then 1 else 0
  }

  /** Task `j` runs, or is `k` decisions and `n` ticks closer than before. */
  predicate Closer(s: Sched, s': Sched, j: nat, k: nat, n: nat)
    requires j < |s.tasks| && s.index < |s.tasks|
  {
    && |s'.tasks| == |s.tasks| && s'.index < |s'.tasks|
    && (s'.current == Of(j) || (Ahead(s', j) + k <= Ahead(s, j) && Waiting(s', j) + n <= Waiting(s, j)))
  }

  /** A dispatch either takes task `j` or brings it closer by one decision and the rest of the quantum. */
  lemma DispatchCloser(s: Sched, j: nat)
    requires j < |s.tasks| && s.index < |s.tasks| && s.tasks[j].state.Runnable? && s.quantum < QUANTUM
    requires !s.current.NoTask?
    ensures Closer(s, Dispatch(s), j, 1, QUANTUM - s.quantum)
  {
    ScanFinds(s.tasks, s.index, |s.tasks|, j);
    DispatchTasks(s, j);
    hide Dispatch, Scan;
  }

  /** Changing a task before dispatching. */
  lemma ChangeCloser(s: Sched, i: nat, t: Task, j: nat)
    requires Waits(s, j) && i < |s.tasks| && i != j && s.quantum < QUANTUM && !s.current.NoTask?
    ensures Closer(s, Dispatch(WithTask(s, i, t)), j, 1, 0)
  {
    hide Dispatch;
    DispatchCloser(WithTask(s, i, t), j);
  }

  /** Every step that is not a creation keeps task `j` as close as it was; every decision and every tick brings it
      closer. */
  lemma StepCloser(s: Sched, e: Event, j: nat)
    requires SchedOk(s) && Waits(s, j) && !e.Spawn?
    ensures Closer(s, Next(s, e), j, IsDecision(s, e), IsTick(e))
  {
    hide StacksOk, Dispatch, Reversed, Scan, Ticked, Closer;
    match e
    case Timer(f) => TickCloser(s, f, j);
    case Exit(f, status) => FinishCloser(s, f, status, j);
    case Fault(f, vector) => FinishCloser(s, f, 128 + vector, j);
    case YieldCall(f) => SleepCloser(s, f, 0, j);
    case SleepCall(f, n) => SleepCloser(s, f, n, j);
    case WaitCall(f) => WaitCloser(s, f, j);
    case Wake => StayClose(s, WakeInput(s), j);
  }

  lemma StayClose(s: Sched, s': Sched, j: nat)
    requires Waits(s, j) && |s'.tasks| == |s.tasks| && s'.index == s.index && s'.current == s.current
    requires s'.quantum == s.quantum
    ensures Closer(s, s', j, 0, 0)
  {
  }

  lemma TickCloser(s: Sched, f: Frame, j: nat)
    requires SchedOk(s) && Waits(s, j)
    ensures Closer(s, OnTick(s, f), j, IsDecision(s, Timer(f)), 1)
  {
    TickedKeeps(s, f);
    var t := Ticked(s, f);
    assert t.index == From(s);
    hide StacksOk, Dispatch, Ticked;
    if t.quantum + 1 >= QUANTUM {
      DispatchCloser(t, j);
    }
  }

  lemma FinishCloser(s: Sched, f: Frame, status: nat, j: nat)
    requires SchedOk(s) && Waits(s, j)
    ensures Closer(s, Finish(s, f, status), j, IsDecision(s, Exit(f, status)), 0)
  {
    hide StacksOk, Dispatch;
    if s.current.Of? {
      var i := s.current.i;
      ChangeCloser(s, i, s.tasks[i].(frame := f, state := Stopped, status := status), j);
    }
  }

  lemma SleepCloser(s: Sched, f: Frame, n: nat, j: nat)
    requires SchedOk(s) && Waits(s, j)
    ensures Closer(s, SleepFor(s, f, n), j, IsDecision(s, SleepCall(f, n)), 0)
  {
    hide StacksOk, Dispatch;
    if s.current.Of? {
      var i := s.current.i;
      var t := if n == 0 then s.tasks[i].(frame := f)
               else s.tasks[i].(frame := f, state := Sleeping, wake := s.ticks + n);
      ChangeCloser(s, i, t, j);
    }
  }

  lemma WaitCloser(s: Sched, f: Frame, j: nat)
    requires SchedOk(s) && Waits(s, j)
    ensures Closer(s, WaitInput(s, f), j, IsDecision(s, WaitCall(f)), 0)
  {
    hide StacksOk, Dispatch;
    if s.current.Of? {
      var i := s.current.i;
      ChangeCloser(s, i, s.tasks[i].(frame := f, state := WaitingInput), j);
    }
  }

  function Ticks(events: seq<Event>): (n: nat) {
    if events == [] then 0 else IsTick(events[0]) + Ticks(events[1..])
  }

  function Decisions(s: Sched, events: seq<Event>): (n: nat)
    decreases |events|
  {
    if events == [] then 0 else IsDecision(s, events[0]) + Decisions(Next(s, events[0]), events[1..])
  }

  /** No task is created, and task `j` stays runnable without ever being dispatched. */
  ghost predicate Starved(s: Sched, events: seq<Event>, j: nat)
    decreases |events|
  {
    Waits(s, j) && (events != [] ==> !events[0].Spawn? && Starved(Next(s, events[0]), events[1..], j))
  }

  /** A run in which task `j` stays runnable and is not dispatched has fewer scheduling decisions than there are
      tasks, and fewer ticks than there are tasks times the quantum; also from the start, before the first tick. */
  lemma {:induction false} BoundedWaiting(s: Sched, events: seq<Event>, j: nat)
    requires SchedOk(s) && Starved(s, events, j)
    ensures Decisions(s, events) < Ahead(s, j) <= |s.tasks|
    ensures Ticks(events) < Waiting(s, j) <= QUANTUM * |s.tasks|
    decreases |events|
  {
    WaitingBound(s, j);
    if events != [] {
      hide SchedOk, Next, Waiting, Ahead;
      StepCloser(s, events[0], j);
      StepKeeps(s, events[0]);
      BoundedWaiting(Next(s, events[0]), events[1..], j);
    }
  }

  lemma WaitingBound(s: Sched, j: nat)
    requires SchedOk(s) && Waits(s, j)
    ensures 0 < Waiting(s, j) <= QUANTUM * |s.tasks|
  {
    hide StacksOk;
  }

  /** Task `j` is runnable in every state of the run, and no task is created. */
  ghost predicate StaysRunnable(s: Sched, events: seq<Event>, j: nat)
    decreases |events|
  {
    && j < |s.tasks| && s.index < |s.tasks| && s.tasks[j].state.Runnable?
    && (events != [] ==> !events[0].Spawn? && StaysRunnable(Next(s, events[0]), events[1..], j))
  }

  /** Bounded waiting as a promise: after as many decisions as there are tasks, or as many ticks as there are tasks
      times the quantum, a task that stayed runnable has been dispatched. */
  lemma Dispatched(s: Sched, events: seq<Event>, j: nat)
    requires SchedOk(s) && StaysRunnable(s, events, j)
    requires Decisions(s, events) >= |s.tasks| || Ticks(events) >= QUANTUM * |s.tasks|
    ensures exists k: nat :: k <= |events| && Run(s, events[..k]).current == Of(j)
  {
    if forall k: nat :: k <= |events| ==> Run(s, events[..k]).current != Of(j) {
      NeverDispatched(s, events, j);
      hide SchedOk, Starved, StaysRunnable, Run;
      BoundedWaiting(s, events, j);
    }
  }

  lemma {:induction false} NeverDispatched(s: Sched, events: seq<Event>, j: nat)
    requires StaysRunnable(s, events, j)
    requires forall k: nat :: k <= |events| ==> Run(s, events[..k]).current != Of(j)
    ensures Starved(s, events, j)
    decreases |events|
  {
    hide Next;
    assert events[..0] == [];
    assert Run(s, events[..0]).current == s.current;
    if events != [] {
      forall k: nat | k <= |events| - 1 ensures Run(Next(s, events[0]), events[1..][..k]).current != Of(j) {
        assert events[..k + 1][1..] == events[1..][..k];
        assert Run(s, events[..k + 1]).current != Of(j);
      }
      NeverDispatched(Next(s, events[0]), events[1..], j);
    }
  }
}
