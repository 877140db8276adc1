/** The keyboard ring and the blocking read: keys arrive in order and no reader sleeps while keys are waiting. */
module KeyInput {
  import opened SchedulerSpec
  import opened SchedulerSafety
  import opened SchedulerLaws
  import opened Schedulers

  /** Position `i` of a ring of `n` slots, less than two laps on. */
  function Wrap(i: nat, n: nat): (j: nat)
    requires i < 2 * n
    ensures j < n
  {
    if i < n then i else i - n
  }

  lemma ModIs(i: nat, n: nat)
    requires 0 < n && i < 2 * n
    ensures i % n == Wrap(i, n)
  {
    if i >= n { assert i % n == (i - n) % n; }
  }

  /** The ring of accepted keys; one slot always stays empty. */
  class KeyRing {
    const buffer: array<char>
    var readPos: nat
    var writePos: nat
    /** The keys in the ring, oldest first. */
    ghost var keys: seq<char>

    ghost predicate Valid()
      reads this, buffer
    {
      && buffer.Length >= 2 && readPos < buffer.Length && |keys| < buffer.Length
      && writePos == Wrap(readPos + |keys|, buffer.Length)
      && forall k :: 0 <= k < |keys| ==> buffer[Wrap(readPos + k, buffer.Length)] == keys[k]
    }

    constructor (size: nat)
      requires size >= 2
      ensures Valid() && keys == [] && buffer.Length == size && fresh(buffer)
    {
      buffer := new char[size](_ => '\0');
      readPos, writePos, keys := 0, 0, [];
    }

    /** Accepts a key unless the ring is full. */
    method Push(c: char) returns (ghost accepted: bool)
      requires Valid()
      modifies this`writePos, this`keys, buffer
      ensures Valid() && accepted == (|old(keys)| + 1 < buffer.Length)
      ensures keys == if accepted then old(keys) + [c] else old(keys)
    {
      ModIs(writePos + 1, buffer.Length);
      var next := (writePos + 1) % buffer.Length;
      if next == readPos {
        return false;
      }
      accepted := true;
      buffer[writePos] := c;
      writePos := next;
      keys := keys + [c];
    }

    /** Takes the oldest key. */
    method Take() returns (c: char)
      requires Valid() && keys != []
      modifies this`readPos, this`keys
      ensures Valid() && [c] + keys == old(keys)
    {
      ModIs(readPos + 1, buffer.Length);
      c := buffer[readPos];
      readPos := (readPos + 1) % buffer.Length;
      keys := keys[1..];
    }

    /** Takes up to `len` keys, in the order they came. */
    method Read(len: nat) returns (out: seq<char>)
      requires Valid()
      modifies this`readPos, this`keys
      ensures Valid() && out + keys == old(keys) && |out| == (if len < |old(keys)| then len else |old(keys)|)
    {
      out := [];
      ghost var all := keys;
      while |out| < len && readPos != writePos
        invariant Valid() && out + keys == all && |out| <= len
        decreases |keys|
      {
        ghost var before, got := keys, out;
        var c := Take();
        out := out + [c];
        assert got + before == got + ([c] + keys) == out + keys;
      }
    }
  }

  ghost predicate NoWaiters(s: Sched) {
    forall i :: 0 <= i < |s.tasks| ==> !s.tasks[i].state.WaitingInput?
  }

  /** Only the blocking read makes a task wait for input. */
  lemma OnlyReadWaits(s: Sched, e: Event, i: nat)
    requires SchedOk(s) && !e.WaitCall? && i < |Next(s, e).tasks| && Next(s, e).tasks[i].state.WaitingInput?
    ensures i < |s.tasks| && s.tasks[i].state.WaitingInput? && !e.Wake?
  {
    hide StacksOk, Dispatch, Reversed;
    match e
    case Timer(f) => {
      if s.tasks != [] {
        TickedKeeps(s, f);
        DispatchTasks(Ticked(s, f), 0);
        DispatchTasks(Ticked(s, f), i);
      }
    }
    case Exit(f, status) => FinishWaiters(s, f, status, i);
    case Fault(f, vector) => FinishWaiters(s, f, 128 + vector, i);
    case YieldCall(f) => SleepWaiters(s, f, 0, i);
    case SleepCall(f, n) => SleepWaiters(s, f, n, i);
    case Wake =>
    case Spawn(user, f) =>
  }

  lemma FinishWaiters(s: Sched, f: Frame, status: nat, i: nat)
    requires SchedOk(s) && i < |Finish(s, f, status).tasks| && Finish(s, f, status).tasks[i].state.WaitingInput?
    ensures i < |s.tasks| && s.tasks[i].state.WaitingInput?
  {
    FinishTasks(s, f, status);
    hide StacksOk, Dispatch;
    if s.current.Of? {
      var c := s.current.i;
      var m := WithTask(s, c, s.tasks[c].(frame := f, state := Stopped, status := status));
      DispatchTasks(m, i);
      DispatchTasks(m, c);
    }
  }

  lemma FinishTasks(s: Sched, f: Frame, status: nat)
    requires SchedOk(s)
    ensures |Finish(s, f, status).tasks| == |s.tasks|
  {
    hide StacksOk, Dispatch;
    if s.current.Of? {
      var c := s.current.i;
      DispatchTasks(WithTask(s, c, s.tasks[c].(frame := f, state := Stopped, status := status)), c);
    }
  }

  lemma SleepWaiters(s: Sched, f: Frame, n: nat, i: nat)
    requires SchedOk(s) && i < |SleepFor(s, f, n).tasks| && SleepFor(s, f, n).tasks[i].state.WaitingInput?
    ensures i < |s.tasks| && s.tasks[i].state.WaitingInput?
  {
    hide StacksOk, Dispatch;
    if s.current.Of? {
      var c := s.current.i;
      var t := if n == 0 then s.tasks[c].(frame := f)
        else s.tasks[c].(frame := f, state := Sleeping, wake := s.ticks + n);
      DispatchTasks(WithTask(s, c, t), c);
      DispatchTasks(WithTask(s, c, t), i);
    }
  }

  lemma StillNoWaiters(s: Sched, e: Event)
    requires SchedOk(s) && !e.WaitCall? && NoWaiters(s)
    ensures NoWaiters(Next(s, e))
  {
    hide SchedOk, Next;
    forall i: nat | i < |Next(s, e).tasks| ensures !Next(s, e).tasks[i].state.WaitingInput? {
      if Next(s, e).tasks[i].state.WaitingInput? { OnlyReadWaits(s, e, i); }
    }
  }

  const SYSCALL_READ: int := 9
  const READ_CHUNK: nat := 512

  /** What a failed call returns: minus one as an unsigned 64-bit number. */
  const FAILED: int := 0xffff_ffff_ffff_ffff

  function Least(a: nat, b: nat): (m: nat) {
    if a < b then a else b
  }

  /** Scheduler, keyboard ring and the read system call on the terminal. */
  class Terminal {
    const ring: KeyRing
    const sched: Scheduler
    ghost var accepted: seq<char>
    ghost var delivered: seq<char>

    /** The delivered bytes and the ring are exactly the accepted keys in order, and nobody waits next to a key. */
    ghost predicate Valid()
      reads this, ring, ring.buffer, sched
    {
      && ring.Valid() && sched.Valid()
      && delivered + ring.keys == accepted
      && (ring.keys != [] ==> NoWaiters(sched.Now()))
    }

    constructor (ring: KeyRing, sched: Scheduler)
      requires ring.Valid() && sched.Valid() && ring.keys == []
      ensures Valid() && this.ring == ring && this.sched == sched && accepted == [] && delivered == []
    {
      this.ring, this.sched, accepted, delivered := ring, sched, [], [];
    }

    /** A key arrives: it is queued and every waiting reader becomes runnable. */
    method OnKey(c: char)
      requires Valid()
      modifies this`accepted, ring, ring.buffer, sched
      ensures Valid() && delivered == old(delivered)
      ensures accepted == if |old(ring.keys)| + 1 < ring.buffer.Length then old(accepted) + [c] else old(accepted)
      ensures NoWaiters(sched.Now()) && ReadersWoken(old(sched.Now()), sched.Now())
    {
      hide SchedOk;
      ghost var ok := ring.Push(c);
      if ok { accepted := accepted + [c]; }
      sched.WakeInputWaiters();
    }

    /** The read system call on the terminal: it delivers what is there, or blocks the caller, which will issue it
        again. `writable` is what the range check says about the user's buffer; keys for a null buffer are lost. */
    method ReadCall(frame: Frame, len: nat, writable: bool, isNull: bool)
      returns (blocked: bool, out: seq<char>, f: Frame)
      requires Valid()
      modifies this`delivered, ring, sched
      ensures Valid() && accepted == old(accepted) && delivered == old(delivered) + out
      ensures |out| == if writable then Least(Least(len, READ_CHUNK), |old(ring.keys)|) else 0
      ensures blocked == (writable && len > 0 && old(ring.keys) == [])
      ensures blocked ==> sched.Now() == WaitInput(old(sched.Now()), Frame(frame.rip - 2, SYSCALL_READ))
      ensures !blocked ==> sched.Now() == old(sched.Now())
      ensures !blocked ==> f == frame.(rax := if !writable || (isNull && out != []) then FAILED else |out|)
    {
      hide SchedOk, WaitInput;
      var toRead := Least(len, READ_CHUNK);
      blocked, out := false, [];
      if !writable {
        return false, out, frame.(rax := FAILED);
      }
      out := ring.Read(toRead);
      delivered := delivered + out;
      if |out| == 0 && toRead > 0 {
        blocked := true;
        f := sched.WaitCurrentForInput(Frame(frame.rip - 2, SYSCALL_READ));
        return;
      }
      f := frame.(rax := if isNull && |out| > 0 then FAILED else |out|);
    }

    /** Any other handler. */
    method Handle(e: Event)
      requires Valid() && !e.WaitCall?
      modifies sched
      ensures Valid() && sched.Now() == Next(old(sched.Now()), e)
    {
      hide SchedOk, NoWaiters, OnTick, Finish, Yield, SleepFor, WaitInput, WakeInput, Create;
      if ring.keys != [] { StillNoWaiters(sched.Now(), e); }
      match e {
        case Timer(f) => var r := sched.OnTimerTick(f);
        case Exit(f, status) => var r, ok := sched.FinishCurrent(f, status);
        case Fault(f, vector) => var r, ok := sched.FinishCurrent(f, 128 + vector);
        case YieldCall(f) => var r := sched.YieldCurrent(f);
        case SleepCall(f, n) => var r := sched.SleepCurrent(f, n);
        case Wake => sched.WakeInputWaiters();
        case Spawn(user, f) => var ok := sched.CreateTask(user, f);
      }
    }
  }
}
