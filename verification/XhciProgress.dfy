/** No transfer gets stuck: the controller can always take what was queued, and once it has posted the completion the
    driver ends the transfer within a bounded number of its own steps, whatever the controller does meanwhile. */
module XhciProgress {
  import opened XhciRing
  import opened XhciEvents
  import opened XhciProtocol

  // ---------- the controller's side ----------

  /** A queued transfer can be consumed, at once or after following the link. */
  lemma ControllerCan(r: Ring)
    requires RingOk(r, Queued) && |r.consumed| == r.done
    ensures CanConsume(r) || (CanFollow(r) && CanConsume(Follow(r)))
  {
    var n, x := |r.slots|, r.base + r.done;
    if r.deq == SlotOf(n, x) && r.ccs == CycleOf(n, x) {
      assert CanConsume(r);
    } else {
      assert CanFollow(r);
      FollowKeeps(r, Queued);
      assert CanConsume(Follow(r));
    }
  }

  /** An event can be posted unless the driver still has one to take. */
  lemma PostOrUnread(e: Events)
    requires EventsOk(e)
    ensures CanPost(e) || e.taken < |e.log|
  {
    hide CyclesOk, ContentsOk;
    var m := |e.slots|;
    if |e.log| == e.taken {
      Forward(m, |e.log|);
      assert e.released == e.taken;
      assert Wrapped(m, e.enq) != e.enq;
    }
  }

  // ---------- the driver's side ----------

  /** The driver takes the oldest unread event as soon as there is one. */
  lemma WaitTakes(s: State)
    requires Inv(s) && s.pc.Wait?
    ensures s.events.taken < |s.events.log| ==> DriverStep(s) == s.(pc := Publish(s.events.log[s.events.taken]))
    ensures s.events.taken == |s.events.log| ==> DriverStep(s) == s
  {
    InvParts(s);
    SeesOldest(s.events);
    hide RingOk, EventsOk, Mine, Visible;
  }

  /** The position of the first transfer event from `from` on. */
  function FirstMine(log: seq<Event>, from: nat): (m: nat)
    ensures from <= m
    ensures m < |log| ==> log[m].mine
    ensures forall k :: from <= k < m && k < |log| ==> !log[k].mine
    decreases |log| - from
  {
    if from >= |log| || log[from].mine then from else FirstMine(log, from + 1)
  }

  /** The current transfer's completion was posted; the driver may or may not have come to it. */
  predicate Arrived(s: State) {
    Accepted(s.pc)
    || (PhaseOf(s.pc).Queued? && !s.pc.Failed? && FirstMine(s.events.log, s.events.taken) < |s.events.log|)
  }

  /** How many steps the driver still needs. */
  function Left(s: State): (n: nat)
    requires Arrived(s)
  {
    var ahead := 3 * (FirstMine(s.events.log, s.events.taken) - s.events.taken);
    match s.pc
    case Bell => ahead + 6
    case Wait => ahead + 5
    case Publish(_) => ahead + 4
    case Step(_) => ahead + 3
    case Recheck(_, _) => 2
    case _ => 1
  }

  /** The events that are passed when the transfer ends. */
  function TakenAtEnd(s: State): (n: nat) {
    if Accepted(s.pc) then s.events.taken else FirstMine(s.events.log, s.events.taken) + 1
  }

  /** Three steps for each unread event, and a few more. */
  lemma LeftBound(s: State)
    requires Arrived(s) && s.events.taken <= |s.events.log|
    ensures Left(s) <= 3 * (|s.events.log| - s.events.taken) + 3
  {
  }

  /** What ending a transfer does to the driver's side: the ring moves on, and the events up to its own are passed. */
  ghost predicate EndsAs(s: State, t: State) {
    && t.pc.Idle? && t.e == s.e < |s.rings| == |t.rings|
    && t.rings[s.e].done == s.rings[s.e].done + 1 && t.events.taken == TakenAtEnd(s)
    && RingOk(t.rings[s.e], Settled)
  }

  /** One step of the driver: one less to go, or the transfer has ended. */
  lemma DriveCloser(s: State)
    requires Inv(s) && Arrived(s)
    ensures var t := DriverStep(s);
            if s.pc.Finish? then EndsAs(s, t)
            else Arrived(t) && Left(t) == Left(s) - 1 && SameTransfer(s, t)
  {
    hide Inv, EndsAs;
    InvParts(s);
    hide RingOk, EventsOk, RingsOk, Accounted, Successes;
    match s.pc
    case Bell =>
    case Wait => WaitTakes(s);
    case Publish(_) =>
    case Step(ev) => StepEvent(s);
    case Recheck(_, _) => RecheckStep(s);
    case Finish => FinishEnds(s);
  }

  /** The same transfer is under way, and will have passed the same events at its end. */
  predicate SameTransfer(s: State, t: State) {
    && t.e == s.e < |s.rings| == |t.rings| && t.rings[s.e].done == s.rings[s.e].done
    && TakenAtEnd(t) == TakenAtEnd(s)
  }

  lemma StepEvent(s: State)
    requires Inv(s) && s.pc.Step? && Arrived(s)
    ensures var t := DriverStep(s); Arrived(t) && Left(t) == Left(s) - 1 && SameTransfer(s, t)
  {
    InvParts(s);
    hide RingOk, EventsOk, Mine, RingsOk, Accounted, Successes;
    var e := s.events;
    assert s.pc.ev == e.log[e.taken];
    assert FirstMine(e.log, e.taken) == if e.log[e.taken].mine then e.taken else FirstMine(e.log, e.taken + 1);
  }

  lemma FinishEnds(s: State)
    requires Inv(s) && s.pc.Finish?
    ensures EndsAs(s, DriverStep(s))
  {
    InvParts(s);
    var r := s.rings[s.e];
    assert |r.consumed| == r.done + 1;
    MoveKeeps(r);
    hide RingOk, EventsOk, Mine, RingsOk;
  }

  lemma {:induction false} FirstMineMore(log: seq<Event>, ev: Event, from: nat)
    requires FirstMine(log, from) < |log|
    ensures FirstMine(log + [ev], from) == FirstMine(log, from)
    decreases |log| - from
  {
    if !log[from].mine { FirstMineMore(log, ev, from + 1); }
  }

  /** Whatever the controller does, the driver has no further to go. */
  lemma OthersKeepClose(s: State, a: Action)
    requires Inv(s) && Arrived(s) && !a.Drive?
    ensures Arrived(Next(s, a)) && Left(Next(s, a)) == Left(s) && SameTransfer(s, Next(s, a)) && Next(s, a).pc == s.pc
  {
    InvParts(s);
    hide RingOk, EventsOk, Mine, RingsOk, Accounted, Successes, PcEvents, CanConsume, CanFollow, CanPost, DriverStep;
    match a
    case Begin(e, p) =>
    case Take(e) => RingSame(s, a);
    case Jump(e) => RingSame(s, a);
    case Complete => PostSame(s, Event(true, SUCCESS));
    case Other(code) => PostSame(s, Event(false, code));
  }

  lemma PostSame(s: State, ev: Event)
    requires Arrived(s)
    ensures !Accepted(s.pc) ==>
              FirstMine(s.events.log + [ev], s.events.taken) == FirstMine(s.events.log, s.events.taken)
  {
    if !Accepted(s.pc) { FirstMineMore(s.events.log, ev, s.events.taken); }
  }

  lemma RingSame(s: State, a: Action)
    requires s.e < |s.rings| && (a.Take? || a.Jump?)
    ensures var t := Next(s, a);
            && t.events == s.events && t.pc == s.pc && t.e == s.e && |t.rings| == |s.rings|
            && t.rings[s.e].done == s.rings[s.e].done
  {
    hide CanConsume, CanFollow;
  }

  // ---------- up to the completion ----------

  lemma {:induction false} MineIsThere(log: seq<Event>, from: nat)
    requires Mine(log, from) > 0
    ensures FirstMine(log, from) < |log|
    decreases |log| - from
  {
    if !log[from].mine { MineIsThere(log, from + 1); }
  }

  /** A transfer that was consumed has its completion posted or owed, and posting it is all that is missing. */
  lemma ConsumedArrives(s: State)
    requires Inv(s) && PhaseOf(s.pc).Queued? && s.e < |s.rings| && |s.rings[s.e].consumed| == s.rings[s.e].done + 1
    ensures Arrived(s) || (s.owed == 1 && (CanPost(s.events) ==> Arrived(Next(s, Complete))))
  {
    InvParts(s);
    hide RingOk, EventsOk, RingsOk, Successes, PcEvents, CanPost;
    var log, taken := s.events.log, s.events.taken;
    if Mine(log, taken) > 0 { MineIsThere(log, taken); }
    if !Arrived(s) && CanPost(s.events) {
      MineMore(log, Event(true, SUCCESS), taken);
      MineIsThere(log + [Event(true, SUCCESS)], taken);
    }
  }

  // ---------- runs ----------

  function DriveCount(acts: seq<Action>): (n: nat) {
    if acts == [] then 0 else DriveCount(acts[1..]) + if acts[0].Drive? then 1 else 0
  }

  /** Once the completion is posted, any run in which the driver takes enough steps comes to the end of the transfer:
      the driver idle, the ring one transfer further with slot and cycle bit of the next one, and the events passed up
      to and including its own. */
  lemma {:induction false} TransferEnds(s: State, acts: seq<Action>) returns (k: nat)
    requires Inv(s) && Arrived(s) && Left(s) <= DriveCount(acts)
    ensures k <= |acts| && Inv(Run(s, acts[..k])) && EndsAs(s, Run(s, acts[..k]))
    decreases |acts|
  {
    hide Inv, Next, Left, Arrived, TakenAtEnd, RingOk;
    LeftPositive(s);
    var a, t := acts[0], Next(s, acts[0]);
    StepKeeps(s, a);
    NextDrive(s);
    if a.Drive? { DriveCloser(s); } else { OthersKeepClose(s, a); }
    if a.Drive? && s.pc.Finish? {
      k := 1;
      OneStep(s, acts);
    } else {
      var j := TransferEnds(t, acts[1..]);
      k := j + 1;
      assert acts[..k][1..] == acts[1..][..j] && acts[..k][0] == a;
      EndsAlong(s, t, Run(t, acts[1..][..j]));
    }
  }

  lemma LeftPositive(s: State)
    requires Arrived(s)
    ensures Left(s) >= 1
  {
  }

  lemma NextDrive(s: State)
    ensures Next(s, Drive) == DriverStep(s)
  {
    hide DriverStep;
  }

  lemma OneStep(s: State, acts: seq<Action>)
    requires acts != []
    ensures Run(s, acts[..1]) == Next(s, acts[0])
  {
    hide Next;
    assert acts[..1][1..] == [];
  }

  lemma EndsAlong(s: State, t: State, u: State)
    requires SameTransfer(s, t) && EndsAs(t, u)
    ensures EndsAs(s, u)
  {
    hide RingOk, TakenAtEnd;
  }
}
