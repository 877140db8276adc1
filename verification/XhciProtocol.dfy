/** Driver and controller interleaved: every word the driver writes is one step, and the controller may act between any
    two of them. */
module XhciProtocol {
  import opened Arithmetic
  import opened XhciRing
  import opened XhciEvents

  const SUCCESS: nat := 1

  /** Where the driver is inside a transfer; the number is the next word to write. */
  datatype Pc =
    | Idle | Mark(w: nat) | WriteLink(w: nat) | WrapMark(w: nat) | Fill(w: nat) | Bell
    | Wait | Publish(ev: Event) | Step(ev: Event) | Recheck(at: nat, ev: Event) | Finish | Failed

  /** The bulk rings and the event ring; `e` and `p` are the endpoint and payload of the current transfer, `owed` counts
      completions the controller has not posted yet. */
  datatype State = State(rings: seq<Ring>, events: Events, pc: Pc, e: nat, p: Payload, owed: nat)

  datatype Action =
    | Begin(e: nat, p: Payload)   // the driver starts a transfer
    | Drive                       // the driver takes its next step
    | Take(e: nat)                // the controller consumes a TRB
    | Jump(e: nat)                // the controller follows a link
    | Complete                    // the controller posts an owed completion
    | Other(code: nat)            // the controller posts an event of another kind

  function WordOf(p: Payload, w: nat): nat {
    if w == 0 then p.w0 else if w == 1 then p.w1 else p.w2
  }

  // ---------- driver steps ----------

  function WithRing(s: State, r: Ring, pc: Pc): State
    requires s.e < |s.rings|
  {
    s.(rings := s.rings[s.e := r], pc := pc)
  }

  /** One step of the driver; the guards hold in every reachable state. */
  function DriverStep(s: State): State {
    if s.e >= |s.rings| then s
    else
      var r := s.rings[s.e];
      var n := |r.slots|;
      match s.pc
      case Idle => s
      case Mark(w) =>
        if r.next + 1 >= n then s
        else WithRing(s, PutWord(r, r.next + 1, w, 0, Empty, !r.pcs), if w < 3 then Mark(w + 1) else Fill(0))
      case WriteLink(w) =>
        if n == 0 then s
        else WithRing(s, PutWord(r, n - 1, w, LinkWord(r.phys, w), Link, r.pcs), if w < 3 then WriteLink(w + 1)
                        else WrapMark(0))
      case WrapMark(w) =>
        if n == 0 then s
        else WithRing(s, PutWord(r, 0, w, 0, Empty, r.pcs), if w < 3 then WrapMark(w + 1) else Fill(0))
      case Fill(w) =>
        if r.next >= n then s
        else if w < 3 then WithRing(s, PutWord(r, r.next, w, WordOf(s.p, w), Normal, r.pcs), Fill(w + 1))
        else WithRing(s, PutWord(r, r.next, 3, 0, Normal, r.pcs).(queued := r.queued + [s.p]), Bell)
      case Bell => s.(pc := Wait)
      case Wait =>
        if Visible(s.events) then s.(pc := Publish(s.events.slots[s.events.idx].ev)) else s
      case Publish(ev) => s.(events := Release(s.events), pc := Step(ev))
      case Step(ev) => s.(events := Pass(s.events), pc := if ev.mine then Recheck(s.events.idx, ev) else Wait)
      case Recheck(at, _) =>
        if at < |s.events.slots| && s.events.slots[at].ev.code == SUCCESS then s.(pc := Finish) else s.(pc := Failed)
      case Finish => WithRing(s, Moved(r), Idle)
      case Failed => s
  }

  function BeginStep(s: State, e: nat, p: Payload): State {
    if s.pc.Idle? && e < |s.rings| && |s.rings[e].slots| >= 3 then
      s.(e := e, p := p, pc := if s.rings[e].next + 1 < |s.rings[e].slots| - 1 then Mark(0) else WriteLink(0))
    else s
  }

  // ---------- one step of the whole system; an action that is not enabled changes nothing ----------

  function Next(s: State, a: Action): State {
    match a
    case Begin(e, p) => BeginStep(s, e, p)
    case Drive => DriverStep(s)
    case Take(e) =>
      if e < |s.rings| && CanConsume(s.rings[e])
        then s.(rings := s.rings[e := Consume(s.rings[e])], owed := s.owed + 1) else s
    case Jump(e) =>
      if e < |s.rings| && CanFollow(s.rings[e]) then s.(rings := s.rings[e := Follow(s.rings[e])]) else s
    case Complete =>
      if s.owed > 0 && CanPost(s.events) then s.(events := Post(s.events, Event(true, SUCCESS)), owed := s.owed - 1)
        else s
    case Other(code) =>
      if CanPost(s.events) then s.(events := Post(s.events, Event(false, code))) else s
  }

  function Run(s: State, acts: seq<Action>): State
    decreases |acts|
  {
    if acts == [] then s else Run(Next(s, acts[0]), acts[1..])
  }

  // ---------- the invariant ----------

  function PhaseOf(pc: Pc): Phase {
    match pc
    case Idle => Settled
    case Mark(_) => Preparing
    case WriteLink(_) => Preparing
    case WrapMark(_) => Preparing
    case Fill(_) => Filling
    case _ => Queued
  }

  /** Transfer events among the unread ones. */
  function Mine(log: seq<Event>, from: nat): (n: nat)
    decreases |log| - from
  {
    if from >= |log| then 0 else Mine(log, from + 1) + if log[from].mine then 1 else 0
  }

  /** What the program counter says about the current ring. */
  predicate PcRing(r: Ring, pc: Pc, p: Payload) {
    var n := |r.slots|;
    match pc
    case Mark(w) => w <= 3 && r.next + 1 < n - 1
    case WriteLink(w) =>
      && w <= 3 && n > 0 && r.next + 1 == n - 1 && (w > 0 ==> r.slots[n - 1].w0 == LinkWord(r.phys, 0))
      && (w > 1 ==> r.slots[n - 1].w1 == LinkWord(r.phys, 1))
    case WrapMark(w) => w <= 3 && n > 0 && r.next + 1 == n - 1 && LinksBack(r) && r.slots[n - 1].cycle == r.pcs
    case Fill(w) =>
      && w <= 3 && r.next < n && (w > 0 ==> r.slots[r.next].w0 == p.w0) && (w > 1 ==> r.slots[r.next].w1 == p.w1)
      && (w > 2 ==> r.slots[r.next].w2 == p.w2)
    case Failed => false
    case _ => true
  }

  /** The current transfer's event was taken off the ring. */
  predicate Accepted(pc: Pc) {
    pc.Recheck? || pc.Finish?
  }

  /** What the program counter says about the event ring. */
  ghost predicate PcEvents(e: Events, pc: Pc) {
    && e.released == (if pc.Step? then e.taken + 1 else e.taken)
    && (pc.Publish? || pc.Step? ==> e.taken < |e.log| && pc.ev == e.log[e.taken])
    && (pc.Recheck? ==>
          0 < e.taken <= |e.log| && |e.slots| > 0 && pc.at == (e.taken - 1) % |e.slots| && pc.ev == e.log[e.taken - 1]
                        && pc.ev.code == SUCCESS)
  }

  /** Every completed transfer has exactly one event on its way. */
  ghost predicate Accounted(s: State) {
    && s.e < |s.rings|
    && var r := s.rings[s.e];
       && |r.consumed| >= r.done
       && Mine(s.events.log, s.events.taken) + s.owed + (if Accepted(s.pc) then 1 else 0) == |r.consumed| - r.done
  }

  ghost predicate Successes(e: Events) {
    forall k :: e.taken <= k < |e.log| && e.log[k].mine ==> e.log[k].code == SUCCESS
  }

  ghost predicate RingsOk(s: State) {
    s.e < |s.rings| && forall j: nat :: j < |s.rings| ==>
      RingOk(s.rings[j], if j == s.e then PhaseOf(s.pc) else Settled)
  }

  ghost predicate Inv(s: State) {
    && RingsOk(s) && PcRing(s.rings[s.e], s.pc, s.p)
    && EventsOk(s.events) && PcEvents(s.events, s.pc) && Successes(s.events) && Accounted(s)
  }

  lemma InvParts(s: State)
    requires Inv(s)
    ensures s.e < |s.rings| && RingsOk(s) && PcRing(s.rings[s.e], s.pc, s.p) && RingOk(s.rings[s.e], PhaseOf(s.pc))
    ensures EventsOk(s.events) && PcEvents(s.events, s.pc) && Successes(s.events) && Accounted(s)
  {
    hide RingOk, PcRing, EventsOk, PcEvents, Successes, Accounted, PhaseOf;
  }

  lemma InvIs(s: State)
    requires RingsOk(s) && s.e < |s.rings| && PcRing(s.rings[s.e], s.pc, s.p)
    requires EventsOk(s.events) && PcEvents(s.events, s.pc) && Successes(s.events) && Accounted(s)
    ensures Inv(s)
  {
    hide RingsOk, PcRing, EventsOk, PcEvents, Successes, Accounted;
  }

  /** Replacing the current ring. */
  lemma RingReplaced(s: State, r: Ring, pc: Pc)
    requires RingsOk(s) && s.e < |s.rings| && RingOk(r, PhaseOf(pc))
    ensures RingsOk(WithRing(s, r, pc))
  {
    hide RingOk, PhaseOf;
  }

  /** Before the control word is out, nothing is outstanding. */
  lemma NothingOut(s: State)
    requires RingsOk(s) && s.e < |s.rings| && !PhaseOf(s.pc).Queued?
    ensures |s.rings[s.e].consumed| == s.rings[s.e].done == |s.rings[s.e].queued|
  {
    assert RingOk(s.rings[s.e], PhaseOf(s.pc));
  }

  // ---------- driver steps keep the invariant ----------

  /** A word written before the hand-over. */
  lemma WriteStep(s: State, r: Ring, pc: Pc)
    requires Inv(s) && s.e < |s.rings| && !PhaseOf(s.pc).Queued? && !PhaseOf(pc).Queued? && RingOk(r, PhaseOf(pc))
    requires PcRing(r, pc, s.p)
    requires |r.consumed| == |s.rings[s.e].consumed| && r.done == s.rings[s.e].done
    ensures Inv(WithRing(s, r, pc))
  {
    hide RingOk, EventsOk, PcRing, Mine;
    InvParts(s);
    RingReplaced(s, r, pc);
    QuietEvents(s.events, s.pc, pc);
    InvIs(WithRing(s, r, pc));
  }

  lemma QuietEvents(e: Events, pc: Pc, pc': Pc)
    requires PcEvents(e, pc) && !PhaseOf(pc).Queued? && !PhaseOf(pc').Queued?
    ensures PcEvents(e, pc') && Accepted(pc) == Accepted(pc')
  {
  }

  lemma MarkStep(s: State)
    requires Inv(s) && s.pc.Mark?
    ensures Inv(DriverStep(s))
  {
    InvParts(s);
    var r, w := s.rings[s.e], s.pc.w;
    MarkKeeps(r, w);
    hide RingOk, Inv, RingsOk, EventsOk, PcEvents, Successes, Accounted;
    WriteStep(s, PutWord(r, r.next + 1, w, 0, Empty, !r.pcs), if w < 3 then Mark(w + 1) else Fill(0));
  }

  lemma LinkStep(s: State)
    requires Inv(s) && s.pc.WriteLink?
    ensures Inv(DriverStep(s))
  {
    InvParts(s);
    var r, w := s.rings[s.e], s.pc.w;
    LinkKeeps(r, w, LinkWord(r.phys, w));
    hide RingOk, Inv, RingsOk, EventsOk, PcEvents, Successes, Accounted;
    WriteStep(s, PutWord(r, |r.slots| - 1, w, LinkWord(r.phys, w), Link, r.pcs), if w < 3 then WriteLink(w + 1)
                else WrapMark(0));
  }

  lemma WrapStep(s: State)
    requires Inv(s) && s.pc.WrapMark?
    ensures Inv(DriverStep(s))
  {
    InvParts(s);
    var r, w := s.rings[s.e], s.pc.w;
    WrapKeeps(r, w);
    hide RingOk, Inv, RingsOk, EventsOk, PcEvents, Successes, Accounted;
    WriteStep(s, PutWord(r, 0, w, 0, Empty, r.pcs), if w < 3 then WrapMark(w + 1) else Fill(0));
  }

  lemma FillStep(s: State)
    requires Inv(s) && s.pc.Fill? && s.pc.w < 3
    ensures Inv(DriverStep(s))
  {
    InvParts(s);
    var r, w := s.rings[s.e], s.pc.w;
    FillKeeps(r, w, WordOf(s.p, w));
    hide RingOk, Inv, RingsOk, EventsOk, PcEvents, Successes, Accounted;
    WriteStep(s, PutWord(r, r.next, w, WordOf(s.p, w), Normal, r.pcs), Fill(w + 1));
  }

  /** The control word hands the transfer over. */
  lemma QueueStep(s: State)
    requires Inv(s) && s.pc.Fill? && s.pc.w >= 3
    ensures Inv(DriverStep(s))
  {
    InvParts(s);
    var r := s.rings[s.e];
    QueueKeeps(r, s.p);
    var r' := PutWord(r, r.next, 3, 0, Normal, r.pcs).(queued := r.queued + [s.p]);
    hide RingOk, RingsOk, EventsOk, Mine, Successes;
    RingReplaced(s, r', Bell);
    InvIs(WithRing(s, r', Bell));
  }

  lemma WaitStep(s: State)
    requires Inv(s) && (s.pc.Bell? || s.pc.Wait?)
    ensures Inv(DriverStep(s))
  {
    InvParts(s);
    SeesOldest(s.events);
    hide RingOk, EventsOk, Mine, Visible;
    var s' := DriverStep(s);
    InvIs(s');
  }

  lemma PublishStep(s: State)
    requires Inv(s) && s.pc.Publish?
    ensures Inv(DriverStep(s))
  {
    InvParts(s);
    ReleaseKeeps(s.events);
    hide RingOk, EventsOk, Mine;
    InvIs(DriverStep(s));
  }

  lemma PassStep(s: State)
    requires Inv(s) && s.pc.Step?
    ensures Inv(DriverStep(s))
  {
    InvParts(s);
    PassKeeps(s.events);
    var e := s.events;
    assert Mine(e.log, e.taken) == Mine(e.log, e.taken + 1) + if e.log[e.taken].mine then 1 else 0;
    assert |e.slots| >= 2 && e.idx == e.taken % |e.slots|;
    hide RingOk, EventsOk, Mine;
    InvIs(DriverStep(s));
  }

  /** The completion code read again after the slot was released is still the one that was seen. */
  lemma RecheckStep(s: State)
    requires Inv(s) && s.pc.Recheck?
    ensures Inv(DriverStep(s)) && DriverStep(s).pc == Finish
  {
    InvParts(s);
    PassedStays(s.events);
    hide RingOk, EventsOk, Mine;
    InvIs(DriverStep(s));
  }

  lemma FinishStep(s: State)
    requires Inv(s) && s.pc.Finish?
    ensures Inv(DriverStep(s))
  {
    InvParts(s);
    var r := s.rings[s.e];
    assert |r.consumed| == r.done + 1;
    MoveKeeps(r);
    hide RingOk, EventsOk, Mine, RingsOk;
    RingReplaced(s, Moved(r), Idle);
    InvIs(DriverStep(s));
  }

  lemma DriveKeeps(s: State)
    requires Inv(s)
    ensures Inv(DriverStep(s))
  {
    hide Inv, DriverStep;
    match s.pc
    case Mark(_) => MarkStep(s);
    case WriteLink(_) => LinkStep(s);
    case WrapMark(_) => WrapStep(s);
    case Fill(w) => if w < 3 { FillStep(s); } else { QueueStep(s); }
    case Bell => WaitStep(s);
    case Wait => WaitStep(s);
    case Publish(_) => PublishStep(s);
    case Step(_) => PassStep(s);
    case Recheck(_, _) => RecheckStep(s);
    case Finish => FinishStep(s);
    case Idle => RestStep(s);
    case Failed => RestStep(s);
  }

  lemma RestStep(s: State)
    requires Inv(s) && (s.pc.Idle? || s.pc.Failed?)
    ensures Inv(DriverStep(s))
  {
    hide Inv;
  }

  // ---------- the other actions ----------

  lemma BeginKeeps(s: State, e: nat, p: Payload)
    requires Inv(s)
    ensures Inv(BeginStep(s, e, p))
  {
    InvParts(s);
    if s.pc.Idle? && e < |s.rings| && |s.rings[e].slots| >= 3 {
      NothingOut(s);
      assert RingOk(s.rings[e], Settled) && |s.rings[e].consumed| == s.rings[e].done;
      assert RingOk(s.rings[e], Preparing) && s.rings[e].next < |s.rings[e].slots| - 1;
      hide RingOk, EventsOk, Mine;
      InvIs(BeginStep(s, e, p));
    }
  }

  lemma TakeKeeps(s: State, e: nat)
    requires Inv(s) && e < |s.rings| && CanConsume(s.rings[e])
    ensures e == s.e && PhaseOf(s.pc).Queued? && Consume(s.rings[e]).consumed == s.rings[e].queued
    ensures Inv(Next(s, Take(e)))
  {
    InvParts(s);
    var phase := if e == s.e then PhaseOf(s.pc) else Settled;
    assert RingOk(s.rings[e], phase);
    ConsumeIsQueued(s.rings[e], phase);
    var s' := Next(s, Take(e));
    hide RingOk, EventsOk, Mine, CanConsume;
    assert !Accepted(s.pc);
    InvIs(s');
  }

  lemma JumpKeeps(s: State, e: nat)
    requires Inv(s) && e < |s.rings| && CanFollow(s.rings[e])
    ensures Inv(Next(s, Jump(e)))
  {
    InvParts(s);
    var phase := if e == s.e then PhaseOf(s.pc) else Settled;
    assert RingOk(s.rings[e], phase);
    FollowKeeps(s.rings[e], phase);
    hide RingOk, EventsOk, Mine, CanFollow;
    InvIs(Next(s, Jump(e)));
  }

  lemma {:induction false} MineMore(log: seq<Event>, ev: Event, from: nat)
    requires from <= |log|
    ensures Mine(log + [ev], from) == Mine(log, from) + if ev.mine then 1 else 0
    decreases |log| - from
  {
    if from < |log| { MineMore(log, ev, from + 1); }
  }

  /** Posting an event. */
  lemma PostStep(s: State, ev: Event, owed: nat)
    requires Inv(s) && CanPost(s.events) && (ev.mine ==> ev.code == SUCCESS)
    requires owed + (if ev.mine then 1 else 0) == s.owed
    ensures Inv(s.(events := Post(s.events, ev), owed := owed))
  {
    InvParts(s);
    PostKeeps(s.events, ev);
    assert s.events.taken <= |s.events.log|;
    MineMore(s.events.log, ev, s.events.taken);
    hide RingOk, EventsOk, Mine, CanPost;
    InvIs(s.(events := Post(s.events, ev), owed := owed));
  }

  /** Every step of driver or controller keeps the invariant. */
  lemma StepKeeps(s: State, a: Action)
    requires Inv(s)
    ensures Inv(Next(s, a))
  {
    hide Inv, DriverStep, BeginStep, CanConsume, CanFollow, CanPost;
    match a
    case Begin(e, p) => BeginKeeps(s, e, p);
    case Drive => DriveKeeps(s);
    case Take(e) => if e < |s.rings| && CanConsume(s.rings[e]) { TakeKeeps(s, e); }
    case Jump(e) => if e < |s.rings| && CanFollow(s.rings[e]) { JumpKeeps(s, e); }
    case Complete => if s.owed > 0 && CanPost(s.events) { PostStep(s, Event(true, SUCCESS), s.owed - 1); }
    case Other(code) => if CanPost(s.events) { PostStep(s, Event(false, code), s.owed); }
  }

  lemma {:induction false} RunKeeps(s: State, acts: seq<Action>)
    requires Inv(s)
    ensures Inv(Run(s, acts))
    decreases |acts|
  {
    hide Inv, Next;
    if acts != [] {
      StepKeeps(s, acts[0]);
      RunKeeps(Next(s, acts[0]), acts[1..]);
    }
  }

  // ---------- what every reachable state satisfies ----------

  /** The ring's controller has consumed exactly what was queued, in order and once, but for at most the one transfer in
      flight, and all of it when the driver is idle; no TRB it can act on lies past the enqueue slot, and a link it
      follows leads to the first slot. The driver's event position is the count of events passed, modulo the ring size,
      with that lap's cycle bit, and the event it has in hand is the next one in the order of posting. */
  ghost predicate Safe(t: State, j: nat) {
    && j < |t.rings|
    && var r, ev := t.rings[j], t.events;
       && |r.consumed| <= |r.queued| <= |r.consumed| + 1 && r.consumed == r.queued[..|r.consumed|]
       && (t.pc.Idle? || j != t.e ==> r.consumed == r.queued)
       && r.deq < |r.slots| && (r.slots[r.deq].cycle == r.ccs ==> CanConsume(r) || CanFollow(r))
       && (CanFollow(r) ==> Follow(r).deq == 0)
       && |ev.slots| >= 2 && ev.idx == ev.taken % |ev.slots| && ev.cycle == Lap(|ev.slots|, ev.taken)
          && ev.taken <= |ev.log|
       && (t.pc.Publish? || t.pc.Step? ==> ev.taken < |ev.log| && t.pc.ev == ev.log[ev.taken])
       && (t.pc.Recheck? ==> 0 < ev.taken && t.pc.ev == ev.log[ev.taken - 1])
       && !t.pc.Failed?
  }

  lemma InvIsSafe(t: State, j: nat)
    requires Inv(t) && j < |t.rings|
    ensures Safe(t, j)
  {
    InvParts(t);
    var phase := if j == t.e then PhaseOf(t.pc) else Settled;
    assert RingOk(t.rings[j], phase);
    NeverPast(t.rings[j], phase);
    if CanFollow(t.rings[j]) { FollowKeeps(t.rings[j], phase); }
    hide Inv, Mine, CyclesOk, ContentsOk, ControllerAt, NextClosed;
    var r := t.rings[j];
    assert !phase.Queued? ==> |r.consumed| == |r.queued| && r.queued[..|r.queued|] == r.queued;
  }

  /** Safety over every run: any interleaving of driver and controller, any number of laps. */
  lemma Safety(s: State, acts: seq<Action>, j: nat)
    requires Start(s) && j < |Run(s, acts).rings|
    ensures Safe(Run(s, acts), j)
  {
    hide *;
    StartIsSafe(s);
    RunKeeps(s, acts);
    InvIsSafe(Run(s, acts), j);
  }

  /** The start state of the kernel: both rings idle, positions as the bring-up leaves them. */
  ghost predicate Start(s: State) {
    && s.pc.Idle? && s.e < |s.rings| && s.owed == 0
    && (forall j: nat :: j < |s.rings| ==> FreshRing(s.rings[j]))
    && EventsOk(s.events) && s.events.released == s.events.taken == |s.events.log|
  }

  /** No transfer yet; the slot both sides stand on is inactive. */
  predicate FreshRing(r: Ring) {
    && r.phys < WORD * WORD && |r.slots| >= 3 && r.base < |r.slots| - 1 && r.next == r.deq == r.base && r.pcs && r.ccs
    && r.queued == [] && r.consumed == [] && r.done == 0 && !r.slots[r.base].cycle
  }

  lemma FreshIsOk(r: Ring)
    requires FreshRing(r)
    ensures RingOk(r, Settled)
  {
    DivModUnique(r.base, |r.slots| - 1, 0, r.base);
  }

  lemma StartIsSafe(s: State)
    requires Start(s)
    ensures Inv(s)
  {
    forall j: nat | j < |s.rings| ensures RingOk(s.rings[j], Settled) {
      FreshIsOk(s.rings[j]);
    }
    hide RingOk, EventsOk, FreshRing;
    assert RingsOk(s);
    InvIs(s);
  }
}
