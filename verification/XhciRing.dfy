/** A transfer ring shared by driver and controller: cycle bits, a Link TRB at the end, one transfer at a time. */
module XhciRing {
  import opened Arithmetic

  datatype Kind = Empty | Normal | Link

  /** A transfer request block: three parameter words and the control word with its type and cycle bit. */
  datatype Trb = Trb(w0: nat, w1: nat, w2: nat, kind: Kind, cycle: bool)

  datatype Payload = Payload(w0: nat, w1: nat, w2: nat)

  /** The ring lies at physical address `phys`, 16 bytes to a slot. `next` and `pcs` belong to the driver, `deq` and
      `ccs` to the controller. `queued` and `consumed` record what was
      handed over and what was taken, `done` counts completed transfers, and `base` is the slot the first one used. */
  datatype Ring = Ring(phys: nat, slots: seq<Trb>, next: nat, pcs: bool, deq: nat, ccs: bool,
                       queued: seq<Payload>, consumed: seq<Payload>, done: nat, base: nat)

  // ---------- positions and laps ----------

  lemma {:induction false} NextStep(a: nat, m: nat)
    requires m > 0
    ensures (a + 1) % m == (if a % m + 1 < m then a % m + 1 else 0)
    ensures (a + 1) / m == (if a % m + 1 < m then a / m else a / m + 1)
  {
    var q, r := a / m, a % m;
    assert a == q * m + r;
    if r + 1 < m { DivModUnique(a + 1, m, q, r + 1); } else {
      assert (q + 1) * m == q * m + m;
      DivModUnique(a + 1, m, q + 1, 0);
    }
  }

  /** The slot of transfer number `a`; the last slot of the ring holds the link. */
  function SlotOf(n: nat, a: nat): (i: nat)
    requires n >= 3
    ensures i < n - 1
  {
    a % (n - 1)
  }

  /** The cycle bit of transfer number `a`: it flips with every lap. */
  predicate CycleOf(n: nat, a: nat)
    requires n >= 3
  {
    a / (n - 1) % 2 == 0
  }

  lemma Advance(n: nat, a: nat)
    requires n >= 3
    ensures SlotOf(n, a + 1) == if SlotOf(n, a) + 1 < n - 1 then SlotOf(n, a) + 1 else 0
    ensures CycleOf(n, a + 1) == if SlotOf(n, a) + 1 < n - 1 then CycleOf(n, a) else !CycleOf(n, a)
  {
    NextStep(a, n - 1);
  }

  // ---------- the link ----------

  const WORD: nat := 0x1_0000_0000
  const TRB_SIZE: nat := 16

  /** Parameter word `w` of the link: the ring's own address, low half first. */
  function LinkWord(phys: nat, w: nat): (v: nat) {
    if w == 0 then phys % WORD else if w == 1 then phys / WORD % WORD else 0
  }

  /** The slot that the address in a link leads to. */
  function LinkTarget(phys: nat, link: Trb): (i: int) {
    (link.w0 + WORD * link.w1 - phys) / TRB_SIZE
  }

  /** The last slot is a link back to the start of the ring. */
  predicate LinksBack(r: Ring) {
    && r.slots != []
    && var link := r.slots[|r.slots| - 1];
       link.kind == Link && link.w0 == LinkWord(r.phys, 0) && link.w1 == LinkWord(r.phys, 1)
  }

  lemma LinkLeadsBack(r: Ring)
    requires LinksBack(r) && r.phys < WORD * WORD
    ensures LinkTarget(r.phys, r.slots[|r.slots| - 1]) == 0
  {
    assert r.phys / WORD < WORD;
    assert r.phys % WORD + WORD * (r.phys / WORD) == r.phys;
  }

  // ---------- the invariant ----------

  /** How far the current transfer has come: nothing touched, the slot after it is being prepared, its words are being
      written, or its control word is out. */
  datatype Phase = Settled | Preparing | Filling | Queued

  /** The slot after the enqueue slot is closed to the controller. */
  predicate NextClosed(r: Ring) {
    var n := |r.slots|;
    && n >= 3 && r.next < n - 1
    && if r.next + 1 < n - 1 then r.slots[r.next + 1].cycle != r.pcs
       else LinksBack(r) && r.slots[n - 1].cycle == r.pcs && r.slots[0].cycle == r.pcs
  }

  /** The controller stands at the next transfer to consume, or on the link in front of it. */
  predicate ControllerAt(r: Ring) {
    var n, x := |r.slots|, r.base + |r.consumed|;
    && n >= 3
    && ((r.deq == SlotOf(n, x) && r.ccs == CycleOf(n, x))
        || (r.deq == n - 1 && SlotOf(n, x) == 0 && r.ccs == !CycleOf(n, x) && LinksBack(r)
            && r.slots[n - 1].cycle == r.ccs))
  }

  predicate RingOk(r: Ring, phase: Phase) {
    var n := |r.slots|;
    && n >= 3 && r.phys < WORD * WORD && r.next == SlotOf(n, r.base + r.done) && r.pcs == CycleOf(n, r.base + r.done)
    && |r.queued| == (if phase.Queued? then r.done + 1 else r.done)
    && r.done <= |r.consumed| <= |r.queued| && r.consumed == r.queued[..|r.consumed|]
    && ControllerAt(r)
    && (phase.Queued? ==> var p := r.queued[r.done]; r.slots[r.next] == Trb(p.w0, p.w1, p.w2, Normal, r.pcs))
    && (!phase.Queued? ==> r.slots[r.next].cycle != r.pcs)
    && (phase.Filling? || phase.Queued? ==> NextClosed(r))
  }

  // ---------- driver writes ----------

  /** Word `w` of slot `i` written; word 3 is the control word. */
  function PutWord(r: Ring, i: nat, w: nat, v: nat, kind: Kind, cycle: bool): (r': Ring)
    requires i < |r.slots|
    ensures |r'.slots| == |r.slots|
  {
    var t := r.slots[i];
    r.(slots := r.slots[i := if w == 0 then t.(w0 := v) else if w == 1 then t.(w1 := v) else if w == 2 then t.(w2 := v)
                             else t.(kind := kind, cycle := cycle)])
  }

  /** Writes to the slot after the enqueue slot keep the ring, whatever the controller does meanwhile. */
  lemma MarkKeeps(r: Ring, w: nat)
    requires RingOk(r, Settled) || RingOk(r, Preparing)
    requires r.next + 1 < |r.slots| - 1
    ensures var r' := PutWord(r, r.next + 1, w, 0, Empty, !r.pcs);
            RingOk(r', Preparing) && (w > 2 ==> RingOk(r', Filling))
  {
    Advance(|r.slots|, r.base + r.done);
  }

  /** At the end of a lap: the link words, then slot 0. The controller cannot be on the link then. */
  lemma LinkKeeps(r: Ring, w: nat, v: nat)
    requires RingOk(r, Settled) || RingOk(r, Preparing)
    requires r.next + 1 == |r.slots| - 1
    ensures RingOk(PutWord(r, |r.slots| - 1, w, v, Link, r.pcs), Preparing)
  {
    assert |r.consumed| == r.done;
  }

  lemma WrapKeeps(r: Ring, w: nat)
    requires RingOk(r, Preparing) && r.next + 1 == |r.slots| - 1
    requires LinksBack(r) && r.slots[|r.slots| - 1].cycle == r.pcs
    ensures var r' := PutWord(r, 0, w, 0, Empty, r.pcs);
            RingOk(r', Preparing) && (w > 2 ==> RingOk(r', Filling))
            && r'.slots[|r'.slots| - 1] == r.slots[|r.slots| - 1]
  {
  }

  /** The parameter words of the transfer. */
  lemma FillKeeps(r: Ring, w: nat, v: nat)
    requires RingOk(r, Filling) && w <= 2
    ensures RingOk(PutWord(r, r.next, w, v, Normal, r.pcs), Filling)
  {
  }

  /** The control word goes out last and hands the transfer over. */
  lemma QueueKeeps(r: Ring, p: Payload)
    requires RingOk(r, Filling) && r.slots[r.next].w0 == p.w0 && r.slots[r.next].w1 == p.w1
    requires r.slots[r.next].w2 == p.w2
    ensures RingOk(PutWord(r, r.next, 3, 0, Normal, r.pcs).(queued := r.queued + [p]), Queued)
  {
    assert (r.queued + [p])[..|r.consumed|] == r.queued[..|r.consumed|];
  }

  /** A completed transfer moves the enqueue slot on. */
  function Moved(r: Ring): (r': Ring) {
    if r.next + 1 < |r.slots| - 1 then r.(next := r.next + 1, done := r.done + 1)
    else r.(next := 0, pcs := !r.pcs, done := r.done + 1)
  }

  lemma MoveKeeps(r: Ring)
    requires RingOk(r, Queued) && |r.consumed| == r.done + 1
    ensures RingOk(Moved(r), Settled)
  {
    Advance(|r.slots|, r.base + r.done);
  }

  // ---------- controller steps ----------

  predicate CanConsume(r: Ring) {
    r.deq < |r.slots| && r.slots[r.deq].cycle == r.ccs && r.slots[r.deq].kind == Normal
  }

  function Consume(r: Ring): (r': Ring)
    requires CanConsume(r)
  {
    var t := r.slots[r.deq];
    r.(deq := r.deq + 1, consumed := r.consumed + [Payload(t.w0, t.w1, t.w2)])
  }

  predicate CanFollow(r: Ring) {
    r.deq < |r.slots| && r.slots[r.deq].cycle == r.ccs && r.slots[r.deq].kind == Link
  }

  /** The controller goes where the link's address says, and flips its cycle bit. */
  function Follow(r: Ring): (r': Ring)
    requires CanFollow(r)
  {
    var i := LinkTarget(r.phys, r.slots[r.deq]);
    r.(deq := if i >= 0 then i else |r.slots|, ccs := !r.ccs)
  }

  /** The controller finds an active TRB exactly when a queued transfer is not consumed yet or it stands on the link;
      it never sees one that was not queued. */
  lemma ConsumeIsQueued(r: Ring, phase: Phase)
    requires RingOk(r, phase) && CanConsume(r)
    ensures phase.Queued? && |r.consumed| == r.done && r.deq == r.next
    ensures Consume(r).consumed == r.queued && RingOk(Consume(r), Queued)
  {
    Advance(|r.slots|, r.base + r.done);
    assert r.queued == r.queued[..r.done] + [r.queued[r.done]];
  }

  lemma FollowKeeps(r: Ring, phase: Phase)
    requires RingOk(r, phase) && CanFollow(r)
    ensures r.deq == |r.slots| - 1 && Follow(r).deq == 0 && RingOk(Follow(r), phase)
  {
    if r.deq == |r.slots| - 1 { LinkLeadsBack(r); }
    Advance(|r.slots|, r.base + r.done);
  }

  /** An active slot under the controller is a queued transfer or the link: nothing past the enqueue slot is taken. */
  lemma NeverPast(r: Ring, phase: Phase)
    requires RingOk(r, phase)
    ensures r.deq < |r.slots| && (r.slots[r.deq].cycle == r.ccs ==> CanConsume(r) || CanFollow(r))
  {
    Advance(|r.slots|, r.base + r.done);
  }
}
