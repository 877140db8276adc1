/** The driver's side of the rings as it is written: a transfer queued word by word, and the two advances. */
module XhciDriver {
  import opened XhciRing
  import opened XhciEvents
  import Protocol = XhciProtocol

  /** The ring after a transfer was queued with nobody else acting. */
  function Submitted(r: Ring, p: Payload): (r': Ring)
    requires r.next + 1 < |r.slots|
  {
    r.(slots := Prepared(r)[r.next := Trb(p.w0, p.w1, p.w2, Normal, r.pcs)], queued := r.queued + [p])
  }

  /** The slots once what comes after the transfer is closed: the next slot, or the link and slot 0. */
  function Prepared(r: Ring): (slots: seq<Trb>)
    requires r.next + 1 < |r.slots|
    ensures |slots| == |r.slots|
  {
    var n := |r.slots|;
    if r.next + 1 < n - 1 then r.slots[r.next + 1 := Trb(0, 0, 0, Empty, !r.pcs)]
    else
      r.slots[n - 1 := Trb(LinkWord(r.phys, 0), LinkWord(r.phys, 1), 0, Link, r.pcs)]
        [0 := Trb(0, 0, 0, Empty, r.pcs)]
  }

  /** The parameter words of a bulk transfer: the buffer's address, low half first, and its length. */
  function TransferWords(buffer: nat, length: nat): (p: Payload) {
    Payload(buffer % WORD, buffer / WORD % WORD, length % WORD)
  }

  /** The controller reads back the address and the length it was given. */
  lemma TransferWordsMean(buffer: nat, length: nat)
    requires buffer < WORD * WORD && length <= 4096
    ensures var p := TransferWords(buffer, length); p.w0 + WORD * p.w1 == buffer && p.w2 == length
    ensures TransferWords(buffer, length).w0 < WORD && TransferWords(buffer, length).w1 < WORD
  {
    assert buffer / WORD < WORD;
    assert buffer % WORD + WORD * (buffer / WORD) == buffer;
  }

  /** Queueing leaves exactly one transfer for the controller, and the slot after it closed. */
  lemma SubmitKeeps(r: Ring, p: Payload)
    requires RingOk(r, Settled)
    ensures r.next + 1 < |r.slots| && RingOk(Submitted(r, p), Queued)
  {
    assert (r.queued + [p])[..|r.consumed|] == r.queued[..|r.consumed|];
  }

  // ---------- queueing as steps of the protocol ----------

  /** The driver takes `k` steps with nobody else acting. */
  function Drives(k: nat): (acts: seq<Protocol.Action>) {
    seq(k, _ => Protocol.Drive)
  }

  lemma DrivesStep(s: Protocol.State, k: nat)
    requires k > 0
    ensures Protocol.Run(s, Drives(k)) == Protocol.Run(Protocol.DriverStep(s), Drives(k - 1))
  {
    hide Protocol.DriverStep;
    assert Drives(k)[1..] == Drives(k - 1);
  }

  /** The state with slot `i` of the current ring replaced. */
  function WithSlot(s: Protocol.State, i: nat, t: Trb, pc: Protocol.Pc): Protocol.State
    requires s.e < |s.rings| && i < |s.rings[s.e].slots|
  {
    var r := s.rings[s.e];
    Protocol.WithRing(s, r.(slots := r.slots[i := t]), pc)
  }

  lemma WithSlotTwice(s: Protocol.State, i: nat, t: Trb, u: Trb, pc: Protocol.Pc, pc': Protocol.Pc)
    requires s.e < |s.rings| && i < |s.rings[s.e].slots|
    ensures WithSlot(WithSlot(s, i, t, pc), i, u, pc') == WithSlot(s, i, u, pc')
  {
    var r := s.rings[s.e];
    assert r.slots[i := t][i := u] == r.slots[i := u];
    assert s.rings[s.e := r.(slots := r.slots[i := t])][s.e := r.(slots := r.slots[i := u])] ==
      s.rings[s.e := r.(slots := r.slots[i := u])];
  }

  lemma SlotOfWith(s: Protocol.State, i: nat, t: Trb, pc: Protocol.Pc)
    requires s.e < |s.rings| && i < |s.rings[s.e].slots|
    ensures var s' := WithSlot(s, i, t, pc);
            && s'.e == s.e && |s'.rings| == |s.rings| && s'.pc == pc && s'.p == s.p
            && s'.rings[s.e] == s.rings[s.e].(slots := s.rings[s.e].slots[i := t])
  {
  }

  /** A ring put in place of the current one hides earlier changes to it. */
  lemma OverRing(s: Protocol.State, i: nat, t: Trb, pc: Protocol.Pc, r: Ring, pc': Protocol.Pc)
    requires s.e < |s.rings| && i < |s.rings[s.e].slots|
    ensures Protocol.WithRing(WithSlot(s, i, t, pc), r, pc') == Protocol.WithRing(s, r, pc')
  {
    var r1 := s.rings[s.e].(slots := s.rings[s.e].slots[i := t]);
    assert s.rings[s.e := r1][s.e := r] == s.rings[s.e := r];
  }

  function PutTrb(t: Trb, w: nat, v: nat, kind: Kind, cycle: bool): Trb {
    if w == 0 then t.(w0 := v) else if w == 1 then t.(w1 := v) else if w == 2 then t.(w2 := v)
    else t.(kind := kind, cycle := cycle)
  }

  /** The groups of words the driver writes: the slot after the transfer, or the link and slot 0, then the parameter
      words of the transfer. */
  datatype Group = Closing | Linking | Wrapping | Loading

  function WordsOf(gr: Group): (n: nat) {
    if gr.Loading? then 3 else 4
  }

  /** Where the driver is after `w` words of a group. */
  function PcAt(gr: Group, w: nat): Protocol.Pc {
    if gr.Loading? then Protocol.Fill(w)
    else if w < 4 then
      (match gr
       case Closing => Protocol.Mark(w)
       case Linking => Protocol.WriteLink(w)
       case _ => Protocol.WrapMark(w))
    else if gr.Linking? then Protocol.WrapMark(0)
    else Protocol.Fill(0)
  }

  function SlotFor(gr: Group, r: Ring): (i: int) {
    match gr
    case Closing => r.next + 1
    case Linking => |r.slots| - 1
    case Wrapping => 0
    case Loading => r.next
  }

  /** Word `w` of a group put into a slot. */
  function WordIn(gr: Group, r: Ring, p: Payload, t: Trb, w: nat): Trb {
    match gr
    case Closing => PutTrb(t, w, 0, Empty, !r.pcs)
    case Linking => PutTrb(t, w, LinkWord(r.phys, w), Link, r.pcs)
    case Wrapping => PutTrb(t, w, 0, Empty, r.pcs)
    case Loading => PutTrb(t, w, Protocol.WordOf(p, w), Normal, r.pcs)
  }

  function WordsIn(gr: Group, r: Ring, p: Payload, t: Trb, w: nat): Trb
    decreases WordsOf(gr) - w
  {
    if w >= WordsOf(gr) then t else WordsIn(gr, r, p, WordIn(gr, r, p, t, w), w + 1)
  }

  lemma WordStep(s: Protocol.State, gr: Group, w: nat)
    requires s.e < |s.rings| && s.rings[s.e].next + 1 < |s.rings[s.e].slots| && s.pc == PcAt(gr, w) && w < WordsOf(gr)
    ensures var r := s.rings[s.e];
            var i := SlotFor(gr, r);
            && 0 <= i < |r.slots|
            && Protocol.DriverStep(s) == WithSlot(s, i, WordIn(gr, r, s.p, r.slots[i], w), PcAt(gr, w + 1))
  {
  }

  /** A group of words, written one after the other. */
  lemma {:induction false} GroupRun(s: Protocol.State, gr: Group, w: nat, k: nat)
    requires s.e < |s.rings| && s.rings[s.e].next + 1 < |s.rings[s.e].slots| && s.pc == PcAt(gr, w) && w <= WordsOf(gr)
    ensures var r := s.rings[s.e];
            var i := SlotFor(gr, r);
            && 0 <= i < |r.slots|
            && Protocol.Run(s, Drives(k + (WordsOf(gr) - w)))
            == Protocol.Run(WithSlot(s, i, WordsIn(gr, r, s.p, r.slots[i], w), PcAt(gr, WordsOf(gr))), Drives(k))
    decreases WordsOf(gr) - w
  {
    hide Drives, WithSlot, Protocol.DriverStep, Protocol.Run, PcAt, WordIn;
    var r := s.rings[s.e];
    var i := SlotFor(gr, r);
    if w == WordsOf(gr) {
      WithSlotSame(s, i);
    } else {
      WordStep(s, gr, w);
      DrivesStep(s, k + (WordsOf(gr) - w));
      var t := WordIn(gr, r, s.p, r.slots[i], w);
      var s1 := WithSlot(s, i, t, PcAt(gr, w + 1));
      SlotOfWith(s, i, t, PcAt(gr, w + 1));
      SameTurn(gr, r, s1.rings[s.e], s.p, t, w + 1);
      GroupRun(s1, gr, w + 1, k);
      WithSlotTwice(s, i, t, WordsIn(gr, r, s.p, t, w + 1), PcAt(gr, w + 1), PcAt(gr, WordsOf(gr)));
    }
  }

  lemma WithSlotSame(s: Protocol.State, i: nat)
    requires s.e < |s.rings| && i < |s.rings[s.e].slots|
    ensures WithSlot(s, i, s.rings[s.e].slots[i], s.pc) == s
  {
    var r := s.rings[s.e];
    assert r.slots[i := r.slots[i]] == r.slots;
    assert s.rings[s.e := r] == s.rings;
  }

  /** What is written depends on the driver's fields alone. */
  lemma {:induction false} SameTurn(gr: Group, r: Ring, r': Ring, p: Payload, t: Trb, w: nat)
    requires r'.phys == r.phys && r'.pcs == r.pcs && r'.next == r.next && |r'.slots| == |r.slots|
    ensures WordsIn(gr, r', p, t, w) == WordsIn(gr, r, p, t, w) && SlotFor(gr, r') == SlotFor(gr, r)
    decreases WordsOf(gr) - w
  {
    if w < WordsOf(gr) { SameTurn(gr, r, r', p, WordIn(gr, r, p, t, w), w + 1); }
  }

  /** What each group leaves in its slot. */
  lemma GroupLeaves(gr: Group, r: Ring, p: Payload, t: Trb)
    ensures WordsIn(gr, r, p, t, 0)
         == match gr
            case Closing => Trb(0, 0, 0, Empty, !r.pcs)
            case Linking => Trb(LinkWord(r.phys, 0), LinkWord(r.phys, 1), 0, Link, r.pcs)
            case Wrapping => Trb(0, 0, 0, Empty, r.pcs)
            case Loading => t.(w0 := p.w0, w1 := p.w1, w2 := p.w2)
  {
    hide LinkWord;
    var t1 := WordIn(gr, r, p, t, 0);
    var t2 := WordIn(gr, r, p, t1, 1);
    var t3 := WordIn(gr, r, p, t2, 2);
    assert WordsIn(gr, r, p, t, 0) == WordsIn(gr, r, p, t1, 1) == WordsIn(gr, r, p, t2, 2) == WordsIn(gr, r, p, t3, 3);
    LinkThird(r.phys);
  }

  lemma LinkThird(phys: nat)
    ensures LinkWord(phys, 2) == 0
  {
  }

  lemma GroupDone(s: Protocol.State, gr: Group, k: nat)
    requires s.e < |s.rings| && s.rings[s.e].next + 1 < |s.rings[s.e].slots| && s.pc == PcAt(gr, 0)
    ensures var r := s.rings[s.e];
            var i := SlotFor(gr, r);
            && 0 <= i < |r.slots|
            && Protocol.Run(s, Drives(k + WordsOf(gr)))
            == Protocol.Run(WithSlot(s, i, WordsIn(gr, r, s.p, r.slots[i], 0), PcAt(gr, WordsOf(gr))), Drives(k))
  {
    hide *;
    GroupRun(s, gr, 0, k);
  }

  /** The last step of a queueing: the control word. */
  lemma HandOver(s: Protocol.State, p: Payload)
    requires s.e < |s.rings| && s.rings[s.e].next + 1 < |s.rings[s.e].slots| && s.pc == Protocol.Fill(0) && s.p == p
    ensures var r := s.rings[s.e];
            Protocol.Run(s, Drives(4))
            == Protocol.WithRing(s,
                                 r.(slots := r.slots[r.next := Trb(p.w0, p.w1, p.w2, Normal, r.pcs)],
                                    queued := r.queued + [p]), Protocol.Bell)
  {
    hide Protocol.DriverStep, Protocol.Run, Drives, WithSlot, Protocol.WithRing, WordsIn;
    var r := s.rings[s.e];
    var t := r.slots[r.next].(w0 := p.w0, w1 := p.w1, w2 := p.w2);
    GroupDone(s, Loading, 1);
    GroupLeaves(Loading, r, p, r.slots[r.next]);
    var s1 := WithSlot(s, r.next, t, Protocol.Fill(3));
    SlotOfWith(s, r.next, t, Protocol.Fill(3));
    DrivesStep(s1, 1);
    LastWord(s1);
    RunNone(Protocol.DriverStep(s1));
    var done := t.(kind := Normal, cycle := r.pcs);
    OverRing(s, r.next, t, Protocol.Fill(3), r.(slots := r.slots[r.next := done], queued := r.queued + [p]),
             Protocol.Bell);
    assert r.slots[r.next := t][r.next := t.(kind := Normal, cycle := r.pcs)] ==
      r.slots[r.next := t.(kind := Normal, cycle := r.pcs)];
  }

  lemma RunNone(s: Protocol.State)
    ensures Protocol.Run(s, Drives(0)) == s
  {
  }

  lemma LastWord(s: Protocol.State)
    requires s.e < |s.rings| && s.rings[s.e].next < |s.rings[s.e].slots| && s.pc == Protocol.Fill(3)
    ensures var r := s.rings[s.e];
            Protocol.DriverStep(s)
            == Protocol.WithRing(s,
                                 r.(slots := r.slots[r.next := r.slots[r.next].(kind := Normal, cycle := r.pcs)],
                                    queued := r.queued + [s.p]), Protocol.Bell)
  {
  }

  /** How many words queueing a transfer writes. */
  function WordCount(r: Ring): (k: nat) {
    if r.next + 1 < |r.slots| - 1 then 8 else 12
  }

  /** The driver's method is the protocol's driver: the steps of one transfer up to the doorbell, with nobody else
      acting, give exactly the ring that queueing in one go gives. */
  lemma SubmitIsSteps(s: Protocol.State, e: nat, p: Payload)
    requires s.pc.Idle? && e < |s.rings| && RingOk(s.rings[e], Settled)
    ensures s.rings[e].next + 1 < |s.rings[e].slots|
    ensures Protocol.Run(s, [Protocol.Begin(e, p)] + Drives(WordCount(s.rings[e])))
         == s.(rings := s.rings[e := Submitted(s.rings[e], p)], pc := Protocol.Bell, e := e, p := p)
  {
    var r := s.rings[e];
    SubmitKeeps(r, p);
    var near := r.next + 1 < |r.slots| - 1;
    var s0 := Protocol.BeginStep(s, e, p);
    assert s0 == s.(e := e, p := p, pc := if near then Protocol.Mark(0) else Protocol.WriteLink(0));
    var acts := [Protocol.Begin(e, p)] + Drives(WordCount(r));
    assert acts[1..] == Drives(WordCount(r));
    hide RingOk, Drives;
    assert Protocol.Run(s, acts) == Protocol.Run(s0, Drives(WordCount(r)));
    if near { SubmitNear(s0, p); } else { SubmitFar(s0, p); }
  }

  lemma SubmitNear(s: Protocol.State, p: Payload)
    requires s.e < |s.rings| && s.pc == Protocol.Mark(0) && s.p == p && s.rings[s.e].next + 1 < |s.rings[s.e].slots| - 1
    ensures Protocol.Run(s, Drives(8)) == Protocol.WithRing(s, Submitted(s.rings[s.e], p), Protocol.Bell)
  {
    hide Drives, Protocol.Run, WithSlot, Protocol.WithRing;
    var r := s.rings[s.e];
    OverRing(s, r.next + 1, Trb(0, 0, 0, Empty, !r.pcs), Protocol.Fill(0), Submitted(r, p), Protocol.Bell);
    GroupDone(s, Closing, 4);
    GroupLeaves(Closing, r, p, r.slots[r.next + 1]);
    SlotOfWith(s, r.next + 1, Trb(0, 0, 0, Empty, !r.pcs), Protocol.Fill(0));
    HandOver(WithSlot(s, r.next + 1, Trb(0, 0, 0, Empty, !r.pcs), Protocol.Fill(0)), p);
  }

  lemma SubmitFar(s: Protocol.State, p: Payload)
    requires s.e < |s.rings| && s.pc == Protocol.WriteLink(0) && s.p == p
    requires 2 <= |s.rings[s.e].slots| == s.rings[s.e].next + 2
    ensures Protocol.Run(s, Drives(12)) == Protocol.WithRing(s, Submitted(s.rings[s.e], p), Protocol.Bell)
  {
    hide Drives, Protocol.Run, LinkWord, WithSlot, Protocol.WithRing;
    var r := s.rings[s.e];
    var link := Trb(LinkWord(r.phys, 0), LinkWord(r.phys, 1), 0, Link, r.pcs);
    GroupDone(s, Linking, 8);
    GroupLeaves(Linking, r, p, r.slots[|r.slots| - 1]);
    SlotOfWith(s, |r.slots| - 1, link, Protocol.WrapMark(0));
    var s1 := WithSlot(s, |r.slots| - 1, link, Protocol.WrapMark(0));
    var r1 := s1.rings[s.e];
    GroupDone(s1, Wrapping, 4);
    GroupLeaves(Wrapping, r1, p, r1.slots[0]);
    SlotOfWith(s1, 0, Trb(0, 0, 0, Empty, r.pcs), Protocol.Fill(0));
    OverRing(s1, 0, Trb(0, 0, 0, Empty, r.pcs), Protocol.Fill(0), Submitted(r, p), Protocol.Bell);
    OverRing(s, |r.slots| - 1, link, Protocol.WrapMark(0), Submitted(r, p), Protocol.Bell);
    HandOver(WithSlot(s1, 0, Trb(0, 0, 0, Empty, r.pcs), Protocol.Fill(0)), p);
  }

  /** The four words of a slot, the control word last. */
  function WordsAt(i: nat): (ws: seq<(nat, nat)>) {
    [(i, 0), (i, 1), (i, 2), (i, 3)]
  }

  /** The order in which queueing writes: what comes after the transfer first, the transfer last, and of each slot the
      control word last. */
  function WriteOrder(r: Ring): (ws: seq<(nat, nat)>)
    requires r.slots != []
  {
    PrepareOrder(r) + WordsAt(r.next)
  }

  function PrepareOrder(r: Ring): (ws: seq<(nat, nat)>)
    requires r.slots != []
  {
    if r.next + 1 < |r.slots| - 1 then WordsAt(r.next + 1) else WordsAt(|r.slots| - 1) + WordsAt(0)
  }

  /** The slot and the word the protocol's driver writes next. */
  function WriteAt(s: Protocol.State): (sw: (int, nat))
    requires s.e < |s.rings|
  {
    var r := s.rings[s.e];
    match s.pc
    case Mark(w) => (r.next + 1, w)
    case WriteLink(w) => (|r.slots| - 1, w)
    case WrapMark(w) => (0, w)
    case Fill(w) => (r.next, w)
    case _ => (0, 0)
  }

  /** What it writes in its next `k` steps. */
  function WriteLog(s: Protocol.State, k: nat): (ws: seq<(int, nat)>)
    requires s.e < |s.rings|
    decreases k
  {
    if k == 0 then [] else [WriteAt(s)] + WriteLog(StepOf(s), k - 1)
  }

  function StepOf(s: Protocol.State): (t: Protocol.State)
    requires s.e < |s.rings|
    ensures t.e == s.e && |t.rings| == |s.rings|
  {
    Protocol.DriverStep(s)
  }

  /** The words of a group from `w` on. */
  function GroupWords(i: int, w: nat, n: nat): (ws: seq<(int, nat)>)
    decreases n - w
  {
    if w >= n then [] else [(i, w)] + GroupWords(i, w + 1, n)
  }

  lemma {:induction false} GroupLog(s: Protocol.State, gr: Group, w: nat, k: nat)
    requires s.e < |s.rings| && s.rings[s.e].next + 1 < |s.rings[s.e].slots| && s.pc == PcAt(gr, w) && w <= WordsOf(gr)
    ensures var r := s.rings[s.e];
            var i := SlotFor(gr, r);
            && 0 <= i < |r.slots|
            && WriteLog(s, k + (WordsOf(gr) - w))
            == GroupWords(i, w, WordsOf(gr))
               + WriteLog(WithSlot(s, i, WordsIn(gr, r, s.p, r.slots[i], w), PcAt(gr, WordsOf(gr))), k)
    decreases WordsOf(gr) - w
  {
    hide WithSlot, Protocol.DriverStep, PcAt, WordIn, StepOf, WriteAt;
    var r := s.rings[s.e];
    var i := SlotFor(gr, r);
    if w == WordsOf(gr) {
      WithSlotSame(s, i);
    } else {
      WordWritten(s, gr, w);
      var t := WordIn(gr, r, s.p, r.slots[i], w);
      var s1 := WithSlot(s, i, t, PcAt(gr, w + 1));
      SlotOfWith(s, i, t, PcAt(gr, w + 1));
      SameTurn(gr, r, s1.rings[s.e], s.p, t, w + 1);
      LogStep(s, k + (WordsOf(gr) - w));
      GroupLog(s1, gr, w + 1, k);
      WithSlotTwice(s, i, t, WordsIn(gr, r, s.p, t, w + 1), PcAt(gr, w + 1), PcAt(gr, WordsOf(gr)));
    }
  }

  lemma WordWritten(s: Protocol.State, gr: Group, w: nat)
    requires s.e < |s.rings| && s.rings[s.e].next + 1 < |s.rings[s.e].slots| && s.pc == PcAt(gr, w) && w < WordsOf(gr)
    ensures var r := s.rings[s.e];
            var i := SlotFor(gr, r);
            && 0 <= i < |r.slots| && WriteAt(s) == (i, w)
            && StepOf(s) == WithSlot(s, i, WordIn(gr, r, s.p, r.slots[i], w), PcAt(gr, w + 1))
  {
    WordStep(s, gr, w);
    hide Protocol.DriverStep, WithSlot, WordIn;
  }

  lemma LogStep(s: Protocol.State, k: nat)
    requires s.e < |s.rings| && k > 0
    ensures WriteLog(s, k) == [WriteAt(s)] + WriteLog(StepOf(s), k - 1)
  {
    hide StepOf, WriteAt;
  }

  lemma PcEnds()
    ensures PcAt(Closing, 0) == Protocol.Mark(0) && PcAt(Linking, 0) == Protocol.WriteLink(0)
    ensures PcAt(Wrapping, 0) == Protocol.WrapMark(0) && PcAt(Loading, 0) == Protocol.Fill(0)
    ensures PcAt(Closing, 4) == Protocol.Fill(0) && PcAt(Linking, 4) == Protocol.WrapMark(0)
    ensures PcAt(Wrapping, 4) == Protocol.Fill(0) && PcAt(Loading, 3) == Protocol.Fill(3)
    ensures WordsOf(Closing) == WordsOf(Linking) == WordsOf(Wrapping) == 4 && WordsOf(Loading) == 3
  {
  }

  lemma SlotsOf(r: Ring)
    requires r.slots != []
    ensures SlotFor(Closing, r) == r.next + 1 && SlotFor(Linking, r) == |r.slots| - 1 && SlotFor(Wrapping, r) == 0
    ensures SlotFor(Loading, r) == r.next
  {
  }

  lemma OrderOf(r: Ring)
    requires r.slots != []
    ensures var n, last := r.next, |r.slots| - 1;
            Positions(WriteOrder(r))
            == if n + 1 < last then Four(n + 1) + Four(n) else Four(last) + Four(0) + Four(n)
  {
  }

  function Four(i: int): (ws: seq<(int, nat)>) {
    [(i, 0), (i, 1), (i, 2), (i, 3)]
  }

  lemma FourWords(i: int)
    ensures GroupWords(i, 0, 4) == Four(i) && GroupWords(i, 0, 3) + [(i, 3)] == Four(i)
  {
    assert GroupWords(i, 3, 4) == [(i, 3)] && GroupWords(i, 2, 4) == [(i, 2), (i, 3)];
    assert GroupWords(i, 2, 3) == [(i, 2)] && GroupWords(i, 1, 3) == [(i, 1), (i, 2)];
  }

  /** The transfer's own words: the three parameters, then the control word. */
  lemma TransferLog(s: Protocol.State)
    requires s.e < |s.rings| && s.rings[s.e].next + 1 < |s.rings[s.e].slots| && s.pc == Protocol.Fill(0)
    ensures WriteLog(s, 4) == Four(s.rings[s.e].next)
  {
    hide *;
    var r := s.rings[s.e];
    SlotsOf(r);
    PcEnds();
    GroupLog(s, Loading, 0, 1);
    var t := WordsIn(Loading, r, s.p, r.slots[r.next], 0);
    SlotOfWith(s, r.next, t, Protocol.Fill(3));
    FourWords(r.next);
    ControlLog(WithSlot(s, r.next, t, Protocol.Fill(3)));
  }

  lemma ControlLog(s: Protocol.State)
    requires s.e < |s.rings| && s.pc == Protocol.Fill(3)
    ensures WriteLog(s, 1) == [(s.rings[s.e].next, 3)]
  {
    hide StepOf;
    LogStep(s, 1);
  }

  lemma NearLog(s: Protocol.State)
    requires s.e < |s.rings| && s.pc == Protocol.Mark(0) && s.rings[s.e].next + 1 < |s.rings[s.e].slots| - 1
    ensures WriteLog(s, 8) == Positions(WriteOrder(s.rings[s.e]))
  {
    hide *;
    var r := s.rings[s.e];
    SlotsOf(r);
    PcEnds();
    GroupLog(s, Closing, 0, 4);
    var t := WordsIn(Closing, r, s.p, r.slots[r.next + 1], 0);
    SlotOfWith(s, r.next + 1, t, Protocol.Fill(0));
    FourWords(r.next + 1);
    TransferLog(WithSlot(s, r.next + 1, t, Protocol.Fill(0)));
    OrderOf(r);
  }

  lemma FarLog(s: Protocol.State)
    requires s.e < |s.rings| && s.pc == Protocol.WriteLink(0) && 2 <= |s.rings[s.e].slots| == s.rings[s.e].next + 2
    ensures WriteLog(s, 12) == Positions(WriteOrder(s.rings[s.e]))
  {
    hide *;
    var r := s.rings[s.e];
    var last := |r.slots| - 1;
    SlotsOf(r);
    PcEnds();
    GroupLog(s, Linking, 0, 8);
    var t := WordsIn(Linking, r, s.p, r.slots[last], 0);
    SlotOfWith(s, last, t, Protocol.WrapMark(0));
    FourWords(last);
    FourWords(0);
    var s1 := WithSlot(s, last, t, Protocol.WrapMark(0));
    var r1 := s1.rings[s.e];
    SlotsOf(r1);
    GroupLog(s1, Wrapping, 0, 4);
    var u := WordsIn(Wrapping, r1, s1.p, r1.slots[0], 0);
    SlotOfWith(s1, 0, u, Protocol.Fill(0));
    TransferLog(WithSlot(s1, 0, u, Protocol.Fill(0)));
    OrderOf(r);
  }

  /** The same positions as integers. */
  function Positions(ws: seq<(nat, nat)>): (ps: seq<(int, nat)>)
    ensures |ps| == |ws| && forall i :: 0 <= i < |ws| ==> ps[i] == (ws[i].0, ws[i].1)
  {
    seq(|ws|, i requires 0 <= i < |ws| => (ws[i].0, ws[i].1))
  }

  /** The method writes in the order in which the protocol's driver does. */
  lemma OrderIsProtocol(s: Protocol.State, e: nat, p: Payload)
    requires s.pc.Idle? && e < |s.rings| && RingOk(s.rings[e], Settled)
    ensures var s0 := Protocol.BeginStep(s, e, p);
            && s.rings[e].slots != [] && s0.e < |s0.rings|
            && WriteLog(s0, WordCount(s.rings[e])) == Positions(WriteOrder(s.rings[e]))
  {
    var r := s.rings[e];
    SubmitKeeps(r, p);
    var near := r.next + 1 < |r.slots| - 1;
    var s0 := Protocol.BeginStep(s, e, p);
    assert s0 == s.(e := e, p := p, pc := if near then Protocol.Mark(0) else Protocol.WriteLink(0));
    hide RingOk, WriteLog;
    if near { NearLog(s0); } else { FarLog(s0); }
  }

  /** A bulk ring as the driver holds it; `writes` lists the words written, slot and
      word, and the controller's fields are ghost. */
  class TransferRing {
    const phys: nat
    const slots: array<Trb>
    var next: nat
    var cycle: bool
    var wraps: nat
    ghost var deq: nat
    ghost var ccs: bool
    ghost var queued: seq<Payload>
    ghost var consumed: seq<Payload>
    ghost var done: nat
    ghost const base: nat
    ghost var writes: seq<(nat, nat)>

    ghost function View(): Ring
      reads this, slots
    {
      Ring(phys, slots[..], next, cycle, deq, ccs, queued, consumed, done, base)
    }

    constructor (phys: nat, size: nat, start: nat)
      requires phys < WORD * WORD && size >= 3 && start < size - 1
      ensures this.phys == phys && View().next == View().deq == View().base == start && cycle && ccs && wraps == 0
      ensures slots.Length == size && fresh(slots)
      ensures queued == [] && consumed == [] && done == 0 && forall i :: 0 <= i < size ==> !slots[i].cycle
    {
      this.phys := phys;
      slots := new Trb[size](_ => Trb(0, 0, 0, Empty, false));
      next, cycle, wraps := start, true, 0;
      deq, ccs, queued, consumed, done, base, writes := start, true, [], [], 0, start, [];
    }

    /** Writes word `w` of a slot; word 3 is the control word. */
    method WriteWord(i: nat, w: nat, v: nat, kind: Kind, bit: bool)
      requires i < slots.Length
      modifies slots, this`writes
      ensures slots[..] == old(slots[..])[i := PutTrb(old(slots[..])[i], w, v, kind, bit)]
      ensures writes == old(writes) + [(i, w)]
    {
      slots[i] := PutTrb(slots[i], w, v, kind, bit);
      writes := writes + [(i, w)];
    }

    /** Writes a slot word by word, the control word last. */
    method WriteTrb(i: nat, w0: nat, w1: nat, w2: nat, kind: Kind, bit: bool)
      requires i < slots.Length
      modifies slots, this`writes
      ensures slots[..] == old(slots[..])[i := Trb(w0, w1, w2, kind, bit)]
      ensures writes == old(writes) + WordsAt(i)
    {
      WriteWord(i, 0, w0, kind, bit);
      WriteWord(i, 1, w1, kind, bit);
      WriteWord(i, 2, w2, kind, bit);
      WriteWord(i, 3, 0, kind, bit);
    }

    /** Clears a slot, its cycle bit set so that the controller stops there; the link is left alone. */
    method MarkInactive(i: nat, inactive: bool)
      modifies slots, this`writes
      ensures slots[..] == if i + 1 < slots.Length then old(slots[..])[i := Trb(0, 0, 0, Empty, inactive)]
        else old(slots[..])
      ensures writes == if i + 1 < slots.Length then old(writes) + WordsAt(i) else old(writes)
    {
      if i + 1 >= slots.Length {
        return;
      }
      WriteTrb(i, 0, 0, 0, Empty, inactive);
    }

    /** Closes what comes after the transfer. */
    method Prepare()
      requires next + 1 < slots.Length
      modifies slots, this`writes
      ensures slots[..] == Prepared(old(View())) && writes == old(writes) + PrepareOrder(old(View()))
    {
      hide LinkWord, WordsAt;
      if next + 1 < slots.Length - 1 {
        MarkInactive(next + 1, !cycle);
      } else {
        WriteTrb(slots.Length - 1, LinkWord(phys, 0), LinkWord(phys, 1), 0, Link, cycle);
        MarkInactive(0, cycle);
      }
    }

    /** Queues one transfer: first the slot after it, then its words, the control word last. */
    method Submit(p: Payload)
      requires RingOk(View(), Settled)
      modifies this`queued, slots, this`writes
      ensures RingOk(View(), Queued) && View() == Submitted(old(View()), p)
      ensures writes == old(writes) + WriteOrder(old(View()))
    {
      SubmitKeeps(View(), p);
      hide RingOk, PrepareOrder, WordsAt, Prepared;
      Prepare();
      WriteTrb(next, p.w0, p.w1, p.w2, Normal, cycle);
      queued := queued + [p];
    }

    /** Queues a transfer of a buffer; refused where the original refuses it. */
    method Transfer(buffer: nat, length: nat) returns (ok: bool)
      requires RingOk(View(), Settled)
      modifies this`queued, slots, this`writes
      ensures ok == (buffer != 0 && 0 < length <= 4096)
      ensures ok ==> RingOk(View(), Queued) && View() == Submitted(old(View()), TransferWords(buffer, length))
      ensures ok ==> writes == old(writes) + WriteOrder(old(View()))
      ensures !ok ==> View() == old(View()) && writes == old(writes)
    {
      hide RingOk;
      if buffer == 0 || length == 0 || length > 4096 {
        return false;
      }
      Submit(TransferWords(buffer, length));
      ok := true;
    }

    /** Moves on after a completed transfer; the cycle bit flips at the end of a lap. */
    method Advance()
      requires RingOk(View(), Queued) && |consumed| == done + 1
      modifies this`next, this`cycle, this`wraps, this`done
      ensures RingOk(View(), Settled) && View() == Moved(old(View()))
      ensures wraps == old(wraps) + (if next == 0 then 1 else 0)
    {
      MoveKeeps(View());
      hide RingOk;
      done := done + 1;
      next := next + 1;
      if next < slots.Length - 1 {
        return;
      }
      next := 0;
      cycle := !cycle;
      wraps := wraps + 1;
    }
  }

  /** The driver's position in the event ring. */
  class EventCursor {
    const size: nat
    var index: nat
    var cycle: bool
    var wraps: nat
    ghost var taken: nat

    ghost predicate Valid()
      reads this
    {
      size >= 2 && index == taken % size && cycle == Lap(size, taken)
    }

    constructor (size: nat, start: nat)
      requires size >= 2 && start < size
      ensures Valid() && index == start && cycle && wraps == 0 && taken == start && this.size == size
    {
      this.size, index, cycle, wraps, taken := size, start, true, 0, start;
    }

    /** The next event; position and cycle bit stay those of the number of events passed. */
    method Advance()
      requires Valid()
      modifies this
      ensures Valid() && taken == old(taken) + 1 && index == Wrapped(size, old(index))
    {
      Forward(size, taken);
      taken := taken + 1;
      index := index + 1;
      if index >= size {
        index := 0;
        cycle := !cycle;
        wraps := wraps + 1;
      }
    }
  }
}
