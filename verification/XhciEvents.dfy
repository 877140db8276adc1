/** The event ring: the controller produces, the driver consumes, and the driver's published dequeue pointer keeps
    the controller from overwriting what was not read. */
module XhciEvents {
  import opened Arithmetic
  import opened XhciRing

  /** `mine` marks a transfer event of the driver's slot; anything else is skipped. */
  datatype Event = Event(mine: bool, code: nat)

  datatype EventSlot = EventSlot(ev: Event, cycle: bool)

  /** `enq` and `ecs` belong to the controller, `idx` and `cycle` to the driver, `erdp` is what the driver published.
      `log` records every event ever posted, `released` and `taken` count those published and those passed. */
  datatype Events = Events(slots: seq<EventSlot>, enq: nat, ecs: bool, erdp: nat, idx: nat, cycle: bool,
                           log: seq<Event>, released: nat, taken: nat)

  predicate Lap(m: nat, k: nat)
    requires m > 0
  {
    k / m % 2 == 0
  }

  function Wrapped(m: nat, i: nat): (j: nat) {
    if i + 1 >= m then 0 else i + 1
  }

  lemma Forward(m: nat, k: nat)
    requires m > 0
    ensures (k + 1) % m == Wrapped(m, k % m) && Lap(m, k + 1) == (if k % m + 1 >= m then !Lap(m, k) else Lap(m, k))
  {
    NextStep(k, m);
  }

  /** Slots behind the enqueue position carry the current lap's cycle bit, the others the previous one's. */
  ghost predicate CyclesOk(e: Events) {
    forall j :: 0 <= j < |e.slots| ==> e.slots[j].cycle == if j < e.enq then e.ecs else !e.ecs
  }

  /** The last lap of events is still in place. */
  ghost predicate ContentsOk(e: Events) {
    |e.slots| > 0 &&
    forall k: nat :: |e.log| - |e.slots| <= k < |e.log| ==>
      k % |e.slots| < |e.slots| && e.slots[k % |e.slots|].ev == e.log[k]
  }

  ghost predicate EventsOk(e: Events) {
    var m := |e.slots|;
    && m >= 2
    && e.enq == |e.log| % m && e.ecs == Lap(m, |e.log|)
    && e.erdp == e.released % m
    && e.idx == e.taken % m && e.cycle == Lap(m, e.taken)
    && e.taken <= e.released <= e.taken + 1 && e.released <= |e.log| <= e.released + m - 1
    && CyclesOk(e) && ContentsOk(e)
  }

  // ---------- the controller posts ----------

  predicate CanPost(e: Events) {
    e.enq < |e.slots| && Wrapped(|e.slots|, e.enq) != e.erdp
  }

  function Post(e: Events, ev: Event): (e': Events)
    requires CanPost(e)
  {
    e.(slots := e.slots[e.enq := EventSlot(ev, e.ecs)], enq := Wrapped(|e.slots|, e.enq),
       ecs := if e.enq + 1 >= |e.slots| then !e.ecs else e.ecs, log := e.log + [ev])
  }

  lemma PostKeeps(e: Events, ev: Event)
    requires EventsOk(e) && CanPost(e)
    ensures EventsOk(Post(e, ev))
  {
    var m, e' := |e.slots|, Post(e, ev);
    Forward(m, |e.log|);
    assert |e.log| + 1 != e.released + m by { if |e.log| + 1 == e.released + m { AddLap(e.released, m); } }
    PostCycles(e, ev);
    PostContents(e, ev);
  }

  lemma AddLap(a: nat, m: nat)
    requires m > 0
    ensures (a + m) % m == a % m && (a + m) / m == a / m + 1
  {
    assert a == a / m * m + a % m;
    assert a + m == (a / m + 1) * m + a % m;
    DivModUnique(a + m, m, a / m + 1, a % m);
  }

  lemma PostCycles(e: Events, ev: Event)
    requires CyclesOk(e) && CanPost(e)
    ensures CyclesOk(Post(e, ev))
  {
  }

  lemma PostContents(e: Events, ev: Event)
    requires ContentsOk(e) && CanPost(e) && e.enq == |e.log| % |e.slots|
    ensures ContentsOk(Post(e, ev))
  {
    var m, e' := |e.slots|, Post(e, ev);
    forall k: nat | |e'.log| - m <= k < |e'.log| ensures k % m < m && e'.slots[k % m].ev == e'.log[k] {
      if k < |e.log| {
        assert e.slots[k % m].ev == e.log[k];
        assert k % m != e.enq by { OtherSlot(k, |e.log|, m); }
      }
    }
  }

  /** Two positions less than a lap apart: same lap and in order, or next lap and behind. */
  lemma {:induction false} LapsApart(v: nat, p: nat, m: nat)
    requires m > 0 && v <= p < v + m
    ensures (p / m == v / m && p - v == p % m - v % m) || (p / m == v / m + 1 && p - v == p % m + m - v % m)
    decreases p
  {
    if p > v {
      LapsApart(v, p - 1, m);
      NextStep(p - 1, m);
    }
  }

  /** Less than a lap apart, two positions use different slots. */
  lemma OtherSlot(a: nat, b: nat, m: nat)
    requires m > 0 && a < b < a + m
    ensures a % m != b % m
  {
    LapsApart(a, b, m);
  }

  // ---------- the driver reads ----------

  predicate Visible(e: Events) {
    e.idx < |e.slots| && e.slots[e.idx].cycle == e.cycle
  }

  /** The driver sees an event exactly when one is unread, and it is the oldest unread one. */
  lemma SeesOldest(e: Events)
    requires EventsOk(e) && e.released == e.taken
    ensures Visible(e) <==> e.taken < |e.log|
    ensures Visible(e) ==> e.slots[e.idx].ev == e.log[e.taken]
  {
    var m, v, p := |e.slots|, e.taken, |e.log|;
    LapsApart(v, p, m);
  }

  function Release(e: Events): (e': Events) {
    e.(erdp := Wrapped(|e.slots|, e.idx), released := e.released + 1)
  }

  lemma ReleaseKeeps(e: Events)
    requires EventsOk(e) && e.released == e.taken < |e.log|
    ensures EventsOk(Release(e))
  {
    Forward(|e.slots|, e.taken);
  }

  function Pass(e: Events): (e': Events) {
    e.(idx := Wrapped(|e.slots|, e.idx), cycle := if e.idx + 1 >= |e.slots| then !e.cycle else e.cycle,
       taken := e.taken + 1)
  }

  lemma PassKeeps(e: Events)
    requires EventsOk(e) && e.released == e.taken + 1
    ensures EventsOk(Pass(e))
  {
    Forward(|e.slots|, e.taken);
  }

  /** The slot just passed still holds its event, although the controller may already reuse it. */
  lemma PassedStays(e: Events)
    requires EventsOk(e) && e.released == e.taken > 0
    ensures (e.taken - 1) % |e.slots| < |e.slots| && e.slots[(e.taken - 1) % |e.slots|].ev == e.log[e.taken - 1]
  {
  }
}
