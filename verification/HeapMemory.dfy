/** The block headers in memory: how a block list is laid out, and what each relinking does to it. */
module HeapMemory {
  import opened HeapSpec

  /** Memory words by byte address. */
  type Words = map<nat, int>

  function Flag(free: bool): int {
    if free then 1 else 0
  }

  /** The header words of a block at address `a`. */
  predicate Header(mem: Words, a: nat, b: Block, prev: nat, next: nat) {
    && a in mem && mem[a] == b.size
    && a + 8 in mem && mem[a + 8] == Flag(b.free)
    && a + 16 in mem && mem[a + 16] == HEAP_MAGIC
    && a + 24 in mem && mem[a + 24] == prev
    && a + 32 in mem && mem[a + 32] == next
  }

  function PrevOf(list: seq<Block>, i: nat): (a: nat)
    requires i < |list|
  {
    if i == 0 then 0 else Addr(list, i - 1)
  }

  function NextOf(list: seq<Block>, i: nat): (a: nat)
    requires i < |list|
  {
    if i + 1 < |list| then Addr(list, i + 1) else 0
  }

  ghost predicate HeaderOf(mem: Words, list: seq<Block>, i: nat) {
    i < |list| && Header(mem, Addr(list, i), list[i], PrevOf(list, i), NextOf(list, i))
  }

  /** Memory holds the headers of the list, doubly linked. */
  ghost predicate Represents(mem: Words, list: seq<Block>) {
    forall i: nat :: i < |list| ==> HeaderOf(mem, list, i)
  }

  ghost predicate SameHeader(mem: Words, mem': Words, a: nat) {
    && (a in mem ==> a in mem' && mem'[a] == mem[a])
    && (a + 8 in mem ==> a + 8 in mem' && mem'[a + 8] == mem[a + 8])
    && (a + 16 in mem ==> a + 16 in mem' && mem'[a + 16] == mem[a + 16])
    && (a + 24 in mem ==> a + 24 in mem' && mem'[a + 24] == mem[a + 24])
    && (a + 32 in mem ==> a + 32 in mem' && mem'[a + 32] == mem[a + 32])
  }

  function PutHeader(mem: Words, a: nat, b: Block, prev: nat, next: nat): (r: Words) {
    mem[a := b.size][a + 8 := Flag(b.free)][a + 16 := HEAP_MAGIC][a + 24 := prev][a + 32 := next]
  }

  lemma PutHeaderIs(mem: Words, a: nat, b: Block, prev: nat, next: nat)
    ensures Header(PutHeader(mem, a, b, prev, next), a, b, prev, next)
    ensures forall x: nat :: x + 40 <= a || a + 40 <= x ==> SameHeader(mem, PutHeader(mem, a, b, prev, next), x)
  {
  }

  /** Memory with the `prev` link of the block at `a` set, if there is one. */
  function PutPrev(mem: Words, a: nat, prev: nat): (r: Words) {
    if a != 0 then mem[a + 24 := prev] else mem
  }

  // ---------- marking ----------

  lemma MarkRepresents(mem: Words, list: seq<Block>, i: nat, free: bool)
    requires Represents(mem, list) && i < |list|
    ensures Represents(mem[Addr(list, i) + 8 := Flag(free)], Marked(list, i, free))
  {
    var r, mem' := Marked(list, i, free), mem[Addr(list, i) + 8 := Flag(free)];
    forall k: nat | k < |r| ensures HeaderOf(mem', r, k) {
      MarkHeader(mem, list, i, free, k);
    }
  }

  lemma Links(list: seq<Block>, r: seq<Block>, k: nat)
    requires |r| == |list| && k < |list|
    requires Addr(r, k) == Addr(list, k) && (k > 0 ==> Addr(r, k - 1) == Addr(list, k - 1))
    requires k + 1 < |list| ==> Addr(r, k + 1) == Addr(list, k + 1)
    ensures PrevOf(r, k) == PrevOf(list, k) && NextOf(r, k) == NextOf(list, k)
  {
  }

  lemma Apart(list: seq<Block>, i: nat, k: nat)
    requires i < |list| && k < |list| && k != i
    ensures Addr(list, k) + 48 <= Addr(list, i) || Addr(list, i) + 48 <= Addr(list, k)
  {
    if i < k { AddrOrder(list, i, k); } else { AddrOrder(list, k, i); }
  }

  lemma HeaderOfIs(mem: Words, list: seq<Block>, i: nat)
    ensures HeaderOf(mem, list, i) ==
              (i < |list| && Header(mem, Addr(list, i), list[i], PrevOf(list, i), NextOf(list, i)))
  {
    hide Header, Addr, PrevOf, NextOf;
  }

  lemma RepresentsAt(mem: Words, list: seq<Block>, i: nat)
    requires Represents(mem, list) && i < |list|
    ensures Header(mem, Addr(list, i), list[i], PrevOf(list, i), NextOf(list, i))
  {
    hide Header, Addr, PrevOf, NextOf;
    assert HeaderOf(mem, list, i);
  }

  lemma MarkedAt(list: seq<Block>, i: nat, free: bool, k: nat)
    requires i < |list| && k < |list|
    ensures |Marked(list, i, free)| == |list| && Marked(list, i, free)[k] == if k == i then list[i].(free := free)
      else list[k]
  {
  }

  /** Setting the flag of the block at `a`. */
  lemma FlagHeader(mem: Words, a: nat, free: bool, x: nat, b: Block, prev: nat, next: nat)
    requires Header(mem, x, b, prev, next) && (x == a || x + 48 <= a || a + 48 <= x)
    ensures Header(mem[a + 8 := Flag(free)], x, if x == a then b.(free := free) else b, prev, next)
  {
  }

  lemma MarkHeader(mem: Words, list: seq<Block>, i: nat, free: bool, k: nat)
    requires Represents(mem, list) && i < |list| && k < |list|
    ensures HeaderOf(mem[Addr(list, i) + 8 := Flag(free)], Marked(list, i, free), k)
  {
    hide *;
    var r := Marked(list, i, free);
    MarkedAddr(list, i, free, k);
    if k > 0 { MarkedAddr(list, i, free, k - 1); }
    if k + 1 < |list| { MarkedAddr(list, i, free, k + 1); }
    MarkedAt(list, i, free, k);
    Links(list, r, k);
    RepresentsAt(mem, list, k);
    if k != i { Apart(list, i, k); }
    FlagHeader(mem, Addr(list, i), free, Addr(list, k), list[k], PrevOf(list, k), NextOf(list, k));
    HeaderOfIs(mem[Addr(list, i) + 8 := Flag(free)], r, k);
  }

  // ---------- splitting and joining ----------

  /** Memory where block `i` of `whole` became blocks `i` and `i + 1` of `parts`. */
  function CutMem(mem: Words, a: nat, size: nat, rest: Block, next: nat): (r: Words) {
    PutPrev(PutHeader(mem, a + 48 + size, rest, a, next), next, a + 48 + size)[a := size][a + 32 := a + 48 + size]
  }

  /** Memory where blocks `i` and `i + 1` of `parts` became block `i` of `whole`. */
  function JoinMem(mem: Words, a: nat, size: nat, next: nat): (r: Words) {
    PutPrev(mem[a := size][a + 32 := next], next, a)
  }

  /** The links of a refined list, read off the coarse one. */
  lemma RefinedLinks(whole: seq<Block>, parts: seq<Block>, i: nat, k: nat)
    requires Refined(whole, parts, i) && k < |whole|
    ensures k < i ==>
              Addr(parts, k) == Addr(whole, k) && PrevOf(parts, k) == PrevOf(whole, k)
              && NextOf(parts, k) == NextOf(whole, k) && parts[k] == whole[k]
    ensures k == i ==> Addr(parts, i) == Addr(whole, i) && PrevOf(parts, i) == PrevOf(whole, i)
    ensures k == i ==>
              NextOf(parts, i) == Addr(parts, i + 1) && PrevOf(parts, i + 1) == Addr(whole, i)
              && NextOf(parts, i + 1) == NextOf(whole, i)
    ensures k > i ==>
              Addr(parts, k + 1) == Addr(whole, k) && NextOf(parts, k + 1) == NextOf(whole, k)
              && parts[k + 1] == whole[k]
    ensures k > i + 1 ==> PrevOf(parts, k + 1) == PrevOf(whole, k)
    ensures k == i + 1 ==> PrevOf(parts, k + 1) == Addr(parts, i + 1) && PrevOf(whole, k) == Addr(whole, i)
    ensures Addr(parts, i + 1) == Addr(whole, i) + 48 + parts[i].size
  {
    RefinedAddr(whole, parts, i, k);
    if k > 0 { RefinedAddr(whole, parts, i, k - 1); }
    if k + 1 < |whole| { RefinedAddr(whole, parts, i, k + 1); }
    RefinedAddr(whole, parts, i, i);
    hide Addr, Refined;
  }

  lemma CutKeeps(mem: Words, a: nat, size: nat, rest: Block, next: nat, x: nat, b: Block, prev: nat, nx: nat)
    requires Header(mem, x, b, prev, nx)
    requires x + 48 <= a || a + 48 + size + 48 <= x
    requires next == 0 || (x + 48 <= next || next + 48 <= x)
    ensures Header(CutMem(mem, a, size, rest, next), x, b, prev, nx)
  {
    PutHeaderIs(mem, a + 48 + size, rest, a, next);
    hide PutHeader;
    assert SameHeader(mem, PutHeader(mem, a + 48 + size, rest, a, next), x);
  }

  lemma CutSelf(mem: Words, a: nat, size: nat, rest: Block, next: nat, b: Block, prev: nat)
    requires Header(mem, a, b, prev, next) && (next == 0 || a + 48 <= next)
    ensures Header(CutMem(mem, a, size, rest, next), a, Block(size, b.free), prev, a + 48 + size)
  {
    PutHeaderIs(mem, a + 48 + size, rest, a, next);
    hide PutHeader;
    assert SameHeader(mem, PutHeader(mem, a + 48 + size, rest, a, next), a);
  }

  lemma CutNext(mem: Words, a: nat, size: nat, rest: Block, next: nat, b: Block, nx: nat)
    requires next != 0 && Header(mem, next, b, a, nx) && a + 48 + size + 48 <= next
    ensures Header(CutMem(mem, a, size, rest, next), next, b, a + 48 + size, nx)
  {
    PutHeaderIs(mem, a + 48 + size, rest, a, next);
    hide PutHeader;
    assert SameHeader(mem, PutHeader(mem, a + 48 + size, rest, a, next), next);
  }

  lemma CutNew(mem: Words, a: nat, size: nat, rest: Block, next: nat)
    requires next == 0 || a + 48 + size + 48 <= next
    ensures Header(CutMem(mem, a, size, rest, next), a + 48 + size, rest, a, next)
  {
    PutHeaderIs(mem, a + 48 + size, rest, a, next);
    hide PutHeader;
  }

  /** The address after block `i`, and the link to it. */
  lemma NextIs(list: seq<Block>, i: nat)
    requires i < |list|
    ensures NextOf(list, i) == (if i + 1 < |list| then Addr(list, i + 1) else 0)
    ensures i + 1 < |list| ==>
              Addr(list, i + 1) == Addr(list, i) + 48 + list[i].size && PrevOf(list, i + 1) == Addr(list, i)
  {
  }

  lemma RefinedSizes(whole: seq<Block>, parts: seq<Block>, i: nat)
    requires Refined(whole, parts, i)
    ensures i < |whole| && |parts| == |whole| + 1 && whole[i].size == parts[i].size + 48 + parts[i + 1].size
  {
  }

  lemma CutRepresents(mem: Words, whole: seq<Block>, parts: seq<Block>, i: nat)
    requires Represents(mem, whole) && Refined(whole, parts, i) && parts[i].free == whole[i].free
    ensures Represents(CutMem(mem, Addr(whole, i), parts[i].size, parts[i + 1], NextOf(whole, i)), parts)
  {
    hide *;
    RefinedSizes(whole, parts, i);
    var mem' := CutMem(mem, Addr(whole, i), parts[i].size, parts[i + 1], NextOf(whole, i));
    forall k: nat | k < |parts| ensures HeaderOf(mem', parts, k) {
      if k == i + 1 {
        RefinedLinks(whole, parts, i, i);
        NextIs(whole, i);
        CutNew(mem, Addr(whole, i), parts[i].size, parts[i + 1], NextOf(whole, i));
        HeaderOfIs(mem', parts, k);
      } else {
        CutHeader(mem, whole, parts, i, if k <= i then k else k - 1);
      }
    }
    RepresentsIs(mem', parts);
  }

  lemma RepresentsIs(mem: Words, list: seq<Block>)
    requires forall i: nat :: i < |list| ==> HeaderOf(mem, list, i)
    ensures Represents(mem, list)
  {
    hide HeaderOf;
  }

  /** The header of an old block after the cut. */
  lemma CutHeader(mem: Words, whole: seq<Block>, parts: seq<Block>, i: nat, k: nat)
    requires Represents(mem, whole) && Refined(whole, parts, i) && parts[i].free == whole[i].free && k < |whole|
    ensures HeaderOf(CutMem(mem, Addr(whole, i), parts[i].size, parts[i + 1], NextOf(whole, i)), parts,
                     if k <= i then k else k + 1)
  {
    hide *;
    RefinedSizes(whole, parts, i);
    RefinedLinks(whole, parts, i, k);
    RepresentsAt(mem, whole, k);
    NextIs(whole, i);
    var a, n, rest, next := Addr(whole, i), parts[i].size, parts[i + 1], NextOf(whole, i);
    HeaderOfIs(CutMem(mem, a, n, rest, next), parts, if k <= i then k else k + 1);
    if k == i {
      CutSelf(mem, a, n, rest, next, whole[i], PrevOf(whole, i));
    } else if k == i + 1 {
      AddrBase(whole, k);
      CutNext(mem, a, n, rest, next, whole[k], NextOf(whole, k));
    } else {
      Apart(whole, i, k);
      if k > i { AddrOrder(whole, i, k); } else { AddrOrder(whole, k, i); }
      if i + 1 < |whole| { Apart(whole, i + 1, k); }
      CutKeeps(mem, a, n, rest, next, Addr(whole, k), whole[k], PrevOf(whole, k), NextOf(whole, k));
    }
  }

  lemma AddrBase(list: seq<Block>, i: nat)
    requires i <= |list|
    ensures Addr(list, i) > 0
  {
  }

  lemma JoinKeeps(mem: Words, a: nat, size: nat, next: nat, x: nat, b: Block, prev: nat, nx: nat)
    requires Header(mem, x, b, prev, nx) && (x + 48 <= a || a + 48 <= x)
    requires (next == 0 || (x + 48 <= next || next + 48 <= x))
    ensures Header(JoinMem(mem, a, size, next), x, b, prev, nx)
  {
  }

  lemma JoinSelf(mem: Words, a: nat, size: nat, next: nat, b: Block, prev: nat, nx: nat)
    requires Header(mem, a, b, prev, nx) && (next == 0 || a + 48 <= next)
    ensures Header(JoinMem(mem, a, size, next), a, Block(size, b.free), prev, next)
  {
  }

  lemma JoinNextHeader(mem: Words, a: nat, size: nat, next: nat, b: Block, prev: nat, nx: nat)
    requires next != 0 && Header(mem, next, b, prev, nx) && a + 48 <= next
    ensures Header(JoinMem(mem, a, size, next), next, b, a, nx)
  {
  }

  lemma JoinRepresents(mem: Words, whole: seq<Block>, parts: seq<Block>, i: nat)
    requires Represents(mem, parts) && Refined(whole, parts, i) && parts[i].free == whole[i].free
    ensures Represents(JoinMem(mem, Addr(parts, i), whole[i].size, NextOf(parts, i + 1)), whole)
  {
    hide *;
    RefinedSizes(whole, parts, i);
    var mem' := JoinMem(mem, Addr(parts, i), whole[i].size, NextOf(parts, i + 1));
    forall k: nat | k < |whole| ensures HeaderOf(mem', whole, k) {
      JoinHeader(mem, whole, parts, i, k);
    }
    RepresentsIs(mem', whole);
  }

  lemma JoinHeader(mem: Words, whole: seq<Block>, parts: seq<Block>, i: nat, k: nat)
    requires Represents(mem, parts) && Refined(whole, parts, i) && parts[i].free == whole[i].free && k < |whole|
    ensures HeaderOf(JoinMem(mem, Addr(parts, i), whole[i].size, NextOf(parts, i + 1)), whole, k)
  {
    hide *;
    RefinedSizes(whole, parts, i);
    RefinedLinks(whole, parts, i, k);
    RefinedLinks(whole, parts, i, i);
    NextIs(whole, i);
    var a, n, next := Addr(whole, i), whole[i].size, NextOf(whole, i);
    HeaderOfIs(JoinMem(mem, a, n, next), whole, k);
    if k == i {
      RepresentsAt(mem, parts, i);
      JoinSelf(mem, a, n, next, parts[i], PrevOf(parts, i), NextOf(parts, i));
    } else if k == i + 1 {
      AddrBase(whole, k);
      RepresentsAt(mem, parts, k + 1);
      JoinNextHeader(mem, a, n, next, whole[k], PrevOf(parts, k + 1), NextOf(whole, k));
    } else {
      Apart(whole, i, k);
      if i + 1 < |whole| { Apart(whole, i + 1, k); }
      RepresentsAt(mem, parts, if k < i then k else k + 1);
      JoinKeeps(mem, a, n, next, Addr(whole, k), whole[k], PrevOf(whole, k), NextOf(whole, k));
    }
  }

  // ---------- appending ----------

  function AppendMem(mem: Words, a: nat, size: nat, tail: nat): (r: Words) {
    var m := PutHeader(mem, a, Block(size, false), tail, 0);
    if tail != 0 then m[tail + 32 := a] else m
  }

  lemma AppendRepresents(mem: Words, list: seq<Block>, n: nat)
    requires Represents(mem, list)
    ensures var tail := if list == [] then 0 else Addr(list, |list| - 1);
            Represents(AppendMem(mem, Addr(list, |list|), n, tail), list + [Block(n, false)])
  {
    var r := list + [Block(n, false)];
    var tail := if list == [] then 0 else Addr(list, |list| - 1);
    var mem' := AppendMem(mem, Addr(list, |list|), n, tail);
    forall k: nat | k < |r| ensures HeaderOf(mem', r, k) {
      AppendHeader(mem, list, n, k);
    }
  }

  lemma AppendAddr(list: seq<Block>, b: Block, k: nat)
    requires k <= |list|
    ensures Addr(list + [b], k) == Addr(list, k)
  {
    assert (list + [b])[..k] == list[..k];
    AddrPrefix(list, list + [b], k);
  }

  lemma AppendKeeps(mem: Words, a: nat, size: nat, tail: nat, x: nat, b: Block, prev: nat, nx: nat)
    requires Header(mem, x, b, prev, nx) && x + 48 <= a && tail + 48 <= a && (x == tail || tail == 0 || x + 48 <= tail)
    ensures Header(AppendMem(mem, a, size, tail), x, b, prev, if x == tail && tail != 0 then a else nx)
  {
    PutHeaderIs(mem, a, Block(size, false), tail, 0);
    hide PutHeader;
    assert SameHeader(mem, PutHeader(mem, a, Block(size, false), tail, 0), x);
  }

  lemma AppendNew(mem: Words, a: nat, size: nat, tail: nat)
    requires tail == 0 || tail + 48 <= a
    ensures Header(AppendMem(mem, a, size, tail), a, Block(size, false), tail, 0)
  {
    PutHeaderIs(mem, a, Block(size, false), tail, 0);
    hide PutHeader;
  }

  lemma AppendHeader(mem: Words, list: seq<Block>, n: nat, k: nat)
    requires Represents(mem, list) && k <= |list|
    ensures var tail := if list == [] then 0 else Addr(list, |list| - 1);
            HeaderOf(AppendMem(mem, Addr(list, |list|), n, tail), list + [Block(n, false)], k)
  {
    hide *;
    var r := list + [Block(n, false)];
    var tail := if list == [] then 0 else Addr(list, |list| - 1);
    var a := Addr(list, |list|);
    AppendAddr(list, Block(n, false), k);
    if list != [] { AddrOrder(list, |list| - 1, |list|); AddrBase(list, |list| - 1); }
    HeaderOfIs(AppendMem(mem, a, n, tail), r, k);
    if k == |list| {
      AppendNew(mem, a, n, tail);
      AppendLinks(list, n, k);
    } else {
      RepresentsAt(mem, list, k);
      AppendLinks(list, n, k);
      AddrOrder(list, k, |list|);
      if k + 1 < |list| { AddrOrder(list, k, |list| - 1); }
      AppendKeeps(mem, a, n, tail, Addr(list, k), list[k], PrevOf(list, k), NextOf(list, k));
    }
  }

  lemma AppendLinks(list: seq<Block>, n: nat, k: nat)
    requires k <= |list|
    ensures var r := list + [Block(n, false)];
            && (k == |list| ==> PrevOf(r, k) == (if list == [] then 0 else Addr(list, |list| - 1)) && NextOf(r, k) == 0)
            && (k < |list| ==> PrevOf(r, k) == PrevOf(list, k)
                               && NextOf(r, k) == (if k == |list| - 1 then Addr(list, |list|) else NextOf(list, k)))
  {
    hide Addr;
    var b := Block(n, false);
    if k > 0 { AppendAddr(list, b, k - 1); }
    if k < |list| { AppendAddr(list, b, k + 1); }
  }
}
