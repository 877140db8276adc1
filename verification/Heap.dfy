/** kmalloc and kfree on the linked block headers in memory. */
module Heaps {
  import opened Options
  import opened HeapSpec
  import opened HeapMemory
  import opened Paging
  import opened FrameCounts
  import PageAllocators

  /** No live payload of the list contains address `w`. */
  ghost predicate NotLive(list: seq<Block>, w: nat) {
    forall p: nat, size: nat :: Live(list, p, size) ==> !(p <= w < p + size)
  }

  /** The words of every live payload are as they were. */
  ghost predicate LiveSame(mem: Words, mem': Words, list: seq<Block>) {
    forall w: nat :: w in mem && !NotLive(list, w) ==> w in mem' && mem'[w] == mem[w]
  }

  lemma LiveSameTrans(a: Words, b: Words, c: Words, list: seq<Block>)
    requires LiveSame(a, b, list) && LiveSame(b, c, list)
    ensures LiveSame(a, c, list)
  {
    hide NotLive;
  }

  /** Headers, and everything in a free block, are outside all live payloads. */
  lemma BlockNotLive(list: seq<Block>, i: nat, w: nat)
    requires i < |list| && Addr(list, i) <= w < Addr(list, i) + 48 + list[i].size
    requires w < Addr(list, i) + 48 || list[i].free
    ensures NotLive(list, w)
  {
    hide Addr;
    forall p: nat, size: nat | Live(list, p, size) ensures !(p <= w < p + size) {
      var k: nat :| LiveAt(list, k, p, size);
      if k < i { AddrOrder(list, k, i); }
      if i < k { AddrOrder(list, i, k); }
    }
  }

  lemma PastNotLive(list: seq<Block>, w: nat)
    requires w >= Addr(list, |list|)
    ensures NotLive(list, w)
  {
    forall p: nat, size: nat | Live(list, p, size) ensures !(p <= w < p + size) {
      var k: nat :| LiveAt(list, k, p, size);
      AddrOrder(list, k, |list|);
    }
  }

  lemma WriteNotLive(mem: Words, list: seq<Block>, w: nat, v: int)
    requires NotLive(list, w)
    ensures LiveSame(mem, mem[w := v], list)
  {
  }

  /** A block header written outside the live payloads. */
  lemma HeaderNotLive(mem: Words, list: seq<Block>, a: nat, b: Block, prev: nat, next: nat)
    requires forall w: nat :: a <= w < a + 40 ==> NotLive(list, w)
    ensures LiveSame(mem, PutHeader(mem, a, b, prev, next), list)
  {
    PutHeaderKeys(mem, a, b, prev, next);
    hide NotLive, PutHeader;
  }

  lemma PutHeaderKeys(mem: Words, a: nat, b: Block, prev: nat, next: nat)
    ensures forall w: nat :: w in mem ==> w in PutHeader(mem, a, b, prev, next)
    ensures forall w: nat :: w in mem && !(a <= w < a + 40) ==> PutHeader(mem, a, b, prev, next)[w] == mem[w]
  {
  }

  lemma CutLive(mem: Words, list: seq<Block>, i: nat, n: nat, rest: Block)
    requires i < |list| && list[i].free && n + 64 <= list[i].size
    ensures LiveSame(mem, CutMem(mem, Addr(list, i), n, rest, NextOf(list, i)), list)
  {
    hide NotLive, LiveSame, Addr, PutHeader, NextOf;
    var a, next := Addr(list, i), NextOf(list, i);
    var s := a + 48 + n;
    forall w: nat | s <= w < s + 40 ensures NotLive(list, w) { BlockNotLive(list, i, w); }
    HeaderNotLive(mem, list, s, rest, a, next);
    var m := PutHeader(mem, s, rest, a, next);
    NextIs(list, i);
    var m1 := PutPrev(m, next, s);
    if next != 0 {
      BlockNotLive(list, i + 1, next + 24);
      WriteNotLive(m, list, next + 24, s);
    } else {
      LiveSameRefl(m, list);
    }
    BlockNotLive(list, i, a);
    BlockNotLive(list, i, a + 32);
    WriteNotLive(m1, list, a, n);
    WriteNotLive(m1[a := n], list, a + 32, s);
    LiveSameTrans(mem, m, m1, list);
    LiveSameTrans(mem, m1, m1[a := n], list);
    LiveSameTrans(mem, m1[a := n], m1[a := n][a + 32 := s], list);
  }

  lemma LiveSameRefl(mem: Words, list: seq<Block>)
    ensures LiveSame(mem, mem, list)
  {
    hide NotLive;
  }

  lemma JoinLive(mem: Words, list: seq<Block>, i: nat, size: nat)
    requires i + 1 < |list|
    ensures LiveSame(mem, JoinMem(mem, Addr(list, i), size, NextOf(list, i + 1)), list)
  {
    hide NotLive, LiveSame, Addr, NextOf;
    var a, next := Addr(list, i), NextOf(list, i + 1);
    NextIs(list, i + 1);
    BlockNotLive(list, i, a);
    BlockNotLive(list, i, a + 32);
    WriteNotLive(mem, list, a, size);
    WriteNotLive(mem[a := size], list, a + 32, next);
    LiveSameTrans(mem, mem[a := size], mem[a := size][a + 32 := next], list);
    var m := mem[a := size][a + 32 := next];
    if next != 0 {
      BlockNotLive(list, i + 2, next + 24);
      WriteNotLive(m, list, next + 24, a);
      LiveSameTrans(mem, m, m[next + 24 := a], list);
    }
  }

  lemma AppendSame(mem: Words, list: seq<Block>, n: nat)
    ensures var tail := if list == [] then 0 else Addr(list, |list| - 1);
            LiveSame(mem, AppendMem(mem, Addr(list, |list|), n, tail), list)
  {
    hide NotLive, LiveSame, Addr, PutHeader;
    var tail := if list == [] then 0 else Addr(list, |list| - 1);
    var a := Addr(list, |list|);
    forall w: nat | a <= w < a + 40 ensures NotLive(list, w) { PastNotLive(list, w); }
    HeaderNotLive(mem, list, a, Block(n, false), tail, 0);
    var m := PutHeader(mem, a, Block(n, false), tail, 0);
    if tail != 0 {
      BlockNotLive(list, |list| - 1, tail + 32);
      WriteNotLive(m, list, tail + 32, a);
      LiveSameTrans(mem, m, m[tail + 32 := a], list);
    }
  }

  /** Fewer live payloads, fewer words to keep. */
  lemma LiveFewer(mem: Words, mem': Words, list: seq<Block>, fewer: seq<Block>)
    requires LiveSame(mem, mem', list) && forall p: nat, size: nat :: Live(fewer, p, size) ==> Live(list, p, size)
    ensures LiveSame(mem, mem', fewer)
  {
    hide Live;
    forall w: nat | w in mem && !NotLive(fewer, w) ensures w in mem' && mem'[w] == mem[w] {
      var p: nat, size: nat :| Live(fewer, p, size) && p <= w < p + size;
      assert Live(list, p, size);
    }
  }

  function AlignUp16(n: nat): (r: nat)
    ensures r % 16 == 0 && n <= r < n + 16
  {
    (n + 15) / 16 * 16
  }

  /** Where a new block of `n` bytes at the end of the heap ends. */
  function BlockEnd(next: nat, n: nat): nat {
    AlignUp16(AlignUp16(next) + 48 + n)
  }

  lemma BlockEndIs(next: nat, n: nat)
    ensures BlockEnd(next, n) == AlignUp16(AlignUp16(next) + 48 + n)
  {
  }

  /** One past the last page to map so that the heap reaches `end`. */
  function LastPage(mapped: nat, end: nat): (p: nat)
    ensures p >= mapped / 4096
    ensures mapped < end ==> end <= p * 4096 < end + 4096
  {
    if end <= mapped then mapped / 4096 else (end + 4095) / 4096
  }

  /** There are frames for the pages up to `end` and for the tables that lead to them. */
  ghost predicate FramesFor(tables: set<Node>, free: nat, mapped: nat, end: nat) {
    var first, last := mapped / 4096, LastPage(mapped, end);
    Enough(tables, free, RangeTables(first, last), last - first)
  }

  lemma FramesForIs(tables: set<Node>, free: nat, mapped: nat, end: nat)
    ensures LastPage(mapped, end) >= mapped / 4096 >= 0
    ensures FramesFor(tables, free, mapped, end)
         == Enough(tables, free, RangeTables(mapped / 4096, LastPage(mapped, end)),
                   LastPage(mapped, end) - mapped / 4096)
  {
    hide Enough, RangeTables, LastPage;
  }

  lemma MappedPages(mem: Words, list: seq<Block>, head: nat, tail: nat, next: nat, mapped: nat, end: nat)
    requires HeapOk(mem, list, head, tail, next, mapped)
    ensures mapped == mapped / 4096 * 4096 && (mapped >= end <==> mapped / 4096 == LastPage(mapped, end))
  {
    hide ListOk, Represents, Addr;
  }

  lemma LastIs(first: nat, page: nat, end: nat)
    requires first < page <= LastPage(first * 4096, end)
    ensures page * 4096 >= end <==> page == LastPage(first * 4096, end)
  {
  }

  lemma PageNumber(page: nat)
    ensures page * 4096 / 4096 == page
  {
  }

  /** The whole heap state is consistent. */
  ghost predicate HeapOk(mem: Words, list: seq<Block>, head: nat, tail: nat, next: nat, mapped: nat) {
    && ListOk(list) && Represents(mem, list)
    && head == (if list == [] then 0 else HEAP_BASE) && tail == (if list == [] then 0 else Addr(list, |list| - 1))
    && next == Addr(list, |list|) && next <= HEAP_BASE + HEAP_SIZE && next <= mapped && Mapped(mem, mapped)
  }

  /** The words of the mapped part of the heap, and no others, exist. */
  ghost predicate Mapped(mem: Words, end: nat) {
    end % 4096 == 0 && forall w: nat :: w in mem <==> HEAP_BASE <= w < end && w % 8 == 0
  }

  lemma OkParts(mem: Words, list: seq<Block>, head: nat, tail: nat, next: nat, mapped: nat)
    requires HeapOk(mem, list, head, tail, next, mapped)
    ensures ListOk(list) && SizesOk(list) && Represents(mem, list) && Mapped(mem, mapped)
    ensures head == (if list == [] then 0 else HEAP_BASE) && tail == (if list == [] then 0 else Addr(list, |list| - 1))
    ensures next == Addr(list, |list|) && next <= HEAP_BASE + HEAP_SIZE && next <= mapped
  {
    hide SizesOk, Merged, Represents, Mapped, Addr;
  }

  lemma OkIs(mem: Words, list: seq<Block>, head: nat, tail: nat, next: nat, mapped: nat)
    requires ListOk(list) && Represents(mem, list) && Mapped(mem, mapped)
    requires head == (if list == [] then 0 else HEAP_BASE) && tail == (if list == [] then 0 else Addr(list, |list| - 1))
    requires next == Addr(list, |list|) && next <= HEAP_BASE + HEAP_SIZE && next <= mapped
    ensures HeapOk(mem, list, head, tail, next, mapped)
  {
    hide ListOk, Represents, Mapped, Addr;
  }

  lemma SameKeys(mem: Words, mem': Words, end: nat)
    requires Mapped(mem, end) && mem'.Keys == mem.Keys
    ensures Mapped(mem', end)
  {
    assert forall w :: w in mem' <==> w in mem'.Keys;
    assert forall w :: w in mem <==> w in mem.Keys;
  }

  /** A zeroed page of the heap. */
  function NewPage(end: nat): (m: Words)
    ensures forall w: nat :: w in m <==> InPage(end, w)
  {
    map w: nat | w < end + 4096 && InPage(end, w) :: 0
  }

  predicate InPage(end: nat, w: nat) {
    end <= w < end + 4096 && w % 8 == 0
  }

  lemma MoreMapped(mem: Words, list: seq<Block>, head: nat, tail: nat, next: nat, mapped: nat)
    requires HeapOk(mem, list, head, tail, next, mapped)
    ensures HeapOk(mem + NewPage(mapped), list, head, tail, next, mapped + 4096)
    ensures forall w: nat :: w in mem ==> w in mem + NewPage(mapped) && (mem + NewPage(mapped))[w] == mem[w]
  {
    OkParts(mem, list, head, tail, next, mapped);
    hide HeapOk, ListOk, SizesOk, Addr, HeaderOf, Represents;
    var mem' := mem + NewPage(mapped);
    BaseBelow(list);
    assert Mapped(mem', mapped + 4096);
    assert forall w: nat :: w in mem ==> w in mem' && mem'[w] == mem[w];
    hide Mapped;
    MoreRepresents(mem, mem', list);
    OkIs(mem', list, head, tail, next, mapped + 4096);
  }

  lemma BaseBelow(list: seq<Block>)
    ensures HEAP_BASE <= Addr(list, |list|)
  {
  }

  lemma MoreRepresents(mem: Words, mem': Words, list: seq<Block>)
    requires Represents(mem, list) && forall w: nat :: w in mem ==> w in mem' && mem'[w] == mem[w]
    ensures Represents(mem', list)
  {
    hide Addr, PrevOf, NextOf;
    forall i: nat | i < |list| ensures HeaderOf(mem', list, i) {
      assert HeaderOf(mem, list, i);
    }
  }

  lemma HeaderReads(mem: Words, a: nat, b: Block, prev: nat, next: nat)
    requires Header(mem, a, b, prev, next)
    ensures a in mem && a + 8 in mem && a + 16 in mem && a + 24 in mem && a + 32 in mem
    ensures mem[a] == b.size && (mem[a + 8] == 0 <==> !b.free) && mem[a + 8] == Flag(b.free)
    ensures mem[a + 16] == HEAP_MAGIC && mem[a + 24] == prev && mem[a + 32] == next
  {
  }

  lemma SplitIs(list: seq<Block>, i: nat, n: nat)
    requires i < |list| && n <= list[i].size
    ensures var parts := Split(list, i, n);
            if list[i].size < n + 64 then parts == list
            else
              && |parts| == |list| + 1 && parts[i] == Block(n, list[i].free)
              && parts[i + 1] == Block(list[i].size - n - 48, true)
  {
  }

  lemma CutMemIs(mem: Words, a: nat, size: nat, rest: Block, next: nat)
    ensures var s := a + 48 + size;
            CutMem(mem, a, size, rest, next) ==
              PutPrev(PutHeader(mem, s, rest, a, next), next, s)[a := size][a + 32 := s]
  {
    hide PutPrev, PutHeader;
  }

  lemma PutPrevIs(mem: Words, a: nat, prev: nat)
    ensures PutPrev(mem, a, prev) == if a != 0 then mem[a + 24 := prev] else mem
  {
  }

  lemma CutKeys(mem: Words, end: nat, a: nat, size: nat, rest: Block, next: nat)
    requires Mapped(mem, end) && HEAP_BASE <= a && a % 16 == 0 && size % 16 == 0 && a + 48 + size + 48 <= end
    requires next == 0 || next + 24 in mem
    ensures CutMem(mem, a, size, rest, next).Keys == mem.Keys
  {
    hide *;
    var s := a + 48 + size;
    MappedAt(mem, end, s);
    MappedAt(mem, end, a);
    PutHeaderSameKeys(mem, s, rest, a, next);
    CutMemIs(mem, a, size, rest, next);
    PutPrevIs(PutHeader(mem, s, rest, a, next), next, s);
  }

  /** The last block after a cut. */
  lemma CutTail(list: seq<Block>, parts: seq<Block>, i: nat)
    requires Refined(list, parts, i)
    ensures |parts| == |list| + 1 && i < |list|
    ensures Addr(parts, |parts| - 1) == if i + 1 < |list| then Addr(list, |list| - 1)
      else Addr(list, i) + 48 + parts[i].size
    ensures Addr(parts, |parts|) == Addr(list, |list|)
  {
    RefinedAddr(list, parts, i, |list| - 1);
    RefinedAddr(list, parts, i, |list|);
  }

  datatype Allocation = Pointer(address: nat) | Null | Panic

  class Heap {
    const pmm: PageAllocators.PageAllocator
    var mem: Words
    var head: nat
    var tail: nat
    var next: nat
    var mapped: nat
    var tables: set<Node>
    ghost var list: seq<Block>

    ghost predicate Valid()
      reads this, pmm, pmm.bitmap
    {
      pmm.Valid() && HeapOk(mem, list, head, tail, next, mapped)
    }

    /** An empty heap; `tables` are the positions of the kernel's page tables that exist already. */
    constructor (pmm: PageAllocators.PageAllocator, tables: set<Node>)
      requires pmm.Valid()
      ensures Valid() && this.pmm == pmm && this.tables == tables && list == []
    {
      this.pmm, this.tables, mem, head, tail, next, mapped, list := pmm, tables, map[], 0, 0, HEAP_BASE, HEAP_BASE, [];
    }

    lemma ValidIs()
      ensures Valid() == (pmm.Valid() && HeapOk(mem, list, head, tail, next, mapped))
    {
      hide HeapOk;
    }

    /** The table at position `n` of the kernel's page tables, made on demand. */
    method MakeTable(n: Node) returns (ok: bool)
      requires pmm.Valid()
      modifies this`tables, pmm, pmm.bitmap
      ensures pmm.Valid() && (!ok ==> pmm.Free() == {})
      ensures ok <==> n in old(tables) || old(pmm.freeCount) > 0
      ensures tables == if ok then old(tables) + {n} else old(tables)
      ensures pmm.freeCount + |tables| == old(pmm.freeCount) + |old(tables)|
    {
      ok := true;
      OneMore(tables, n);
      pmm.CountIs();
      if n !in tables {
        var frame := pmm.AllocPage();
        pmm.CountIs();
        if frame.None? {
          return false;
        }
        tables := tables + {n};
      } else {
        KnownTable(tables, n);
      }
    }

    /** A frame for one heap page, and the tables that lead to it; false when memory is exhausted. */
    method MapHeapPage(page: nat) returns (ok: bool)
      requires pmm.Valid()
      modifies this`tables, pmm, pmm.bitmap
      ensures pmm.Valid() && (!ok ==> pmm.Free() == {})
      ensures ok <==> Enough(old(tables), old(pmm.freeCount), TablesFor(page), 1)
      ensures ok ==> Took(old(tables), old(pmm.freeCount), tables, pmm.freeCount, TablesFor(page), 1)
    {
      hide Enough, Took, Toward, TablesFor;
      EnoughForOne(tables, pmm.freeCount, page);
      TableCounts(tables, page);
      pmm.CountIs();
      var frame := pmm.AllocPage();
      pmm.CountIs();
      if frame.None? {
        return false;
      }
      ok := MakeTable(Toward(page, 1));
      if ok { ok := MakeTable(Toward(page, 2)); }
      if ok { ok := MakeTable(Toward(page, 3)); }
      if ok { TookOne(old(tables), old(pmm.freeCount), tables, pmm.freeCount, page); }
    }

    /** Maps zeroed pages until the heap reaches `end`; false exactly when there are too few frames. */
    method EnsureMapped(end: nat) returns (ok: bool)
      requires Valid()
      modifies this`mem, this`mapped, this`tables, pmm, pmm.bitmap
      ensures Valid() && (!ok ==> pmm.Free() == {})
      ensures ok ==> mapped % 4096 == 0 && end <= mapped && (mapped == old(mapped) || mapped < end + 4096)
      ensures ok <==> FramesFor(old(tables), old(pmm.freeCount), old(mapped), end)
      ensures forall w: nat :: w in old(mem) ==> w in mem && mem[w] == old(mem)[w]
    {
      hide *;
      ghost var keys, free, first, last := tables, pmm.freeCount, mapped / 4096, LastPage(mapped, end);
      FramesForIs(keys, free, mapped, end);
      TookNone(keys, free, first);
      ghost var page := first;
      ValidIs();
      MappedPages(mem, list, head, tail, next, mapped, end);
      while mapped < end
        invariant Valid() && first <= page <= last && mapped == page * 4096 && (mapped >= end <==> page == last)
        invariant Took(keys, free, tables, pmm.freeCount, RangeTables(first, page), page - first)
        invariant Enough(keys, free, RangeTables(first, page), page - first)
        invariant forall w: nat :: w in old(mem) ==> w in mem && mem[w] == old(mem)[w]
        decreases last - page
      {
        ValidIs();
        ghost var keys0, free0 := tables, pmm.freeCount;
        EnoughPage(keys, free, keys0, free0, first, page, last);
        PageNumber(page);
        ok := MapHeapPage(mapped / 4096);
        if !ok {
          ValidIs();
          return;
        }
        TookPage(keys, free, keys0, free0, tables, pmm.freeCount, first, page);
        MoreMapped(mem, list, head, tail, next, mapped);
        mem := mem + NewPage(mapped);
        mapped := mapped + 4096;
        page := page + 1;
        LastIs(first, page, end);
        ValidIs();
      }
      ok := true;
    }

    /** Writes the five words of a header. */
    method WriteHeader(a: nat, size: nat, free: bool, prev: nat, after: nat)
      modifies this`mem
      ensures mem == PutHeader(old(mem), a, Block(size, free), prev, after)
    {
      mem := mem[a := size];
      mem := mem[a + 8 := if free then 1 else 0];
      mem := mem[a + 16 := HEAP_MAGIC];
      mem := mem[a + 24 := prev];
      mem := mem[a + 32 := after];
    }

    /** Cuts a free block down to `size` bytes when the rest can stand on its own. */
    method SplitBlock(block: nat, size: nat, ghost i: nat)
      requires Valid() && i < |list| && block == Addr(list, i) && list[i].free && 0 < size <= list[i].size
      requires size % 16 == 0
      modifies this`mem, this`tail
      ensures i < |Split(list, i, size)| && Represents(mem, Split(list, i, size)) && LiveSame(old(mem), mem, list)
      ensures tail == Addr(Split(list, i, size), |Split(list, i, size)| - 1)
      ensures mem.Keys == old(mem).Keys && Addr(Split(list, i, size), |Split(list, i, size)|) == next
    {
      hide *;
      ValidIs();
      OkParts(mem, list, head, tail, next, mapped);
      RepresentsAt(mem, list, i);
      HeaderReads(mem, block, list[i], PrevOf(list, i), NextOf(list, i));
      SplitIs(list, i, size);
      LiveSameRefl(mem, list);
      if mem[block] < size + 64 {
        return;
      }
      ghost var parts := Split(list, i, size);
      SplitRefines(list, i, size);
      CutRepresents(mem, list, parts, i);
      CutLive(mem, list, i, size, parts[i + 1]);
      CutMemIs(mem, block, size, parts[i + 1], NextOf(list, i));
      CutTail(list, parts, i);
      CutSpace(mem, list, i, size, mapped);
      CutKeys(mem, mapped, block, size, parts[i + 1], NextOf(list, i));
      var split, rest, after := block + 48 + size, mem[block] - size - 48, mem[block + 32];
      WriteHeader(split, rest, true, block, after);
      PutPrevIs(mem, after, split);
      if after != 0 {
        mem := mem[after + 24 := split];
      } else {
        tail := split;
      }
      mem := mem[block := size][block + 32 := split];
    }

    /** Takes the first fitting block. */
    method TakeFit(block: nat, n: nat, ghost i: nat)
      requires Valid() && n > 0 && n % 16 == 0 && FirstFit(list, n, 0) == Some(i) && i < |list|
      requires block == Addr(list, i)
      modifies this
      ensures Valid() && list == Malloc(old(list), n) && block == Addr(list, MallocIndex(old(list), n))
      ensures LiveSame(old(mem), mem, old(list))
    {
      hide *;
      ValidIs();
      OkParts(mem, list, head, tail, next, mapped);
      MallocOk(list, n);
      CarvedIs(list, n, i);
      FitStep(list, n, i);
      RepresentsAt(mem, list, i);
      HeaderReads(mem, block, list[i], PrevOf(list, i), NextOf(list, i));
      SplitBlock(block, n, i);
      ghost var parts := Split(list, i, n);
      SplitAddr(list, i, n);
      MarkRepresents(mem, parts, i, false);
      MarkedAddr(parts, i, false, i);
      MarkedAddr(parts, i, false, |parts|);
      MarkedAddr(parts, i, false, |parts| - 1);
      BlockNotLive(list, i, block + 8);
      WriteNotLive(mem, list, block + 8, 0);
      LiveSameTrans(old(mem), mem, mem[block + 8 := 0], list);
      FlagKey(old(mem), mem, block, mapped);
      FlagIs();
      mem := mem[block + 8 := 0];
      list := Malloc(list, n);
      OkIs(mem, list, head, tail, next, mapped);
      ValidIs();
    }

    /** Writes the header of a new last block at `a` and links it behind the tail. */
    method LinkLast(a: nat, n: nat)
      modifies this`mem, this`head, this`tail
      ensures mem == AppendMem(old(mem), a, n, old(tail)) && tail == a
      ensures head == if old(tail) != 0 then old(head) else a
    {
      hide PutHeader;
      WriteHeader(a, n, false, tail, 0);
      if tail != 0 {
        mem := mem[tail + 32 := a];
      } else {
        head := a;
      }
      tail := a;
    }

    /** Adds a block at the end of the heap; fails exactly when the region or the memory is exhausted. */
    method Append(n: nat) returns (start: Option<nat>)
      requires Valid() && n > 0 && n % 16 == 0 && FirstFit(list, n, 0).None?
      modifies this, pmm, pmm.bitmap
      ensures Valid() && LiveSame(old(mem), mem, old(list))
      ensures start.None? ==> list == old(list)
      ensures start.Some? <==>
                && BlockEnd(old(next), n) <= HEAP_BASE + HEAP_SIZE
                && FramesFor(old(tables), old(pmm.freeCount), old(mapped), BlockEnd(old(next), n))
      ensures start.None? && BlockEnd(old(next), n) <= HEAP_BASE + HEAP_SIZE ==> pmm.Free() == {}
      ensures start.Some? ==> list == Malloc(old(list), n) && start.value == Addr(list, MallocIndex(old(list), n))
    {
      hide *;
      ValidIs();
      OkParts(mem, list, head, tail, next, mapped);
      LiveSameRefl(mem, list);
      MallocOk(list, n);
      AppendIs(list, n);
      AppendEnds(list, n);
      AlignedNext(list);
      var a := AlignUp16(next);
      var end := AlignUp16(a + 48 + n);
      BlockEndIs(next, n);
      if end > HEAP_BASE + HEAP_SIZE {
        return None;
      }
      var ok := EnsureMapped(end);
      ExtendedSame(old(mem), mem, list);
      if !ok {
        return None;
      }
      ValidIs();
      OkParts(mem, list, head, tail, next, mapped);
      ghost var mem1 := mem;
      AppendRepresents(mem, list, n);
      AppendSame(mem, list, n);
      LiveSameTrans(old(mem), mem, AppendMem(mem, a, n, tail), list);
      AppendKeys(mem, list, n, mapped);
      SameKeys(mem, AppendMem(mem, a, n, tail), mapped);
      LinkLast(a, n);
      next := end;
      list := Malloc(list, n);
      OkIs(mem, list, head, tail, next, mapped);
      ValidIs();
      start := Some(a);
    }

    /** Follows the list to the first free block that is large enough; 0 when there is none. */
    method FindFit(n: nat) returns (block: nat, ghost i: nat)
      requires Valid()
      ensures block == 0 <==> FirstFit(list, n, 0).None?
      ensures block != 0 ==> FirstFit(list, n, 0) == Some(i) && i < |list| && block == Addr(list, i)
    {
      hide *;
      ValidIs();
      OkParts(mem, list, head, tail, next, mapped);
      StartIs(list);
      block, i := head, 0;
      while block != 0
        invariant i <= |list| && block == (if i < |list| then Addr(list, i) else 0)
        invariant FirstFit(list, n, 0) == FirstFit(list, n, i)
        decreases |list| - i
      {
        RepresentsAt(mem, list, i);
        HeaderReads(mem, block, list[i], PrevOf(list, i), NextOf(list, i));
        FitStep(list, n, i);
        if mem[block + 8] != 0 && mem[block] >= n {
          return;
        }
        NextIs(list, i);
        block, i := mem[block + 32], i + 1;
      }
      AddrBase(list, i);
      FitEnd(list, n);
    }

    /** First fit, else a new block at the end of the heap. */
    method Kmalloc(size: nat) returns (r: Allocation)
      requires Valid() && size <= HEAP_SIZE
      modifies this, pmm, pmm.bitmap
      ensures Valid() && LiveSame(old(mem), mem, old(list))
      ensures size == 0 <==> r.Null?
      ensures !r.Pointer? ==> list == old(list)
      ensures var n := AlignUp16(size);
              r.Panic? <==>
                && size > 0 && FirstFit(old(list), n, 0).None?
                && !(BlockEnd(old(next), n) <= HEAP_BASE + HEAP_SIZE
                     && FramesFor(old(tables), old(pmm.freeCount), old(mapped), BlockEnd(old(next), n)))
      ensures r.Panic? && BlockEnd(old(next), AlignUp16(size)) <= HEAP_BASE + HEAP_SIZE ==> pmm.Free() == {}
      ensures r.Pointer? ==>
                && list == Malloc(old(list), AlignUp16(size))
                   && r.address == Addr(list, MallocIndex(old(list), AlignUp16(size))) + 48
                && NewPointer(old(list), list, r.address, size)
    {
      hide *;
      ValidIs();
      OkParts(mem, list, head, tail, next, mapped);
      LiveSameRefl(mem, list);
      if size == 0 {
        return Null;
      }
      MallocPointer(list, size);
      var n := AlignUp16(size);
      var block;
      ghost var i;
      block, i := FindFit(n);
      if block != 0 {
        TakeFit(block, n, i);
        return Pointer(block + 48);
      }
      var start := Append(n);
      if start.None? {
        return Panic;
      }
      r := Pointer(start.value + 48);
    }

    /** Merges free block `i + 1`, at address `after`, into free block `i`, at address `a`. */
    method Merge(a: nat, after: nat, ghost i: nat)
      requires LinksOk(mem, list, head, tail, next, mapped) && i + 1 < |list| && a == Addr(list, i)
      requires after == Addr(list, i + 1)
      requires list[i].free && list[i + 1].free
      modifies this`mem, this`tail, this`list
      ensures list == Joined(old(list), i) && LinksOk(mem, list, head, tail, next, mapped)
      ensures LiveSame(old(mem), mem, old(list)) && SameLive(old(list), list)
    {
      hide *;
      LinksParts(mem, list, head, tail, next, mapped);
      RepresentsAt(mem, list, i);
      RepresentsAt(mem, list, i + 1);
      HeaderReads(mem, a, list[i], PrevOf(list, i), NextOf(list, i));
      HeaderReads(mem, after, list[i + 1], PrevOf(list, i + 1), NextOf(list, i + 1));
      ghost var parts, whole := list, Joined(list, i);
      JoinRefines(parts, i);
      JoinedIs(parts, i);
      JoinRepresents(mem, whole, parts, i);
      JoinLive(mem, parts, i, whole[i].size);
      JoinSameLive(whole, parts, i);
      JoinMemIs(mem, a, whole[i].size, NextOf(parts, i + 1));
      JoinEnds(mem, whole, parts, i);
      JoinSizes(parts, i);
      SameKeys(mem, JoinMem(mem, a, whole[i].size, NextOf(parts, i + 1)), mapped);
      var beyond := mem[after + 32];
      mem := mem[a := mem[a] + 48 + mem[after]];
      mem := mem[a + 32 := beyond];
      if beyond != 0 {
        mem := mem[beyond + 24 := a];
      } else {
        tail := a;
      }
      list := whole;
      LinksIs(mem, list, head, tail, next, mapped);
    }

    /** Merges a free block with its free neighbours. */
    method Coalesce(block: nat, ghost i: nat)
      requires LinksOk(mem, list, head, tail, next, mapped) && i < |list| && block == Addr(list, i) && list[i].free
      modifies this`mem, this`tail, this`list
      ensures list == JoinPrev(JoinNext(old(list), i), i) && LinksOk(mem, list, head, tail, next, mapped)
      ensures LiveSame(old(mem), mem, old(list)) && SameLive(old(list), list)
    {
      hide *;
      ghost var first := list;
      LinksAt(mem, list, head, tail, next, mapped, i);
      LiveSameRefl(mem, list);
      SameLiveRefl(list);
      JoinNextIs(list, i);
      JoinNextKeeps(list, i);
      var after := mem[block + 32];
      if after != 0 && mem[after + 8] != 0 {
        Merge(block, after, i);
      }
      LinksAt(mem, list, head, tail, next, mapped, i);
      JoinPrevIs(list, i);
      ghost var second, mem2 := list, mem;
      var before := mem[block + 24];
      if before != 0 && mem[before + 8] != 0 {
        Merge(before, block, i - 1);
        LiveEqual(mem2, mem, second, first);
        LiveSameTrans(old(mem), mem2, mem, first);
        SameLiveTrans(first, second, list);
      }
    }

    /** What a client does with its payload: it writes words inside it. The heap stays consistent. */
    method Store(w: nat, v: int, ghost p: nat, ghost size: nat)
      requires Valid() && Live(list, p, size) && p <= w < p + size && w in mem
      modifies this`mem
      ensures Valid() && mem == old(mem)[w := v]
    {
      hide *;
      ValidIs();
      ClientWriteKeeps(mem, list, head, tail, next, mapped, p, size, w, v);
      mem := mem[w := v];
      ValidIs();
    }

    /** Releases a live payload; every other one keeps its words. A pointer to anything else, such as a payload freed
        before, is a kernel panic. */
    method Kfree(ptr: nat, ghost size: nat) returns (ok: bool)
      requires Valid() && (ptr != 0 ==> HeaderTells(mem, list, ptr, size))
      modifies this
      ensures Valid() && (ok <==> ptr == 0 || Live(old(list), ptr, size))
      ensures ptr == 0 || !ok ==> list == old(list) && mem == old(mem)
      ensures ptr != 0 && ok ==> LiveSame(old(mem), mem, list) && Released(old(list), list, ptr)
    {
      hide *;
      ok := true;
      if ptr == 0 {
        return;
      }
      ValidIs();
      OkParts(mem, list, head, tail, next, mapped);
      TellsIs(mem, list, ptr, size);
      var block := ptr - 48;
      if mem[block + 16] != HEAP_MAGIC || mem[block + 8] != 0 {
        return false;
      }
      ghost var i := LiveIndex(list, ptr, size);
      RepresentsAt(mem, list, i);
      HeaderReads(mem, ptr - 48, list[i], PrevOf(list, i), NextOf(list, i));
      ghost var was, marked := list, Marked(list, i, true);
      MarkRepresents(mem, list, i, true);
      FlagIs();
      FreeSteps(list, i);
      FlagKeys(mem, block, mapped);
      MarkLinks(mem[block + 8 := 1], list, i, head, tail, next, mapped);
      BlockNotLive(list, i, block + 8);
      WriteNotLive(mem, list, block + 8, 1);
      MarkFewer(list, i);
      LiveFewer(mem, mem[block + 8 := 1], list, marked);
      mem := mem[block + 8 := 1];
      list := marked;
      ghost var mem1 := mem;
      Coalesce(block, i);
      LiveSameTrans(old(mem), mem1, mem, marked);
      LiveEqual(old(mem), mem, marked, list);
      FreeOk(was, i);
      ReleasedIs(was, i, list);
      OkFromLinks(mem, list, head, tail, next, mapped);
      ValidIs();
    }
  }

  /** A write inside a live payload changes no header and no other live payload. */
  lemma ClientWriteKeeps(mem: Words, list: seq<Block>, head: nat, tail: nat, next: nat, mapped: nat, p: nat,
                         size: nat, w: nat, v: int)
    requires HeapOk(mem, list, head, tail, next, mapped) && Live(list, p, size) && p <= w < p + size && w in mem
    ensures HeapOk(mem[w := v], list, head, tail, next, mapped)
    ensures forall q: nat, y: nat, x: nat :: Live(list, q, y) && q != p && q <= x < q + y && x in mem ==>
              mem[w := v][x] == mem[x]
  {
    hide *;
    var after := mem[w := v];
    OkParts(mem, list, head, tail, next, mapped);
    forall i: nat | i < |list| ensures HeaderOf(after, list, i) { HeaderOutside(mem, list, i, p, size, w, v); }
    RepresentsIs(after, list);
    SameKeys(mem, after, mapped);
    OkIs(after, list, head, tail, next, mapped);
    forall q: nat, y: nat, x: nat | Live(list, q, y) && q != p && q <= x < q + y && x in mem
      ensures after[x] == mem[x] {
      if x == w { LivesApart(list, p, size, q, y, w); }
    }
  }

  lemma HeaderOutside(mem: Words, list: seq<Block>, i: nat, p: nat, size: nat, w: nat, v: int)
    requires Represents(mem, list) && i < |list| && Live(list, p, size) && p <= w < p + size
    ensures HeaderOf(mem[w := v], list, i)
  {
    hide Live, Addr, PrevOf, NextOf, Represents;
    RepresentsAt(mem, list, i);
    if Addr(list, i) <= w < Addr(list, i) + 48 { BlockNotLive(list, i, w); }
  }

  lemma LivesApart(list: seq<Block>, p: nat, size: nat, q: nat, y: nat, w: nat)
    requires Live(list, p, size) && Live(list, q, y) && p <= w < p + size && q <= w < q + y
    ensures p == q
  {
    hide Addr;
    var i: nat :| LiveAt(list, i, p, size);
    var k: nat :| LiveAt(list, k, q, y);
    if i < k { AddrOrder(list, i, k); }
    if k < i { AddrOrder(list, k, i); }
  }

  /** Two lists with the same live payloads. */
  ghost predicate SameLive(a: seq<Block>, b: seq<Block>) {
    forall p: nat, size: nat :: Live(a, p, size) <==> Live(b, p, size)
  }

  /** The words before `ptr` are mapped, and they look like the header of a block in use only if it is one. */
  ghost predicate HeaderTells(mem: Words, list: seq<Block>, ptr: nat, size: nat) {
    && ptr >= 48 && ptr - 40 in mem && ptr - 32 in mem
    && (mem[ptr - 32] == HEAP_MAGIC && mem[ptr - 40] == 0 ==> Live(list, ptr, size))
  }

  lemma TellsIs(mem: Words, list: seq<Block>, ptr: nat, size: nat)
    requires HeaderTells(mem, list, ptr, size) && Represents(mem, list)
    ensures ptr >= 48 && ptr - 40 in mem && ptr - 32 in mem
    ensures Live(list, ptr, size) <==> mem[ptr - 32] == HEAP_MAGIC && mem[ptr - 40] == 0
  {
    if Live(list, ptr, size) { LiveTells(mem, list, ptr, size); }
  }

  /** The pointers that allocation hands out qualify, and so do the payloads of free blocks. */
  lemma LiveTells(mem: Words, list: seq<Block>, ptr: nat, size: nat)
    requires Represents(mem, list) && Live(list, ptr, size)
    ensures HeaderTells(mem, list, ptr, size) && mem[ptr - 32] == HEAP_MAGIC && mem[ptr - 40] == 0
  {
    hide Represents, Addr, PrevOf, NextOf;
    var i: nat :| LiveAt(list, i, ptr, size);
    RepresentsAt(mem, list, i);
  }

  lemma FreeTells(mem: Words, list: seq<Block>, i: nat, size: nat)
    requires Represents(mem, list) && i < |list| && list[i].free
    ensures HeaderTells(mem, list, Addr(list, i) + 48, size) && !Live(list, Addr(list, i) + 48, size)
  {
    hide Represents, Addr, PrevOf, NextOf, Live;
    RepresentsAt(mem, list, i);
    if Live(list, Addr(list, i) + 48, size) {
      LiveTells(mem, list, Addr(list, i) + 48, size);
    }
  }

  /** Exactly the payload at `p` is no longer live. */
  ghost predicate Released(list: seq<Block>, list': seq<Block>, p: nat) {
    forall q: nat, y: nat :: Live(list', q, y) <==> Live(list, q, y) && q != p
  }

  /** The heap state without the merging condition, as it is while blocks are being merged. */
  ghost predicate LinksOk(mem: Words, list: seq<Block>, head: nat, tail: nat, next: nat, mapped: nat) {
    && SizesOk(list) && list != [] && Represents(mem, list) && Mapped(mem, mapped)
    && head == HEAP_BASE && tail == Addr(list, |list| - 1) && next == Addr(list, |list|)
       && next <= HEAP_BASE + HEAP_SIZE && next <= mapped
  }

  lemma LinksParts(mem: Words, list: seq<Block>, head: nat, tail: nat, next: nat, mapped: nat)
    requires LinksOk(mem, list, head, tail, next, mapped)
    ensures SizesOk(list) && list != [] && Represents(mem, list) && Mapped(mem, mapped)
    ensures head == HEAP_BASE && tail == Addr(list, |list| - 1) && next == Addr(list, |list|)
    ensures next <= HEAP_BASE + HEAP_SIZE && next <= mapped
  {
    hide SizesOk, Represents, Mapped, Addr;
  }

  lemma LinksIs(mem: Words, list: seq<Block>, head: nat, tail: nat, next: nat, mapped: nat)
    requires SizesOk(list) && list != [] && Represents(mem, list) && Mapped(mem, mapped)
    requires head == HEAP_BASE && tail == Addr(list, |list| - 1) && next == Addr(list, |list|)
    requires next <= HEAP_BASE + HEAP_SIZE && next <= mapped
    ensures LinksOk(mem, list, head, tail, next, mapped)
  {
    hide SizesOk, Represents, Mapped, Addr;
  }

  lemma OkFromLinks(mem: Words, list: seq<Block>, head: nat, tail: nat, next: nat, mapped: nat)
    requires LinksOk(mem, list, head, tail, next, mapped) && ListOk(list)
    ensures HeapOk(mem, list, head, tail, next, mapped)
  {
    hide *;
    LinksParts(mem, list, head, tail, next, mapped);
    OkIs(mem, list, head, tail, next, mapped);
  }

  /** The links of block `i` lead to its neighbours, or nowhere. */
  lemma LinksAt(mem: Words, list: seq<Block>, head: nat, tail: nat, next: nat, mapped: nat, i: nat)
    requires LinksOk(mem, list, head, tail, next, mapped) && i < |list|
    ensures var a := Addr(list, i);
            && a + 24 in mem && a + 32 in mem && (mem[a + 32] != 0 <==> i + 1 < |list|) && (mem[a + 24] != 0 <==> i > 0)
            && (i + 1 < |list| ==> var x := Addr(list, i + 1);
                                   mem[a + 32] == x && x + 8 in mem && (mem[x + 8] != 0 <==> list[i + 1].free))
            && (i > 0 ==> var y := Addr(list, i - 1);
                          mem[a + 24] == y && y + 8 in mem && (mem[y + 8] != 0 <==> list[i - 1].free))
  {
    hide *;
    LinksParts(mem, list, head, tail, next, mapped);
    RepresentsAt(mem, list, i);
    HeaderReads(mem, Addr(list, i), list[i], PrevOf(list, i), NextOf(list, i));
    NextIs(list, i);
    PrevIs(list, i);
    if i + 1 < |list| {
      AddrBase(list, i + 1);
      RepresentsAt(mem, list, i + 1);
      HeaderReads(mem, Addr(list, i + 1), list[i + 1], PrevOf(list, i + 1), NextOf(list, i + 1));
    }
    if i > 0 {
      AddrBase(list, i - 1);
      RepresentsAt(mem, list, i - 1);
      HeaderReads(mem, Addr(list, i - 1), list[i - 1], PrevOf(list, i - 1), NextOf(list, i - 1));
    }
  }

  lemma PrevIs(list: seq<Block>, i: nat)
    requires i < |list|
    ensures PrevOf(list, i) == if i == 0 then 0 else Addr(list, i - 1)
  {
  }

  lemma JoinedIs(list: seq<Block>, i: nat)
    requires i + 1 < |list|
    ensures var w := Joined(list, i);
            |w| == |list| - 1 && w[i].size == list[i].size + 48 + list[i + 1].size && w[i].free == list[i].free
  {
  }

  lemma JoinSameLive(whole: seq<Block>, parts: seq<Block>, i: nat)
    requires Refined(whole, parts, i) && whole[i].free && parts[i].free && parts[i + 1].free
    ensures SameLive(parts, whole)
  {
    hide Live, Refined;
    forall p: nat, size: nat ensures Live(parts, p, size) <==> Live(whole, p, size) {
      RefinedLive(whole, parts, i, p, size);
    }
  }

  lemma JoinMemIs(mem: Words, a: nat, size: nat, next: nat)
    ensures var m := mem[a := size][a + 32 := next];
            JoinMem(mem, a, size, next) == if next != 0 then m[next + 24 := a] else m
  {
  }

  /** End, tail and keys after a merge. */
  lemma JoinEnds(mem: Words, whole: seq<Block>, parts: seq<Block>, i: nat)
    requires Refined(whole, parts, i) && Represents(mem, parts)
    ensures whole != [] && |parts| == |whole| + 1 && Addr(whole, |whole|) == Addr(parts, |parts|)
    ensures NextOf(parts, i + 1) != 0 <==> i + 2 < |parts|
    ensures Addr(whole, |whole| - 1) == if i + 2 < |parts| then Addr(parts, |parts| - 1) else Addr(parts, i)
    ensures JoinMem(mem, Addr(parts, i), whole[i].size, NextOf(parts, i + 1)).Keys == mem.Keys
  {
    hide *;
    RefinedSizes(whole, parts, i);
    RefinedAddr(whole, parts, i, |whole|);
    RefinedAddr(whole, parts, i, |whole| - 1);
    RefinedAddr(whole, parts, i, i);
    NextIs(parts, i + 1);
    RepresentsAt(mem, parts, i);
    HeaderReads(mem, Addr(parts, i), parts[i], PrevOf(parts, i), NextOf(parts, i));
    if i + 2 < |parts| {
      AddrBase(parts, i + 2);
      RepresentsAt(mem, parts, i + 2);
      HeaderReads(mem, Addr(parts, i + 2), parts[i + 2], PrevOf(parts, i + 2), NextOf(parts, i + 2));
    }
    JoinMemIs(mem, Addr(parts, i), whole[i].size, NextOf(parts, i + 1));
  }

  lemma SameLiveRefl(list: seq<Block>)
    ensures SameLive(list, list)
  {
    hide Live;
  }

  lemma SameLiveTrans(a: seq<Block>, b: seq<Block>, c: seq<Block>)
    requires SameLive(a, b) && SameLive(b, c)
    ensures SameLive(a, c)
  {
    hide Live;
  }

  lemma LiveEqual(mem: Words, mem': Words, a: seq<Block>, b: seq<Block>)
    requires LiveSame(mem, mem', a) && (SameLive(a, b) || SameLive(b, a))
    ensures LiveSame(mem, mem', b)
  {
    hide Live, LiveSame;
    LiveFewer(mem, mem', a, b);
  }

  lemma JoinNextIs(list: seq<Block>, i: nat)
    requires i < |list|
    ensures JoinNext(list, i) == if i + 1 < |list| && list[i + 1].free then Joined(list, i) else list
  {
    hide Joined;
  }

  lemma JoinPrevIs(list: seq<Block>, i: nat)
    requires i < |list|
    ensures JoinPrev(list, i) == if i > 0 && list[i - 1].free then Joined(list, i - 1) else list
  {
    hide Joined;
  }

  /** Merging the next block in leaves block `i` in place, free. */
  lemma JoinNextKeeps(list: seq<Block>, i: nat)
    requires i < |list| && list[i].free
    ensures i < |JoinNext(list, i)| && Addr(JoinNext(list, i), i) == Addr(list, i) && JoinNext(list, i)[i].free
  {
    var r := JoinNext(list, i);
    assert r[..i] == list[..i];
    AddrPrefix(list, r, i);
  }

  lemma LiveIndex(list: seq<Block>, p: nat, size: nat) returns (i: nat)
    requires Live(list, p, size)
    ensures i < |list| && !list[i].free && p == Addr(list, i) + 48 && list != [] && HEAP_BASE + 48 <= p
  {
    i :| LiveAt(list, i, p, size);
  }

  lemma FreeSteps(list: seq<Block>, i: nat)
    requires i < |list|
    ensures var m := Marked(list, i, true);
            |m| == |list| && m[i].free && Addr(m, i) == Addr(list, i) && Free(list, i) == JoinPrev(JoinNext(m, i), i)
  {
    MarkedAddr(list, i, true, i);
  }

  lemma FlagKeys(mem: Words, a: nat, end: nat)
    requires Mapped(mem, end) && a + 8 in mem
    ensures Mapped(mem[a + 8 := 1], end)
  {
    hide Mapped;
    assert mem[a + 8 := 1].Keys == mem.Keys;
    SameKeys(mem, mem[a + 8 := 1], end);
  }

  lemma MarkLinks(mem: Words, list: seq<Block>, i: nat, head: nat, tail: nat, next: nat, mapped: nat)
    requires i < |list| && SizesOk(list) && Represents(mem, Marked(list, i, true)) && Mapped(mem, mapped)
    requires head == HEAP_BASE && tail == Addr(list, |list| - 1) && next == Addr(list, |list|)
    requires next <= HEAP_BASE + HEAP_SIZE && next <= mapped
    ensures LinksOk(mem, Marked(list, i, true), head, tail, next, mapped)
  {
    hide Represents, Mapped, Addr;
    MarkedAddr(list, i, true, |list|);
    MarkedAddr(list, i, true, |list| - 1);
    LinksIs(mem, Marked(list, i, true), head, tail, next, mapped);
  }

  lemma MarkFewer(list: seq<Block>, i: nat)
    requires SizesOk(list) && i < |list| && !list[i].free
    ensures forall p: nat, size: nat :: Live(Marked(list, i, true), p, size) ==> Live(list, p, size)
  {
    hide Live;
    forall p: nat, size: nat ensures Live(Marked(list, i, true), p, size) ==> Live(list, p, size) {
      MarkLive(list, i, true, p, size);
    }
  }

  lemma ReleasedIs(list: seq<Block>, i: nat, list': seq<Block>)
    requires SizesOk(list) && i < |list| && !list[i].free && list' == Free(list, i)
    ensures Released(list, list', Addr(list, i) + 48)
  {
    hide Live, Free;
    forall q: nat, y: nat ensures Live(list', q, y) <==> Live(list, q, y) && q != Addr(list, i) + 48 {
      FreeLive(list, i, q, y);
    }
  }

  /** What a caller gets: an aligned payload of at least `size` bytes, apart from every live one; nothing else became
      live. */
  ghost predicate NewPointer(list: seq<Block>, list': seq<Block>, p: nat, size: nat) {
    && p % 16 == 0 && HEAP_BASE <= p
    && exists z: nat ::
         && size <= z < AlignUp16(size) + 64 && Live(list', p, z)
         && (forall q: nat, y: nat :: Live(list, q, y) ==> Live(list', q, y) && (q + y <= p || p + z <= q))
         && (forall q: nat, y: nat :: Live(list', q, y) ==> Live(list, q, y) || (q == p && y == z))
  }

  lemma CutSpace(mem: Words, list: seq<Block>, i: nat, size: nat, mapped: nat)
    requires SizesOk(list) && Represents(mem, list) && i < |list| && size + 64 <= list[i].size
    requires Addr(list, |list|) <= mapped
    ensures Addr(list, i) % 16 == 0 && Addr(list, i) + 48 + size + 48 <= mapped && HEAP_BASE <= Addr(list, i)
    ensures NextOf(list, i) != 0 <==> i + 1 < |list|
    ensures NextOf(list, i) != 0 ==> NextOf(list, i) + 24 in mem
  {
    hide *;
    AddrAligned(list, i);
    AddrOrder(list, i, |list|);
    NextIs(list, i);
    if i + 1 < |list| {
      RepresentsAt(mem, list, i + 1);
      AddrBase(list, i + 1);
      HeaderReads(mem, Addr(list, i + 1), list[i + 1], PrevOf(list, i + 1), NextOf(list, i + 1));
    }
  }

  // ---------- steps of an allocation ----------

  lemma NotLiveBefore(list: seq<Block>, n: nat, y: nat)
    requires SizesOk(list) && n > 0 && n % 16 == 0
    ensures !Live(list, Addr(Malloc(list, n), MallocIndex(list, n)) + 48, y)
  {
    var r, i := Malloc(list, n), MallocIndex(list, n);
    var p := Addr(r, i) + 48;
    if FirstFit(list, n, 0).Some? { CarvedLive(list, i, n, p, y); } else { AppendLive(list, n, p, y); }
    assert Addr(r, i) == Addr(list, i);
    hide Addr;
    forall k: nat ensures !LiveAt(list, k, p, y) {
      if k <= |list| { AddrDistinct(list, k, i); }
    }
  }

  lemma MallocPointer(list: seq<Block>, size: nat)
    requires ListOk(list) && size > 0
    ensures var n := AlignUp16(size);
            NewPointer(list, Malloc(list, n), Addr(Malloc(list, n), MallocIndex(list, n)) + 48, size)
  {
    var n := AlignUp16(size);
    var r, i := Malloc(list, n), MallocIndex(list, n);
    var p := Addr(r, i) + 48;
    MallocOk(list, n);
    hide *;
    ListSizes(list);
    ListSizes(r);
    MallocLive(list, n, p, 0);
    var z := r[i].size;
    MallocLive(list, n, p, z);
    LiveApart(r, p, z, p, z);
    forall q: nat, y: nat | Live(list, q, y) ensures Live(r, q, y) && (q + y <= p || p + z <= q) {
      MallocLive(list, n, q, y);
      LiveApart(r, p, z, q, y);
      if q == p { NotLiveBefore(list, n, y); }
    }
    forall q: nat, y: nat | Live(r, q, y) ensures Live(list, q, y) || (q == p && y == z) {
      MallocLive(list, n, q, y);
    }
    NewPointerIs(list, r, p, size, z);
  }

  lemma ListSizes(list: seq<Block>)
    requires ListOk(list)
    ensures SizesOk(list)
  {
  }

  lemma NewPointerIs(list: seq<Block>, list': seq<Block>, p: nat, size: nat, z: nat)
    requires p % 16 == 0 && HEAP_BASE <= p && size <= z < AlignUp16(size) + 64 && Live(list', p, z)
    requires forall q: nat, y: nat :: Live(list, q, y) ==> Live(list', q, y) && (q + y <= p || p + z <= q)
    requires forall q: nat, y: nat :: Live(list', q, y) ==> Live(list, q, y) || (q == p && y == z)
    ensures NewPointer(list, list', p, size)
  {
    hide Live;
  }

  lemma StartIs(list: seq<Block>)
    ensures Addr(list, 0) == HEAP_BASE && HEAP_BASE > 0
  {
  }

  lemma FitStep(list: seq<Block>, n: nat, i: nat)
    requires i < |list|
    ensures FirstFit(list, n, i) == if list[i].free && list[i].size >= n then Some(i) else FirstFit(list, n, i + 1)
  {
  }

  lemma CarvedIs(list: seq<Block>, n: nat, i: nat)
    requires FirstFit(list, n, 0) == Some(i)
    ensures i < |list| && n <= list[i].size && i < |Split(list, i, n)|
    ensures Malloc(list, n) == Marked(Split(list, i, n), i, false)
    ensures MallocIndex(list, n) == i && |Malloc(list, n)| == |Split(list, i, n)|
  {
    hide Split, FirstFit;
    SplitIs(list, i, n);
  }

  lemma SplitAddr(list: seq<Block>, i: nat, n: nat)
    requires i < |list| && n <= list[i].size
    ensures i < |Split(list, i, n)| && Addr(Split(list, i, n), i) == Addr(list, i)
  {
    SplitIs(list, i, n);
    var parts := Split(list, i, n);
    assert parts[..i] == list[..i];
    AddrPrefix(list, parts, i);
  }

  lemma FlagKey(mem0: Words, mem: Words, a: nat, end: nat)
    requires Mapped(mem0, end) && mem.Keys == mem0.Keys && a + 8 in mem0
    ensures Mapped(mem[a + 8 := 0], end)
  {
    hide Mapped;
    assert mem[a + 8 := 0].Keys == mem0.Keys;
    SameKeys(mem0, mem[a + 8 := 0], end);
  }

  lemma FlagIs()
    ensures Flag(false) == 0 && Flag(true) == 1
  {
  }

  lemma FitEnd(list: seq<Block>, n: nat)
    requires FirstFit(list, n, 0) == FirstFit(list, n, |list|)
    ensures FirstFit(list, n, 0) == None
  {
  }

  lemma AppendIs(list: seq<Block>, n: nat)
    requires FirstFit(list, n, 0).None?
    ensures Malloc(list, n) == list + [Block(n, false)] && MallocIndex(list, n) == |list|
  {
  }

  lemma AlignedNext(list: seq<Block>)
    requires SizesOk(list)
    ensures Addr(list, |list|) % 16 == 0
  {
    AddrAligned(list, |list|);
  }

  lemma ExtendedSame(mem: Words, mem': Words, list: seq<Block>)
    requires forall w: nat :: w in mem ==> w in mem' && mem'[w] == mem[w]
    ensures LiveSame(mem, mem', list)
  {
    hide NotLive;
  }

  lemma AppendMemIs(mem: Words, a: nat, size: nat, tail: nat)
    ensures var m := PutHeader(mem, a, Block(size, false), tail, 0);
            AppendMem(mem, a, size, tail) == if tail != 0 then m[tail + 32 := a] else m
  {
    hide PutHeader;
  }

  lemma AppendKeys(mem: Words, list: seq<Block>, n: nat, end: nat)
    requires Mapped(mem, end) && SizesOk(list) && Represents(mem, list) && Addr(list, |list|) + 48 + n <= end
    ensures var tail := if list == [] then 0 else Addr(list, |list| - 1);
            AppendMem(mem, Addr(list, |list|), n, tail).Keys == mem.Keys && (tail != 0 <==> list != [])
  {
    hide *;
    AddrAligned(list, |list|);
    var a := Addr(list, |list|);
    var tail := if list == [] then 0 else Addr(list, |list| - 1);
    if list != [] {
      var last := |list| - 1;
      RepresentsAt(mem, list, last);
      HeaderReads(mem, tail, list[last], PrevOf(list, last), NextOf(list, last));
      AddrBase(list, last);
    }
    BaseBelow(list);
    MappedAt(mem, end, a);
    PutHeaderSameKeys(mem, a, Block(n, false), tail, 0);
    AppendMemIs(mem, a, n, tail);
  }

  lemma PutHeaderSameKeys(mem: Words, a: nat, b: Block, prev: nat, next: nat)
    requires a in mem && a + 8 in mem && a + 16 in mem && a + 24 in mem && a + 32 in mem
    ensures PutHeader(mem, a, b, prev, next).Keys == mem.Keys
  {
  }

  lemma MappedAt(mem: Words, end: nat, a: nat)
    requires Mapped(mem, end) && HEAP_BASE <= a && a % 16 == 0 && a + 48 <= end
    ensures a in mem && a + 8 in mem && a + 16 in mem && a + 24 in mem && a + 32 in mem
  {
  }

  lemma AppendEnds(list: seq<Block>, n: nat)
    ensures var r := list + [Block(n, false)];
            |r| == |list| + 1 && Addr(r, |list|) == Addr(list, |list|) && Addr(r, |r|) == Addr(list, |list|) + 48 + n
            && (list == [] ==> Addr(list, |list|) == HEAP_BASE)
  {
    AppendAddr(list, Block(n, false), |list|);
  }
}
