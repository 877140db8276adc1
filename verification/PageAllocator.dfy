/** The physical page allocator: a bitmap of used pages, a moving hint and a count of free pages. */
module PageAllocators {
  import opened Bytes
  import opened Options

  // ---------- bits of the bitmap ----------

  function Shift(k: bv8): (m: bv64)
    requires k < 64
  {
    (1 as bv64) << k
  }

  function Bit64(k: nat): (m: bv64)
    requires k < 64
  {
    SmallByte(ByteOf(k));
    Shift(ByteOf(k))
  }

  function AndMask(w: bv64, m: bv64): bv64 {
    w & m
  }

  predicate HasMask(w: bv64, m: bv64) {
    AndMask(w, m) != 0
  }

  function OrMask(w: bv64, m: bv64): bv64 {
    w | m
  }

  function AndNotMask(w: bv64, m: bv64): bv64 {
    w & !m
  }

  predicate TestBit(w: bv64, k: nat)
    requires k < 64
  {
    HasMask(w, Bit64(k))
  }

  lemma SmallByte(b: Byte)
    ensures b as int < 64 ==> b < 64
  {
  }

  lemma ShiftsApart(a: bv8, b: bv8)
    requires a < 64 && b < 64
    ensures a != b ==> !HasMask(Shift(a), Shift(b))
    ensures HasMask(Shift(a), Shift(a))
  {
    RawShifts(a, b);
    hide Shift;
  }

  lemma RawShifts(a: bv8, b: bv8)
    requires a < 64 && b < 64
    ensures a != b ==> ((1 as bv64) << a) & ((1 as bv64) << b) == 0
    ensures ((1 as bv64) << a) & ((1 as bv64) << a) != 0
  {
  }

  lemma BitsApart(k: nat, j: nat)
    requires k < 64 && j < 64
    ensures k != j ==> !HasMask(Bit64(k), Bit64(j))
    ensures HasMask(Bit64(k), Bit64(k))
  {
    hide Shift, HasMask;
    SmallByte(ByteOf(k));
    SmallByte(ByteOf(j));
    ShiftsApart(ByteOf(k), ByteOf(j));
  }

  lemma OtherMask(w: bv64, a: bv64, b: bv64)
    requires !HasMask(a, b)
    ensures HasMask(OrMask(w, a), b) == HasMask(w, b) && HasMask(AndNotMask(w, a), b) == HasMask(w, b)
  {
    hide AndMask, OrMask, AndNotMask;
    OtherOr(w, a, b);
    OtherAndNot(w, a, b);
  }

  lemma OtherOr(w: bv64, a: bv64, b: bv64)
    requires AndMask(a, b) == 0
    ensures AndMask(OrMask(w, a), b) == AndMask(w, b)
  {
    RawOr(w, a, b);
  }

  lemma OtherAndNot(w: bv64, a: bv64, b: bv64)
    requires AndMask(a, b) == 0
    ensures AndMask(AndNotMask(w, a), b) == AndMask(w, b)
  {
    RawAndNot(w, a, b);
  }

  lemma RawOr(w: bv64, a: bv64, b: bv64)
    requires a & b == 0
    ensures (w | a) & b == w & b
  {
  }

  lemma RawAndNot(w: bv64, a: bv64, b: bv64)
    requires a & b == 0
    ensures (w & !a) & b == w & b
  {
  }

  lemma SameMask(w: bv64, a: bv64)
    requires HasMask(a, a)
    ensures HasMask(OrMask(w, a), a) && !HasMask(AndNotMask(w, a), a)
  {
  }

  function WithBit(w: bv64, k: nat): bv64
    requires k < 64
  {
    OrMask(w, Bit64(k))
  }

  function WithoutBit(w: bv64, k: nat): bv64
    requires k < 64
  {
    AndNotMask(w, Bit64(k))
  }

  lemma SetBit(w: bv64, k: nat, j: nat)
    requires k < 64 && j < 64
    ensures TestBit(WithBit(w, k), j) == (j == k || TestBit(w, j))
    ensures TestBit(WithoutBit(w, k), j) == (j != k && TestBit(w, j))
  {
    hide HasMask, OrMask, AndNotMask, Bit64;
    BitsApart(k, j);
    if k == j { SameMask(w, Bit64(k)); } else { OtherMask(w, Bit64(k), Bit64(j)); }
  }

  lemma FullWord(j: nat)
    requires j < 64
    ensures TestBit(0xffff_ffff_ffff_ffff, j)
  {
    hide HasMask, Bit64;
    BitsApart(j, j);
    AllOnes(Bit64(j));
  }

  lemma AllOnes(a: bv64)
    requires HasMask(a, a)
    ensures HasMask(0xffff_ffff_ffff_ffff, a)
  {
  }

  /** Page `p` is marked as used. */
  predicate Used(words: seq<bv64>, p: nat)
    requires p < 64 * |words|
  {
    TestBit(words[p / 64], p % 64)
  }

  /** The pages whose bit is clear. */
  function Clear(words: seq<bv64>): (s: set<nat>)
    ensures forall p :: p in s <==> 0 <= p < 64 * |words| && !Used(words, p)
  {
    set p: nat | p < 64 * |words| && !Used(words, p)
  }

  function Marked(words: seq<bv64>, p: nat): (r: seq<bv64>)
    requires p < 64 * |words|
    ensures |r| == |words|
  {
    words[p / 64 := WithBit(words[p / 64], p % 64)]
  }

  function Unmarked(words: seq<bv64>, p: nat): (r: seq<bv64>)
    requires p < 64 * |words|
    ensures |r| == |words|
  {
    words[p / 64 := WithoutBit(words[p / 64], p % 64)]
  }

  lemma MarkReads(words: seq<bv64>, p: nat, q: nat)
    requires p < 64 * |words| && q < 64 * |words|
    ensures Used(Marked(words, p), q) == (q == p || Used(words, q))
    ensures Used(Unmarked(words, p), q) == (q != p && Used(words, q))
  {
    hide TestBit, Bit64, WithBit, WithoutBit;
    var i, k, j, l := p / 64, p % 64, q / 64, q % 64;
    assert p == i * 64 + k && q == j * 64 + l;
    SetBit(words[i], k, l);
  }

  lemma MarkedIs(words: seq<bv64>, p: nat)
    requires p < 64 * |words|
    ensures Marked(words, p) == words[p / 64 := WithBit(words[p / 64], p % 64)]
    ensures Unmarked(words, p) == words[p / 64 := WithoutBit(words[p / 64], p % 64)]
  {
    hide WithBit, WithoutBit;
  }

  lemma MarkedSet(words: seq<bv64>, p: nat)
    requires p < 64 * |words|
    ensures Clear(Marked(words, p)) == Clear(words) - {p}
    ensures Clear(Unmarked(words, p)) == Clear(words) + {p}
  {
    hide Used, Marked, Unmarked;
    forall q: nat | q < 64 * |words|
      ensures Used(Marked(words, p), q) == (q == p || Used(words, q))
      ensures Used(Unmarked(words, p), q) == (q != p && Used(words, q))
    {
      MarkReads(words, p, q);
    }
  }

  // ---------- runs of free pages ----------

  /** Every page of `[start, start + count)` is in `free`. */
  ghost predicate RunFree(free: set<nat>, start: nat, count: nat) {
    forall p :: start <= p < start + count ==> p in free
  }

  /** A run of one page is a page. */
  lemma OnePage(free: set<nat>, lo: nat, hi: nat, p: nat)
    ensures lo <= p < hi && p in free && (forall q :: lo <= q < p ==> q !in free) ==> LowestRun(free, lo, hi, 1, p)
    ensures (forall q :: lo <= q < hi ==> q !in free) ==> NoRun(free, lo, hi, 1)
  {
    forall s: nat ensures RunFree(free, s, 1) <==> s in free {}
  }

  /** `start` is the lowest free run of `count` pages within `[lo, hi)`. */
  ghost predicate LowestRun(free: set<nat>, lo: nat, hi: nat, count: nat, start: nat) {
    && lo <= start && start + count <= hi && RunFree(free, start, count)
    && forall s: nat :: lo <= s < start ==> !RunFree(free, s, count)
  }

  ghost predicate NoRun(free: set<nat>, lo: nat, hi: nat, count: nat) {
    forall s: nat :: lo <= s && s + count <= hi ==> !RunFree(free, s, count)
  }

  function Pages(start: nat, count: nat): (s: set<nat>)
    ensures forall p :: p in s <==> start <= p < start + count
    ensures |s| == count
  {
    if count == 0 then {} else Pages(start, count - 1) + {start + count - 1}
  }

  lemma PagesNone(free: set<nat>, start: nat)
    ensures free - Pages(start, 0) == free
  {
  }

  lemma PagesGrow(free: set<nat>, start: nat, i: nat, count: nat)
    requires i < count && RunFree(free, start, count)
    ensures start + i in free - Pages(start, i) && free - Pages(start, i) - {start + i} == free - Pages(start, i + 1)
    ensures |free - Pages(start, i) - {start + i}| == |free - Pages(start, i)| - 1
  {
  }

  lemma RunWithin(free: set<nat>, start: nat, count: nat)
    requires RunFree(free, start, count)
    ensures Pages(start, count) <= free
  {
  }

  /** A used page rules out every run that contains it, so the search may go on right after it. */
  lemma SkipAhead(free: set<nat>, start: nat, i: nat, count: nat)
    requires i < count && start + i !in free
    ensures forall s: nat :: start <= s <= start + i ==> !RunFree(free, s, count)
  {
  }

  // ---------- the memory map ----------

  datatype Region = Region(base: nat, length: nat, usable: bool)

  /** The page number of the first page boundary at or after `x`, and of the last one at or before it. */
  function PageUp(x: nat): (p: nat)
    ensures x <= p * 4096 < x + 4096
  {
    (x + 4095) / 4096
  }

  function PageDown(x: nat): (p: nat)
    ensures p * 4096 <= x < (p + 1) * 4096
  {
    x / 4096
  }

  /** Page `p` lies wholly inside region `r`. */
  predicate Inside(r: Region, p: nat) {
    r.base <= p * 4096 && (p + 1) * 4096 <= r.base + r.length
  }

  /** The pages below `limit` that lie wholly inside a region. */
  function WholePages(r: Region, limit: nat): (s: set<nat>)
    ensures forall p: nat :: p in s <==> p < limit && Inside(r, p)
  {
    set p: nat | p < limit && Inside(r, p)
  }

  /** The pages below `limit` that lie wholly inside one of the first `n` usable regions. */
  function UsablePages(map_: seq<Region>, n: nat, limit: nat): (s: set<nat>)
    requires n <= |map_|
  {
    if n == 0 then {}
    else
      UsablePages(map_, n - 1, limit)
      + (if map_[n - 1].usable then WholePages(map_[n - 1], limit) else {})
  }

  function Min(a: nat, b: nat): nat {
    if a < b then a else b
  }

  /** One past the last page any of the first `n` regions touches, at most `limit`. */
  function PageEnd(map_: seq<Region>, n: nat, limit: nat): (e: nat)
    requires n <= |map_|
    ensures e <= limit
  {
    if n == 0 then 0
    else
      var e := PageEnd(map_, n - 1, limit);
      var t := PageUp(map_[n - 1].base + map_[n - 1].length);
      if t > e then Min(t, limit) else e
  }

  lemma PageEndStep(map_: seq<Region>, n: nat, limit: nat)
    requires n < |map_|
    ensures var e, t := PageEnd(map_, n, limit), PageUp(map_[n].base + map_[n].length);
            PageEnd(map_, n + 1, limit) == if t > e then (if t < limit then t else limit) else e
  {
    hide PageUp;
  }

  lemma UsableStep(map_: seq<Region>, n: nat, limit: nat)
    requires n < |map_|
    ensures UsablePages(map_, n + 1, limit)
         == UsablePages(map_, n, limit) + if map_[n].usable then WholePages(map_[n], limit) else {}
  {
    hide WholePages;
  }

  /** The end is that of the region that reaches furthest, cut at the limit. */
  lemma {:induction false} PageEndIs(map_: seq<Region>, n: nat, limit: nat)
    requires n <= |map_|
    ensures forall i :: 0 <= i < n ==> Min(PageUp(map_[i].base + map_[i].length), limit) <= PageEnd(map_, n, limit)
    ensures PageEnd(map_, n, limit) == 0
            || exists i :: 0 <= i < n && PageEnd(map_, n, limit) == Min(PageUp(map_[i].base + map_[i].length), limit)
  {
    if n > 0 {
      hide PageUp;
      PageEndIs(map_, n - 1, limit);
      var t := PageUp(map_[n - 1].base + map_[n - 1].length);
      if t <= PageEnd(map_, n - 1, limit) && PageEnd(map_, n, limit) != 0 {
        var i :| 0 <= i < n - 1 && PageEnd(map_, n - 1, limit) == Min(PageUp(map_[i].base + map_[i].length), limit);
      }
    }
  }

  /** A page is usable exactly when it lies wholly inside a usable region, below the limit. */
  lemma {:induction false} UsableIs(map_: seq<Region>, n: nat, limit: nat, p: nat)
    requires n <= |map_|
    ensures p in UsablePages(map_, n, limit) <==> p < limit && exists i ::
              0 <= i < n && map_[i].usable && Inside(map_[i], p)
  {
    if n > 0 {
      hide Inside;
      UsableIs(map_, n - 1, limit, p);
    }
  }

  lemma {:induction false} UsableBelowEnd(map_: seq<Region>, n: nat, limit: nat)
    requires n <= |map_|
    ensures forall p: nat :: p in UsablePages(map_, n, limit) ==> p < PageEnd(map_, n, limit)
  {
    if n > 0 {
      UsableBelowEnd(map_, n - 1, limit);
      var last := map_[n - 1];
      forall p: nat | p < limit && Inside(last, p) ensures p < PageEnd(map_, n, limit) {
        assert p < PageUp(last.base + last.length);
      }
    }
  }

  /** The pages of `[lo, hi)` below `limit`. */
  function Between(lo: nat, hi: nat, limit: nat): (s: set<nat>)
    ensures forall p: nat :: p in s <==> lo <= p < hi && p < limit
  {
    set p: nat | p < limit && Within(lo, hi, p)
  }

  predicate Within(lo: nat, hi: nat, p: nat) {
    lo <= p < hi
  }

  /** The free pages once those of `[lo, hi)` joined. */
  function Joined(before: set<nat>, lo: nat, hi: nat, limit: nat): (s: set<nat>) {
    before + Between(lo, hi, limit)
  }

  lemma JoinNone(before: set<nat>, lo: nat, limit: nat)
    ensures Joined(before, lo, lo, limit) == before
  {
  }

  lemma JoinStep(before: set<nat>, lo: nat, hi: nat, limit: nat)
    requires lo <= hi
    ensures var s := Joined(before, lo, hi, limit);
            && Joined(before, lo, hi + 1, limit) == (if hi < limit then s + {hi} else s)
            && |s + {hi}| == |s| + (if hi in s then 0 else 1)
  {
    var s := before + Between(lo, hi, limit);
    if hi in s { assert s + {hi} == s; }
  }

  lemma WholeIs(before: set<nat>, r: Region, limit: nat, end: nat)
    requires end == PageDown(r.base + r.length) || (PageDown(r.base + r.length) <= end == PageUp(r.base))
    ensures Joined(before, PageUp(r.base), end, limit) == before + WholePages(r, limit)
  {
    forall p: nat ensures Inside(r, p) <==> PageUp(r.base) <= p < end {
      InsideIs(r, p);
    }
  }

  lemma InsideIs(r: Region, p: nat)
    ensures Inside(r, p) <==> PageUp(r.base) <= p < PageDown(r.base + r.length)
  {
  }

  class PageAllocator {
    const bitmap: array<bv64>
    var maxIndex: nat
    var hint: nat
    var freeCount: nat

    ghost predicate Valid()
      reads this, bitmap
    {
      && hint <= maxIndex <= 64 * bitmap.Length
      && freeCount == |Free()|
      && forall p :: p in Free() ==> p < maxIndex
    }

    /** The free pages. */
    ghost function Free(): set<nat>
      reads bitmap
    {
      Clear(bitmap[..])
    }

    lemma CountIs()
      requires Valid()
      ensures freeCount == |Free()|
    {
      hide Free;
    }

    lemma FreeBelow()
      requires Valid()
      ensures forall p :: p in Free() ==> p < maxIndex
    {
      hide Free;
    }

    lemma FreeIs()
      ensures Free() == Clear(bitmap[..])
    {
      hide Clear;
    }

    method SetUsed(p: nat)
      requires p < 64 * bitmap.Length && (p in Free() ==> freeCount > 0)
      modifies this`freeCount, bitmap
      ensures Free() == old(Free()) - {p}
      ensures freeCount == old(freeCount) - (if p in old(Free()) then 1 else 0)
    {
      hide *;
      ghost var before := bitmap[..];
      FreeIs();
      var i := p / 64;
      var used := Test(p);
      if !used {
        freeCount := freeCount - 1;
      }
      bitmap[i] := WithBit(bitmap[i], p % 64);
      assert bitmap[..] == before[i := WithBit(before[i], p % 64)];
      MarkedIs(before, p);
      MarkedSet(before, p);
      FreeIs();
    }

    method SetFree(p: nat)
      requires p < 64 * bitmap.Length
      modifies this`freeCount, bitmap
      ensures Free() == old(Free()) + {p}
      ensures freeCount == old(freeCount) + (if p in old(Free()) then 0 else 1)
    {
      hide *;
      ghost var before := bitmap[..];
      FreeIs();
      var i := p / 64;
      var used := Test(p);
      if used {
        freeCount := freeCount + 1;
      }
      bitmap[i] := WithoutBit(bitmap[i], p % 64);
      assert bitmap[..] == before[i := WithoutBit(before[i], p % 64)];
      MarkedIs(before, p);
      MarkedSet(before, p);
      FreeIs();
    }

    /** The page after a region's used bits: whether page `p` is used. */
    method Test(p: nat) returns (used: bool)
      requires p < 64 * bitmap.Length
      ensures used == (p !in Free())
    {
      hide TestBit;
      used := TestBit(bitmap[p / 64], p % 64);
    }

    /** Takes the lowest free page at or above the hint, else the lowest one below it; fails exactly without one. */
    method AllocPage() returns (page: Option<nat>)
      requires Valid()
      modifies this, bitmap
      ensures Valid() && maxIndex == old(maxIndex)
      ensures page.None? <==> old(Free()) == {}
      ensures page.Some? ==>
                page.value in old(Free()) && Free() == old(Free()) - {page.value} && freeCount == old(freeCount) - 1
      ensures page.Some? ==>
                || LowestRun(old(Free()), old(hint), maxIndex, 1, page.value)
                || (NoRun(old(Free()), old(hint), maxIndex, 1) && LowestRun(old(Free()), 0, old(hint), 1, page.value))
      ensures hint == if page.Some? then page.value + 1 else old(hint)
      ensures page.None? ==> Free() == old(Free())
    {
      var found := FindFree(hint, maxIndex);
      if found.None? {
        found := FindFree(0, hint);
      }
      if found.Some? {
        ghost var free := Free();
        OnePage(free, hint, maxIndex, found.value);
        OnePage(free, 0, hint, found.value);
        SetUsed(found.value);
        assert |free - {found.value}| == |free| - 1;
        hint := found.value + 1;
      }
      page := found;
    }

    /** The lowest free page within `[lo, hi)`. */
    method FindFree(lo: nat, hi: nat) returns (page: Option<nat>)
      requires hi <= 64 * bitmap.Length
      ensures page.None? ==> forall p :: lo <= p < hi ==> p !in Free()
      ensures page.Some? ==> lo <= page.value < hi && page.value in Free()
      ensures page.Some? ==> forall q :: lo <= q < page.value ==> q !in Free()
    {
      var p := lo;
      while p < hi
        invariant lo <= p
        invariant forall q :: lo <= q < p && q < hi ==> q !in Free()
      {
        var used := Test(p);
        if !used {
          return Some(p);
        }
        p := p + 1;
      }
      page := None;
    }

    /** How many pages from `start` on are free, up to `count`. */
    method CountFree(start: nat, count: nat) returns (i: nat)
      requires start + count <= 64 * bitmap.Length
      ensures i <= count && RunFree(Free(), start, i) && (i < count ==> start + i !in Free())
    {
      hide Free;
      i := 0;
      while i < count
        invariant i <= count && RunFree(Free(), start, i)
      {
        var used := Test(start + i);
        if used {
          return;
        }
        i := i + 1;
      }
    }

    /** The lowest free run within `[lo, hi)`, skipping past each used page it meets. */
    method FindRun(lo: nat, hi: nat, count: nat) returns (start: Option<nat>)
      requires hi <= 64 * bitmap.Length && count > 0
      ensures start.None? ==> NoRun(Free(), lo, hi, count)
      ensures start.Some? ==> LowestRun(Free(), lo, hi, count, start.value)
    {
      var s := lo;
      while s + count <= hi
        invariant lo <= s
        invariant forall t: nat :: lo <= t < s ==> !RunFree(Free(), t, count)
        decreases hi - s
      {
        var i := CountFree(s, count);
        if i == count {
          return Some(s);
        }
        SkipAhead(Free(), s, i, count);
        s := s + i + 1;
      }
      start := None;
    }

    /** Marks `count` free pages from `start` on as used. */
    method TakeRun(start: nat, count: nat)
      requires start + count <= 64 * bitmap.Length && freeCount == |Free()| && RunFree(Free(), start, count)
      modifies this`freeCount, bitmap
      ensures Free() == old(Free()) - Pages(start, count) && freeCount == |Free()| == old(freeCount) - count
    {
      hide *;
      ghost var free := Free();
      PagesNone(free, start);
      for i := 0 to count
        invariant freeCount == |Free()| && freeCount == old(freeCount) - i
        invariant Free() == free - Pages(start, i)
      {
        PagesGrow(free, start, i, count);
        SetUsed(start + i);
      }
    }

    /** Takes the lowest free run at or above the hint, else the lowest one wholly below it. */
    method AllocContiguous(count: nat) returns (start: Option<nat>)
      requires Valid()
      modifies this, bitmap
      ensures Valid() && maxIndex == old(maxIndex)
      ensures count == 0 ==> start == Some(0) && Free() == old(Free()) && hint == old(hint)
      ensures count > 0 ==>
                (start.None? <==>
                   NoRun(old(Free()), old(hint), maxIndex, count) && NoRun(old(Free()), 0, old(hint), count))
      ensures start.None? ==> Free() == old(Free())
      ensures count > 0 && start.Some? ==>
                && Free() == old(Free()) - Pages(start.value, count) && Pages(start.value, count) <= old(Free())
                && freeCount == old(freeCount) - count
                && (LowestRun(old(Free()), old(hint), maxIndex, count, start.value)
                    || (NoRun(old(Free()), old(hint), maxIndex, count)
                        && LowestRun(old(Free()), 0, old(hint), count, start.value)))
      ensures hint == if count > 0 && start.Some? then start.value + count else old(hint)
    {
      hide RunFree, Pages, Free;
      if count == 0 {
        return Some(0);
      }
      start := FindRun(hint, maxIndex, count);
      if start.None? {
        start := FindRun(0, hint, count);
      }
      if start.Some? {
        RunWithin(Free(), start.value, count);
        TakeRun(start.value, count);
        hint := start.value + count;
      }
    }

    /** Frees the page at a physical address; an unaligned or out-of-range address is refused. */
    method FreePage(phys: nat) returns (ok: bool)
      requires Valid()
      modifies this, bitmap
      ensures Valid() && maxIndex == old(maxIndex)
      ensures ok == (phys % 4096 == 0 && phys / 4096 < maxIndex)
      ensures ok ==> Free() == old(Free()) + {phys / 4096}
                     && freeCount == old(freeCount) + (if phys / 4096 in old(Free()) then 0 else 1)
      ensures !ok ==> Free() == old(Free()) && freeCount == old(freeCount)
      ensures hint == if ok && phys / 4096 < old(hint) then phys / 4096 else old(hint)
    {
      if phys % 4096 != 0 {
        return false;
      }
      var page := phys / 4096;
      if page >= maxIndex {
        return false;
      }
      ghost var free := Free();
      SetFree(page);
      assert page in free ==> free + {page} == free;
      if page < hint {
        hint := page;
      }
      ok := true;
    }

    /** Marks the pages that lie wholly inside a region as free. */
    method MarkRangeFree(r: Region)
      requires freeCount == |Free()|
      modifies this`freeCount, bitmap
      ensures freeCount == |Free()|
      ensures Free() == old(Free()) + WholePages(r, 64 * bitmap.Length)
    {
      hide *;
      ghost var before := Free();
      ghost var first, limit := PageUp(r.base), 64 * bitmap.Length;
      var page, end := PageUp(r.base), PageDown(r.base + r.length);
      JoinNone(before, first, limit);
      while page < end
        invariant first <= page && freeCount == |Free()| && Free() == Joined(before, first, page, limit)
        invariant page <= end || page == first
      {
        JoinStep(before, first, page, limit);
        if page < 64 * bitmap.Length {
          SetFree(page);
        }
        page := page + 1;
      }
      WholeIs(before, r, limit, page);
    }

    /** Builds the bitmap from the boot loader's memory map. */
    constructor (words: nat, map_: seq<Region>)
      ensures Valid() && fresh(bitmap) && bitmap.Length == words && hint == 0
      ensures maxIndex == PageEnd(map_, |map_|, 64 * words)
      ensures Free() == UsablePages(map_, |map_|, 64 * words)
    {
      bitmap := new bv64[words](_ => 0xffff_ffff_ffff_ffff);
      maxIndex, hint, freeCount := 0, 0, 0;
      new;
      Scan(map_);
    }

    /** Reads the memory map, from an all-used bitmap. */
    method Scan(map_: seq<Region>)
      requires maxIndex == hint == freeCount == 0
      requires forall i :: 0 <= i < bitmap.Length ==> bitmap[i] == 0xffff_ffff_ffff_ffff
      modifies this, bitmap
      ensures Valid() && hint == 0
      ensures maxIndex == PageEnd(map_, |map_|, 64 * bitmap.Length)
      ensures Free() == UsablePages(map_, |map_|, 64 * bitmap.Length)
    {
      AllUsed(bitmap[..]);
      var limit := 64 * bitmap.Length;
      for i := 0 to |map_|
        invariant freeCount == |Free()| && hint == 0
        invariant maxIndex == PageEnd(map_, i, limit) && Free() == UsablePages(map_, i, limit)
      {
        hide *;
        PageEndStep(map_, i, limit);
        UsableStep(map_, i, limit);
        var pageEnd := PageUp(map_[i].base + map_[i].length);
        if pageEnd > maxIndex {
          maxIndex := pageEnd;
          if maxIndex > limit {
            maxIndex := limit;
          }
        }
        if map_[i].usable {
          MarkRangeFree(map_[i]);
        }
      }
      UsableBelowEnd(map_, |map_|, limit);
    }
  }

  lemma AllUsed(words: seq<bv64>)
    requires forall i :: 0 <= i < |words| ==> words[i] == 0xffff_ffff_ffff_ffff
    ensures Clear(words) == {}
  {
    hide TestBit;
    forall p: nat | p < 64 * |words| ensures Used(words, p) {
      FullWord(p % 64);
    }
  }
}
