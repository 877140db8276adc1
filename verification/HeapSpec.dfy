/** The kernel heap as a list of blocks that tile the heap region, and the list operations behind kmalloc and kfree. */
module HeapSpec {
  import opened Options

  const HEAP_BASE: nat := 0xffff_ffff_9000_0000
  const HEAP_SIZE: nat := 0x100_0000
  const HEAP_MAGIC: nat := 0x5448_4541_504d_454d

  datatype Block = Block(size: nat, free: bool)

  /** The address of block `i`: each block is a 48-byte header followed by its payload. */
  function Addr(list: seq<Block>, i: nat): (a: nat)
    requires i <= |list|
    ensures a >= HEAP_BASE
  {
    if i == 0 then HEAP_BASE else Addr(list, i - 1) + 48 + list[i - 1].size
  }

  ghost predicate SizesOk(list: seq<Block>) {
    forall i :: 0 <= i < |list| ==> list[i].size > 0 && list[i].size % 16 == 0
  }

  /** No two neighbours are both free. */
  ghost predicate Merged(list: seq<Block>) {
    forall i :: 0 <= i && i + 1 < |list| ==> !list[i].free || !list[i + 1].free
  }

  ghost predicate ListOk(list: seq<Block>) {
    SizesOk(list) && Merged(list)
  }

  // ---------- addresses ----------

  lemma {:induction false} AddrAligned(list: seq<Block>, i: nat)
    requires SizesOk(list) && i <= |list|
    ensures Addr(list, i) % 16 == 0
  {
    if i > 0 { AddrAligned(list, i - 1); }
  }

  /** Blocks lie one after the other. */
  lemma {:induction false} AddrOrder(list: seq<Block>, i: nat, j: nat)
    requires i < j <= |list|
    ensures Addr(list, i) + 48 + list[i].size <= Addr(list, j)
    decreases j - i
  {
    if i + 1 < j { AddrOrder(list, i, j - 1); }
  }

  lemma {:induction false} AddrPrefix(a: seq<Block>, b: seq<Block>, i: nat)
    requires i <= |a| && i <= |b| && a[..i] == b[..i]
    ensures Addr(a, i) == Addr(b, i)
  {
    if i > 0 {
      assert a[..i][..i - 1] == b[..i][..i - 1];
      assert a[..i][i - 1] == b[..i][i - 1];
      assert a[..i - 1] == a[..i][..i - 1] && b[..i - 1] == b[..i][..i - 1];
      AddrPrefix(a, b, i - 1);
    }
  }

  /** Equal suffixes that start at the same address have the same addresses throughout. */
  lemma {:induction false} AddrSuffix(a: seq<Block>, b: seq<Block>, i: nat, j: nat, n: nat)
    requires i + n <= |a| && j + n <= |b| && Addr(a, i) == Addr(b, j) && a[i..] == b[j..]
    ensures Addr(a, i + n) == Addr(b, j + n)
    decreases n
  {
    if n > 0 {
      AddrSuffix(a, b, i, j, n - 1);
      assert a[i + n - 1] == a[i..][n - 1] && b[j + n - 1] == b[j..][n - 1];
    }
  }

  // ---------- allocation ----------

  predicate Fitting(b: Block, n: nat) {
    b.free && b.size >= n
  }

  /** The first free block that is large enough. */
  function FirstFit(list: seq<Block>, n: nat, i: nat): (r: Option<nat>)
    requires i <= |list|
    ensures r.Some? ==> i <= r.value < |list| && Fitting(list[r.value], n) && forall k :: i <= k < r.value ==>
              !Fitting(list[k], n)
    ensures r.None? ==> forall k :: i <= k < |list| ==> !Fitting(list[k], n)
    decreases |list| - i
  {
    if i == |list| then None else if Fitting(list[i], n) then Some(i) else FirstFit(list, n, i + 1)
  }

  /** Block `i` cut down to `n` bytes, the rest a free block of its own when it has room for a header and 16 bytes. */
  function Split(list: seq<Block>, i: nat, n: nat): (r: seq<Block>)
    requires i < |list| && n <= list[i].size
  {
    if list[i].size < n + 64 then list
    else list[..i] + [Block(n, list[i].free), Block(list[i].size - n - 48, true)] + list[i + 1..]
  }

  function Marked(list: seq<Block>, i: nat, free: bool): (r: seq<Block>)
    requires i < |list|
  {
    list[i := list[i].(free := free)]
  }

  function Carved(list: seq<Block>, i: nat, n: nat): (r: seq<Block>)
    requires i < |list| && n <= list[i].size
    ensures i < |r|
  {
    Marked(Split(list, i, n), i, false)
  }

  /** The list after a request of `n` bytes, `n` a positive multiple of 16. */
  function Malloc(list: seq<Block>, n: nat): (r: seq<Block>) {
    match FirstFit(list, n, 0)
    case Some(i) => Carved(list, i, n)
    case None => list + [Block(n, false)]
  }

  /** Where the block for a request of `n` bytes ends up. */
  function MallocIndex(list: seq<Block>, n: nat): (i: nat)
    ensures i < |Malloc(list, n)|
  {
    match FirstFit(list, n, 0)
    case Some(i) => i
    case None => |list|
  }

  // ---------- release ----------

  /** Blocks `i` and `i + 1` as one. */
  function Joined(list: seq<Block>, i: nat): (r: seq<Block>)
    requires i + 1 < |list|
  {
    list[..i] + [Block(list[i].size + 48 + list[i + 1].size, list[i].free)] + list[i + 2..]
  }

  function JoinNext(list: seq<Block>, i: nat): (r: seq<Block>)
    requires i < |list|
    ensures i < |r|
  {
    if i + 1 < |list| && list[i + 1].free then Joined(list, i) else list
  }

  function JoinPrev(list: seq<Block>, i: nat): (r: seq<Block>)
    requires i < |list|
  {
    if i > 0 && list[i - 1].free then Joined(list, i - 1) else list
  }

  function Free(list: seq<Block>, i: nat): (r: seq<Block>)
    requires i < |list|
  {
    JoinPrev(JoinNext(Marked(list, i, true), i), i)
  }

  // ---------- live payloads ----------

  /** The payload of live block `i` starts at `p` and has `size` bytes. */
  predicate LiveAt(list: seq<Block>, i: nat, p: nat, size: nat) {
    i < |list| && !list[i].free && p == Addr(list, i) + 48 && size == list[i].size
  }

  ghost predicate Live(list: seq<Block>, p: nat, size: nat) {
    exists i: nat :: LiveAt(list, i, p, size)
  }

  /** Live payloads are aligned, and two of them are the same or disjoint. */
  lemma LiveApart(list: seq<Block>, p: nat, size: nat, q: nat, size': nat)
    requires SizesOk(list) && Live(list, p, size) && Live(list, q, size')
    ensures p % 16 == 0 && HEAP_BASE <= p && p + size <= Addr(list, |list|)
    ensures (p == q && size == size') || p + size <= q || q + size' <= p
  {
    var i: nat :| LiveAt(list, i, p, size);
    var j: nat :| LiveAt(list, j, q, size');
    AddrAligned(list, i);
    AddrOrder(list, i, |list|);
    if i < j { AddrOrder(list, i, j); }
    if j < i { AddrOrder(list, j, i); }
  }

  // ---------- splitting and joining ----------

  /** `whole` has one block where `parts` has two: block `i` there is blocks `i` and `i + 1` here. */
  ghost predicate Refined(whole: seq<Block>, parts: seq<Block>, i: nat) {
    && i < |whole| && |parts| == |whole| + 1 && whole[..i] == parts[..i] && whole[i + 1..] == parts[i + 2..]
    && whole[i].size == parts[i].size + 48 + parts[i + 1].size
  }

  lemma RefinedAddr(whole: seq<Block>, parts: seq<Block>, i: nat, k: nat)
    requires Refined(whole, parts, i) && k <= |whole|
    ensures k <= i ==> Addr(parts, k) == Addr(whole, k)
    ensures k > i ==> Addr(parts, k + 1) == Addr(whole, k) && (k < |whole| ==> parts[k + 1] == whole[k])
    ensures k < i ==> parts[k] == whole[k]
    ensures Addr(parts, i + 1) == Addr(whole, i) + 48 + parts[i].size
  {
    AddrPrefix(whole, parts, i);
    if k <= i {
      assert whole[..k] == whole[..i][..k] && parts[..k] == parts[..i][..k];
      AddrPrefix(whole, parts, k);
      if k < i { assert whole[k] == whole[..i][k] && parts[k] == parts[..i][k]; }
    } else {
      assert Addr(parts, i + 2) == Addr(whole, i + 1);
      AddrSuffix(whole, parts, i + 1, i + 2, k - i - 1);
      if k < |whole| { assert whole[k] == whole[i + 1..][k - i - 1] && parts[k + 1] == parts[i + 2..][k - i - 1]; }
    }
  }

  lemma SplitRefines(list: seq<Block>, i: nat, n: nat)
    requires i < |list| && n + 64 <= list[i].size
    ensures Refined(list, Split(list, i, n), i)
  {
    var r := Split(list, i, n);
    assert r[..i] == list[..i] && r[i + 2..] == list[i + 1..];
  }

  lemma JoinRefines(list: seq<Block>, i: nat)
    requires i + 1 < |list|
    ensures Refined(Joined(list, i), list, i)
  {
    var r := Joined(list, i);
    assert r[..i] == list[..i] && r[i + 1..] == list[i + 2..];
  }

  /** Marking a block changes no address. */
  lemma MarkedAddr(list: seq<Block>, i: nat, free: bool, k: nat)
    requires i < |list| && k <= |list|
    ensures Addr(Marked(list, i, free), k) == Addr(list, k)
    decreases k
  {
    if k > 0 { MarkedAddr(list, i, free, k - 1); }
  }

  // ---------- what allocation and release keep ----------

  lemma CarvedOk(list: seq<Block>, i: nat, n: nat)
    requires ListOk(list) && i < |list| && list[i].free && 0 < n <= list[i].size && n % 16 == 0
    ensures ListOk(Carved(list, i, n))
  {
    var r := Carved(list, i, n);
    if list[i].size >= n + 64 {
      SplitRefines(list, i, n);
      var sp := Split(list, i, n);
      forall k | 0 <= k < |r| ensures r[k].size > 0 && r[k].size % 16 == 0 {
        if k < i { RefinedAddr(list, sp, i, k); } else if k > i + 1 { RefinedAddr(list, sp, i, k - 1); }
      }
      forall k | 0 <= k && k + 1 < |r| ensures !r[k].free || !r[k + 1].free {
        if k + 1 < i { RefinedAddr(list, sp, i, k); RefinedAddr(list, sp, i, k + 1); }
        else if k == i + 1 { RefinedAddr(list, sp, i, k); assert !list[i].free || !list[i + 1].free; }
        else if k > i + 1 {
          RefinedAddr(list, sp, i, k - 1);
          RefinedAddr(list, sp, i, k);
          assert !list[k - 1].free || !list[k].free;
        }
      }
    }
  }

  lemma MallocOk(list: seq<Block>, n: nat)
    requires ListOk(list) && n > 0 && n % 16 == 0
    ensures ListOk(Malloc(list, n))
  {
    hide ListOk, Carved;
    match FirstFit(list, n, 0)
    case Some(i) => CarvedOk(list, i, n);
    case None => AppendOk(list, n);
  }

  lemma AppendOk(list: seq<Block>, n: nat)
    requires ListOk(list) && n > 0 && n % 16 == 0
    ensures ListOk(list + [Block(n, false)])
  {
  }

  lemma JoinedAt(list: seq<Block>, i: nat, k: nat)
    requires i + 1 < |list| && k < |Joined(list, i)|
    ensures Joined(list, i)[k]
         == if k < i then list[k] else if k == i then Block(list[i].size + 48 + list[i + 1].size, list[i].free)
           else list[k + 1]
  {
  }

  lemma JoinSizes(list: seq<Block>, i: nat)
    requires SizesOk(list) && i + 1 < |list|
    ensures SizesOk(Joined(list, i))
  {
    forall k | 0 <= k < |Joined(list, i)| ensures Joined(list, i)[k].size > 0 && Joined(list, i)[k].size % 16 == 0 {
      JoinedAt(list, i, k);
    }
  }

  /** Releasing a live block keeps sizes and merging. */
  lemma FreeOk(list: seq<Block>, i: nat)
    requires ListOk(list) && i < |list| && !list[i].free
    ensures ListOk(Free(list, i))
  {
    hide JoinNext, JoinPrev, ListOk;
    var a := Marked(list, i, true);
    MarkOk(list, i);
    JoinNextOk(a, i);
    JoinPrevOk(JoinNext(a, i), i);
  }

  lemma MarkOk(list: seq<Block>, i: nat)
    requires ListOk(list) && i < |list| && !list[i].free
    ensures var a := Marked(list, i, true); SizesOk(a) && MergedAway(a, i)
  {
  }

  /** Two free neighbours are only possible next to block `i`. */
  ghost predicate MergedAway(list: seq<Block>, i: nat) {
    i < |list| && list[i].free && forall k :: 0 <= k && k + 1 < |list| && k != i && k + 1 != i ==>
      !list[k].free || !list[k + 1].free
  }

  lemma JoinNextOk(list: seq<Block>, i: nat)
    requires SizesOk(list) && MergedAway(list, i)
    ensures var b := JoinNext(list, i);
            SizesOk(b) && MergedAway(b, i) && (i + 1 < |b| ==> !b[i + 1].free)
  {
    if i + 1 < |list| && list[i + 1].free {
      var b := Joined(list, i);
      JoinSizes(list, i);
      assert i + 1 < |b| ==> b[i + 1] == list[i + 2] && (!list[i + 1].free || !list[i + 2].free);
      forall k | 0 <= k && k + 1 < |b| && k != i && k + 1 != i ensures !b[k].free || !b[k + 1].free {
        JoinedAt(list, i, k);
        JoinedAt(list, i, k + 1);
        if k > i { assert !list[k + 1].free || !list[k + 2].free; }
      }
    }
  }

  lemma JoinPrevOk(list: seq<Block>, i: nat)
    requires SizesOk(list) && MergedAway(list, i) && (i + 1 < |list| ==> !list[i + 1].free)
    ensures ListOk(JoinPrev(list, i))
  {
    if i > 0 && list[i - 1].free {
      var b := Joined(list, i - 1);
      JoinSizes(list, i - 1);
      forall k | 0 <= k && k + 1 < |b| ensures !b[k].free || !b[k + 1].free {
        JoinedAt(list, i - 1, k);
        JoinedAt(list, i - 1, k + 1);
        if k + 1 == i - 1 { assert list[k + 1].free; }
        if k > i - 1 { assert !list[k + 1].free || !list[k + 2].free; }
      }
    }
  }

  // ---------- live payloads across operations ----------

  lemma {:induction false} RefinedLive(whole: seq<Block>, parts: seq<Block>, i: nat, p: nat, size: nat)
    requires Refined(whole, parts, i) && whole[i].free && parts[i].free && parts[i + 1].free
    ensures Live(whole, p, size) <==> Live(parts, p, size)
  {
    if Live(whole, p, size) {
      var k: nat :| LiveAt(whole, k, p, size);
      RefinedAddr(whole, parts, i, k);
      assert LiveAt(parts, if k < i then k else k + 1, p, size);
    }
    if Live(parts, p, size) {
      var k: nat :| LiveAt(parts, k, p, size);
      assert k != i && k != i + 1;
      RefinedAddr(whole, parts, i, if k < i then k else k - 1);
      assert LiveAt(whole, if k < i then k else k - 1, p, size);
    }
  }

  /** Marking a free block used adds its payload to the live ones; marking a live one free takes it away. */
  lemma MarkLive(list: seq<Block>, i: nat, free: bool, p: nat, size: nat)
    requires SizesOk(list) && i < |list| && list[i].free != free
    ensures !free ==>
              (Live(Marked(list, i, free), p, size) <==>
                 Live(list, p, size) || (p == Addr(list, i) + 48 && size == list[i].size))
    ensures free ==> (Live(Marked(list, i, free), p, size) <==> Live(list, p, size) && p != Addr(list, i) + 48)
  {
    var r := Marked(list, i, free);
    if Live(r, p, size) {
      var k: nat :| LiveAt(r, k, p, size);
      MarkedAddr(list, i, free, k);
      assert k != i ==> LiveAt(list, k, p, size);
      AddrDistinct(list, k, i);
    }
    if Live(list, p, size) {
      var k: nat :| LiveAt(list, k, p, size);
      MarkedAddr(list, i, free, k);
      assert k != i ==> LiveAt(r, k, p, size);
    }
    MarkedAddr(list, i, free, i);
    assert !free ==> LiveAt(r, i, Addr(list, i) + 48, list[i].size);
  }

  lemma AddrDistinct(list: seq<Block>, i: nat, j: nat)
    requires i <= |list| && j <= |list|
    ensures i != j ==> Addr(list, i) != Addr(list, j)
  {
    if i < j { AddrOrder(list, i, j); }
    if j < i { AddrOrder(list, j, i); }
  }

  /** Carving adds exactly the new payload to the live ones. */
  lemma CarvedLive(list: seq<Block>, i: nat, n: nat, p: nat, size: nat)
    requires SizesOk(list) && i < |list| && list[i].free && 0 < n <= list[i].size && n % 16 == 0
    ensures Live(Carved(list, i, n), p, size)
            <==> Live(list, p, size) || (p == Addr(list, i) + 48 && size == Carved(list, i, n)[i].size)
    ensures Addr(Carved(list, i, n), i) == Addr(list, i) && n <= Carved(list, i, n)[i].size < n + 64
    ensures !Carved(list, i, n)[i].free
  {
    hide Live, Refined;
    var sp := Split(list, i, n);
    if list[i].size >= n + 64 {
      SplitRefines(list, i, n);
      RefinedLive(list, sp, i, p, size);
      RefinedAddr(list, sp, i, i);
      SplitSizes(list, i, n);
    }
    MarkLive(sp, i, false, p, size);
    MarkedAddr(sp, i, false, i);
  }

  lemma SplitSizes(list: seq<Block>, i: nat, n: nat)
    requires SizesOk(list) && i < |list| && n + 64 <= list[i].size && n > 0 && n % 16 == 0
    ensures SizesOk(Split(list, i, n))
  {
  }

  /** A request adds exactly one live payload, as large as asked for but for a rest too small to stand on its own. */
  lemma MallocLive(list: seq<Block>, n: nat, p: nat, size: nat)
    requires SizesOk(list) && n > 0 && n % 16 == 0
    ensures var r, i := Malloc(list, n), MallocIndex(list, n);
            && i < |r| && n <= r[i].size < n + 64 && !r[i].free
            && (Live(r, p, size) <==> Live(list, p, size) || (p == Addr(r, i) + 48 && size == r[i].size))
  {
    hide Live, Carved;
    match FirstFit(list, n, 0)
    case Some(i) => CarvedLive(list, i, n, p, size);
    case None => AppendLive(list, n, p, size);
  }

  lemma AppendLive(list: seq<Block>, n: nat, p: nat, size: nat)
    ensures var r := list + [Block(n, false)];
            && Addr(r, |list|) == Addr(list, |list|)
            && (Live(r, p, size) <==> Live(list, p, size) || (p == Addr(r, |list|) + 48 && size == n))
  {
    var r := list + [Block(n, false)];
    assert r[..|list|] == list[..|list|];
    AddrPrefix(list, r, |list|);
    if Live(r, p, size) {
      var k: nat :| LiveAt(r, k, p, size);
      if k < |list| {
        assert r[..k] == list[..k];
        AddrPrefix(list, r, k);
        assert LiveAt(list, k, p, size);
      }
    }
    if Live(list, p, size) {
      var k: nat :| LiveAt(list, k, p, size);
      assert r[..k] == list[..k];
      AddrPrefix(list, r, k);
      assert LiveAt(r, k, p, size);
    }
    assert LiveAt(r, |list|, Addr(r, |list|) + 48, n);
  }

  /** A release takes exactly one live payload away. */
  lemma FreeLive(list: seq<Block>, i: nat, p: nat, size: nat)
    requires SizesOk(list) && i < |list| && !list[i].free
    ensures Live(Free(list, i), p, size) <==> Live(list, p, size) && p != Addr(list, i) + 48
  {
    hide Live, Refined;
    var a := Marked(list, i, true);
    var b := JoinNext(a, i);
    MarkLive(list, i, true, p, size);
    if i + 1 < |a| && a[i + 1].free {
      JoinRefines(a, i);
      RefinedLive(b, a, i, p, size);
    }
    if i > 0 && b[i - 1].free {
      JoinRefines(b, i - 1);
      RefinedLive(Joined(b, i - 1), b, i - 1, p, size);
    }
  }
}
