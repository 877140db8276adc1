/** Copies between kernel buffers and user memory, one page at a time. */
module UserCopies {
  import opened Options
  import opened Bytes
  import opened PageAllocators
  import opened Paging
  import opened Ownership
  import opened AddressSpaces

  const ADDRESS_LIMIT: nat := 0x1_0000_0000_0000_0000

  /** The range runs past the end of the 64-bit address space. */
  predicate Wraps(base: nat, len: nat) {
    len != 0 && base + len > ADDRESS_LIMIT
  }

  /** The test the original makes on 64-bit numbers. */
  lemma WrapsIs(base: nat, len: nat)
    requires base < ADDRESS_LIMIT && len < ADDRESS_LIMIT
    ensures Wraps(base, len) <==> len != 0 && (base + len - 1) % ADDRESS_LIMIT < base
  {
    if len != 0 && base + len > ADDRESS_LIMIT {
      assert (base + len - 1) % ADDRESS_LIMIT == base + len - 1 - ADDRESS_LIMIT;
    }
  }

  /** Every byte of the range may be accessed. */
  ghost predicate Accessible(pages: map<nat, Pte>, base: nat, len: nat, write: bool) {
    forall a: nat :: base <= a < base + len ==> Lookup(pages, a, write).Some?
  }

  /** Every mapped frame lies in physical memory. */
  ghost predicate FramesIn(pages: map<nat, Pte>, size: nat) {
    forall p :: p in pages ==> (pages[p].frame + 1) * 4096 <= size
  }

  lemma LookupIn(pages: map<nat, Pte>, size: nat, virt: nat, write: bool)
    requires FramesIn(pages, size) && Lookup(pages, virt, write).Some?
    ensures Lookup(pages, virt, write).value < size
  {
    assert virt / 4096 in pages;
  }

  /** Within a page, translation advances byte by byte. */
  lemma SamePage(pages: map<nat, Pte>, virt: nat, k: nat, write: bool)
    requires k < 4096 - virt % 4096
    ensures Lookup(pages, virt + k, write)
         == match Lookup(pages, virt, write) case None => None case Some(a) => Some(a + k)
  {
    assert (virt + k) / 4096 == virt / 4096 && (virt + k) % 4096 == virt % 4096 + k;
    assert virt < USER_VIRT_MAX <==> virt + k < USER_VIRT_MAX;
  }

  /** Memory after the bytes were stored one by one, up to the first that may not be written. */
  ghost function Stored(phys: seq<Byte>, pages: map<nat, Pte>, base: nat, src: seq<Byte>): (r: seq<Byte>)
    requires FramesIn(pages, |phys|)
    ensures |r| == |phys|
    decreases |src|
  {
    if src == [] then phys
    else match Lookup(pages, base, true)
      case None => phys
      case Some(a) =>
        LookupIn(pages, |phys|, base, true);
        Stored(phys[a := src[0]], pages, base + 1, src[1..])
  }

  lemma StoredStep(phys: seq<Byte>, pages: map<nat, Pte>, base: nat, src: seq<Byte>, k: nat)
    requires FramesIn(pages, |phys|) && k < |src| && Lookup(pages, base + k, true).Some?
    ensures Lookup(pages, base + k, true).value < |phys|
    ensures Stored(phys, pages, base + k, src[k..])
         == Stored(phys[Lookup(pages, base + k, true).value := src[k]], pages, base + k + 1, src[k + 1..])
  {
    LookupIn(pages, |phys|, base + k, true);
    hide FramesIn, Lookup;
    assert src[k..][0] == src[k] && src[k..][1..] == src[k + 1..];
  }

  /** No two pages share a frame. */
  ghost predicate FramesApart(pages: map<nat, Pte>) {
    forall p, q :: p in pages && q in pages && pages[p].frame == pages[q].frame ==> p == q
  }

  /** Distinct user addresses then lie at distinct physical ones. */
  lemma LookupInjective(pages: map<nat, Pte>, a: nat, b: nat, write: bool)
    requires FramesApart(pages) && Lookup(pages, a, write).Some? && Lookup(pages, a, write) == Lookup(pages, b, write)
    ensures a == b
  {
    var f, h := pages[a / 4096].frame, pages[b / 4096].frame;
    assert f * 4096 + a % 4096 == h * 4096 + b % 4096;
    assert f == h;
  }

  /** Bytes that no address of the range leads to keep their value. */
  lemma {:induction false} StoredElsewhere(phys: seq<Byte>, pages: map<nat, Pte>, base: nat, src: seq<Byte>, x: nat)
    requires FramesIn(pages, |phys|) && x < |phys|
    requires forall a: nat :: base <= a < base + |src| ==> Lookup(pages, a, true) != Some(x)
    ensures Stored(phys, pages, base, src)[x] == phys[x]
    decreases |src|
  {
    hide FramesIn, Lookup;
    if src != [] && Lookup(pages, base, true).Some? {
      LookupIn(pages, |phys|, base, true);
      var a := Lookup(pages, base, true).value;
      StoredElsewhere(phys[a := src[0]], pages, base + 1, src[1..], x);
    }
  }

  /** What was stored is what a reader of the range then finds. */
  lemma {:induction false} StoredReads(phys: seq<Byte>, pages: map<nat, Pte>, base: nat, src: seq<Byte>, k: nat)
    requires FramesIn(pages, |phys|) && FramesApart(pages) && Accessible(pages, base, |src|, true) && k < |src|
    ensures Lookup(pages, base + k, true).Some? && Lookup(pages, base + k, true).value < |phys|
    ensures Stored(phys, pages, base, src)[Lookup(pages, base + k, true).value] == src[k]
    decreases |src|
  {
    hide FramesIn, Lookup, FramesApart;
    assert Lookup(pages, base, true).Some? && Lookup(pages, base + k, true).Some?;
    LookupIn(pages, |phys|, base, true);
    LookupIn(pages, |phys|, base + k, true);
    var a := Lookup(pages, base, true).value;
    if k == 0 {
      forall b: nat | base + 1 <= b < base + |src| ensures Lookup(pages, b, true) != Some(a) {
        if Lookup(pages, b, true) == Some(a) { LookupInjective(pages, base, b, true); }
      }
      StoredElsewhere(phys[a := src[0]], pages, base + 1, src[1..], a);
    } else {
      StoredReads(phys[a := src[0]], pages, base + 1, src[1..], k - 1);
    }
  }

  lemma WriteIsRead(pages: map<nat, Pte>, v: nat)
    requires Lookup(pages, v, true).Some?
    ensures Lookup(pages, v, false) == Lookup(pages, v, true)
  {
  }

  /** Copying out what was copied in gives it back, byte for byte, when no two pages share a frame. */
  lemma CopyRoundTrip(phys: seq<Byte>, pages: map<nat, Pte>, base: nat, src: seq<Byte>)
    requires FramesIn(pages, |phys|) && FramesApart(pages) && Accessible(pages, base, |src|, true)
    ensures Fetched(Stored(phys, pages, base, src), pages, base, src)
  {
    hide FramesIn, FramesApart, Lookup, Stored;
    forall a: nat | base <= a < base + |src|
      ensures Lookup(pages, a, false).Some? && Lookup(pages, a, false).value < |phys|
      ensures src[a - base] == Stored(phys, pages, base, src)[Lookup(pages, a, false).value]
    {
      WriteIsRead(pages, a);
      StoredReads(phys, pages, base, src, a - base);
    }
  }

  lemma StoredEnd(phys: seq<Byte>, pages: map<nat, Pte>, base: nat, src: seq<Byte>)
    requires FramesIn(pages, |phys|) && (src == [] || Lookup(pages, base, true).None?)
    ensures Stored(phys, pages, base, src) == phys
  {
    hide FramesIn, Lookup;
  }

  /** One accessible byte makes its whole page accessible. */
  lemma AccessibleGrows(pages: map<nat, Pte>, base: nat, done: nat, n: nat, write: bool)
    requires Accessible(pages, base, done, write) && Lookup(pages, base + done, write).Some?
    requires n <= 4096 - (base + done) % 4096
    ensures Accessible(pages, base, done + n, write)
  {
    forall a: nat | base <= a < base + done + n ensures Lookup(pages, a, write).Some? {
      if a >= base + done { SamePage(pages, base + done, a - base - done, write); }
    }
  }

  lemma NotAccessible(pages: map<nat, Pte>, base: nat, len: nat, k: nat, write: bool)
    requires k < len && Lookup(pages, base + k, write).None?
    ensures !Accessible(pages, base, len, write)
  {
  }

  /** The loaded address space and the bytes of physical memory. */
  class UserMemory {
    const vmm: Vmm
    var phys: seq<Byte>

    /** The space is the loaded one, and no user page lies in a frame that holds a page table. */
    ghost predicate Valid(sp: Space)
      reads this, vmm
    {
      && TreeOk(vmm.mem, sp) && sp.root == vmm.current && FramesIn(sp.pages, |phys|)
      && PageFrames(sp) !! Tables(sp)
    }

    constructor (vmm: Vmm, phys: seq<Byte>)
      ensures this.vmm == vmm && this.phys == phys
    {
      this.vmm, this.phys := vmm, phys;
    }

    /** Whether a whole range may be accessed, probing once per page. */
    method ValidateRange(ghost sp: Space, base: nat, len: nat, write: bool) returns (ok: bool)
      requires Valid(sp)
      ensures ok == (len == 0 || (!Wraps(base, len) && Accessible(sp.pages, base, len, write)))
    {
      hide TreeOk, PageFrames, Tables, FramesIn, Lookup, Accessible;
      if len == 0 {
        return true;
      }
      if Wraps(base, len) {
        return false;
      }
      var checked := 0;
      AccessibleNone(sp.pages, base, write);
      while checked < len
        invariant checked <= len && Accessible(sp.pages, base, checked, write)
      {
        var addr := base + checked;
        var a := vmm.Translate(sp, vmm.current, addr, write);
        if a.None? {
          NotAccessible(sp.pages, base, len, checked, write);
          return false;
        }
        var n := Min(4096 - addr % 4096, len - checked);
        AccessibleGrows(sp.pages, base, checked, n, write);
        checked := checked + n;
      }
      ok := true;
    }

    /** Copies from user memory; `out` is what reached the buffer. A validated range cannot fail. */
    method CopyFromUser(ghost sp: Space, base: nat, len: nat) returns (ok: bool, out: seq<Byte>)
      requires Valid(sp)
      ensures ok == (len == 0 || (base != 0 && !Wraps(base, len) && Accessible(sp.pages, base, len, false)))
      ensures ok ==> |out| == len
      ensures Fetched(phys, sp.pages, base, out)
      ensures !ok && base != 0 && !Wraps(base, len) ==> |out| < len && Lookup(sp.pages, base + |out|, false).None?
    {
      hide TreeOk, PageFrames, Tables, FramesIn, Lookup, Accessible, Fetched;
      ok, out := true, [];
      FetchedNone(phys, sp.pages, base);
      if len == 0 {
        return;
      }
      if base == 0 || Wraps(base, len) {
        return false, out;
      }
      AccessibleNone(sp.pages, base, false);
      while |out| < len
        invariant |out| <= len && Accessible(sp.pages, base, |out|, false) && Fetched(phys, sp.pages, base, out)
      {
        var addr := base + |out|;
        var a := vmm.Translate(sp, vmm.current, addr, false);
        if a.None? {
          NotAccessible(sp.pages, base, len, |out|, false);
          return false, out;
        }
        var n := Min(4096 - addr % 4096, len - |out|);
        FetchPage(phys, sp.pages, base, out, n);
        AccessibleGrows(sp.pages, base, |out|, n, false);
        out := out + phys[a.value..a.value + n];
      }
    }

    /** Copies to user memory: what is stored is what a byte-by-byte copy stores, also when a page is missing. */
    method CopyToUser(ghost sp: Space, base: nat, src: seq<Byte>) returns (ok: bool)
      requires Valid(sp)
      modifies this
      ensures Valid(sp)
      ensures ok == (src == [] || (base != 0 && !Wraps(base, |src|) && Accessible(sp.pages, base, |src|, true)))
      ensures phys == if base == 0 || Wraps(base, |src|) then old(phys) else Stored(old(phys), sp.pages, base, src)
    {
      hide TreeOk, PageFrames, Tables, FramesIn, Lookup, Accessible, Stored;
      ok := true;
      if src == [] {
        StoredEnd(phys, sp.pages, base, src);
        return;
      }
      if base == 0 || Wraps(base, |src|) {
        return false;
      }
      var copied := 0;
      AccessibleNone(sp.pages, base, true);
      assert src[0..] == src;
      while copied < |src|
        invariant copied <= |src| && |phys| == |old(phys)| && Accessible(sp.pages, base, copied, true)
        invariant Stored(phys, sp.pages, base + copied, src[copied..]) == Stored(old(phys), sp.pages, base, src)
      {
        var addr := base + copied;
        var a := vmm.Translate(sp, vmm.current, addr, true);
        if a.None? {
          NotAccessible(sp.pages, base, |src|, copied, true);
          StoredEnd(phys, sp.pages, addr, src[copied..]);
          return false;
        }
        var n := Min(4096 - addr % 4096, |src| - copied);
        AccessibleGrows(sp.pages, base, copied, n, true);
        for i := 0 to n
          invariant |phys| == |old(phys)|
          invariant Stored(phys, sp.pages, addr + i, src[copied + i..]) == Stored(old(phys), sp.pages, base, src)
        {
          SamePage(sp.pages, addr, i, true);
          StoredStep(phys, sp.pages, base, src, copied + i);
          phys := phys[a.value + i := src[copied + i]];
        }
        copied := copied + n;
      }
      StoredEnd(phys, sp.pages, base + copied, src[copied..]);
    }
  }

  lemma AccessibleNone(pages: map<nat, Pte>, base: nat, write: bool)
    ensures Accessible(pages, base, 0, write)
  {
  }

  /** `out` holds the bytes that user addresses from `base` on translate to. */
  ghost predicate Fetched(phys: seq<Byte>, pages: map<nat, Pte>, base: nat, out: seq<Byte>) {
    forall a: nat :: base <= a < base + |out| ==>
      Lookup(pages, a, false).Some? && Lookup(pages, a, false).value < |phys|
      && out[a - base] == phys[Lookup(pages, a, false).value]
  }

  lemma FetchedNone(phys: seq<Byte>, pages: map<nat, Pte>, base: nat)
    ensures Fetched(phys, pages, base, [])
  {
  }

  lemma FetchPage(phys: seq<Byte>, pages: map<nat, Pte>, base: nat, out: seq<Byte>, n: nat)
    requires Fetched(phys, pages, base, out) && FramesIn(pages, |phys|) && Lookup(pages, base + |out|, false).Some?
    requires 0 < n <= 4096 - (base + |out|) % 4096
    ensures var a := Lookup(pages, base + |out|, false).value;
            a + n <= |phys| && Fetched(phys, pages, base, out + phys[a..a + n])
  {
    var at := base + |out|;
    var a := Lookup(pages, at, false).value;
    SamePage(pages, at, n - 1, false);
    LookupIn(pages, |phys|, at + n - 1, false);
    var out' := out + phys[a..a + n];
    forall x: nat | base <= x < base + |out'|
      ensures Lookup(pages, x, false).Some? && Lookup(pages, x, false).value < |phys|
      ensures out'[x - base] == phys[Lookup(pages, x, false).value]
    {
      if x >= at { SamePage(pages, at, x - at, false); }
    }
  }
}
