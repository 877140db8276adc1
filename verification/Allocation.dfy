/** Marking, releasing and zeroing clusters: what each does to the FAT, the bitmap and the data. */
module Allocation {
  import opened Bytes
  import opened Arithmetic
  import opened Volume
  import opened Frames
  import opened Chains

  /** Free for allocation: bit clear and FAT entry zero. */
  predicate Free(g: Geometry, bc: seq<nat>, d: Disk, c: nat)
    requires Fits(g, |d|) && BitmapCovers(g, bc) && ClusterValid(g, c)
  {
    !BitAt(g, bc, d, c) && FatAt(g, d, c) == 0
  }

  /** The FAT value that links `cs[i]` to its successor, or ends the chain. */
  function NextLink(cs: seq<nat>, i: nat): (v: nat)
    requires i < |cs|
  {
    if i + 1 < |cs| then cs[i + 1] else EOF_MARK
  }

  function MarkUsed(g: Geometry, bc: seq<nat>, d: Disk, c: nat, v: nat): (d': Disk)
    requires Fits(g, |d|) && BitmapCovers(g, bc) && ClusterValid(g, c)
    ensures |d'| == |d|
  {
    SetFat(g, PutBit(g, bc, d, c, true), c, v)
  }

  function MarkFree(g: Geometry, bc: seq<nat>, d: Disk, c: nat): (d': Disk)
    requires Fits(g, |d|) && BitmapCovers(g, bc) && ClusterValid(g, c)
    ensures |d'| == |d|
  {
    SetFat(g, PutBit(g, bc, d, c, false), c, 0)
  }

  /** Bit and link of the first `n` clusters of `cs` written, in order. */
  ghost function MarkChain(g: Geometry, bc: seq<nat>, d: Disk, cs: seq<nat>, n: nat): (d': Disk)
    requires Fits(g, |d|) && BitmapCovers(g, bc) && Clusters(g, cs) && n <= |cs|
    ensures |d'| == |d|
  {
    if n == 0 then d else MarkUsed(g, bc, MarkChain(g, bc, d, cs, n - 1), cs[n - 1], NextLink(cs, n - 1))
  }

  ghost function ReleaseChain(g: Geometry, bc: seq<nat>, d: Disk, cs: seq<nat>, n: nat): (d': Disk)
    requires Fits(g, |d|) && BitmapCovers(g, bc) && Clusters(g, cs) && n <= |cs|
    ensures |d'| == |d|
  {
    if n == 0 then d else MarkFree(g, bc, ReleaseChain(g, bc, d, cs, n - 1), cs[n - 1])
  }

  lemma Units(s: set<nat>)
    ensures s + {} == s && {} + s == s && s + s == s
  {
  }

  /** Bit, then FAT entry, of one cluster. */
  lemma MarkOne(g: Geometry, bc: seq<nat>, d: Disk, c: nat, set_: bool, v: nat)
    requires Fits(g, |d|) && BitmapCovers(g, bc) && ClusterValid(g, c) && v < 0x1_0000_0000
    ensures var d' := SetFat(g, PutBit(g, bc, d, c, set_), c, v);
            && Changes(g, bc, d, d', {c}, {c}, Elements(bc))
            && FatAt(g, d', c) == v && BitAt(g, bc, d', c) == set_
  {
    hide *;
    var e := PutBit(g, bc, d, c, set_);
    var f := SetFat(g, e, c, v);
    PutBitChanges(g, bc, d, c, set_);
    SetFatChanges(g, bc, e, c, v);
    ChangesTrans(g, bc, d, e, f, {}, {c}, Elements(bc), {c}, {}, {});
    Units({c});
    Units(Elements(bc));
    PutBitReads(g, bc, d, c, set_, c);
    SetFatReads(g, e, c, v, c);
    BitsSameAt(g, bc, e, f, {c}, {}, {}, c);
  }

  lemma BitsSameAt(g: Geometry, bc: seq<nat>, d: Disk, e: Disk, fats: set<nat>, bits: set<nat>, data: set<nat>, c: nat)
    requires Changes(g, bc, d, e, fats, bits, data) && ClusterValid(g, c) && c !in bits
    ensures BitAt(g, bc, e, c) == BitAt(g, bc, d, c)
  {
  }

  lemma FatSameAt(g: Geometry, bc: seq<nat>, d: Disk, e: Disk, fats: set<nat>, bits: set<nat>, data: set<nat>, c: nat)
    requires Changes(g, bc, d, e, fats, bits, data) && ClusterValid(g, c) && c !in fats
    ensures FatAt(g, e, c) == FatAt(g, d, c)
  {
  }

  lemma NextLinkFits(g: Geometry, n: nat, cs: seq<nat>, i: nat)
    requires Fits(g, n) && Clusters(g, cs) && i < |cs|
    ensures NextLink(cs, i) < 0x1_0000_0000
  {
    if i + 1 < |cs| { assert ClusterValid(g, cs[i + 1]); }
  }

  lemma PrefixElements(cs: seq<nat>, n: nat)
    requires 0 < n <= |cs|
    ensures Elements(cs[..n]) == Elements(cs[..n - 1]) + {cs[n - 1]}
  {
    assert cs[..n] == cs[..n - 1] + [cs[n - 1]];
  }

  lemma {:induction false} MarkChainChanges(g: Geometry, bc: seq<nat>, d: Disk, cs: seq<nat>, n: nat)
    requires Fits(g, |d|) && BitmapCovers(g, bc) && Clusters(g, cs) && n <= |cs|
    ensures Changes(g, bc, d, MarkChain(g, bc, d, cs, n), Elements(cs[..n]), Elements(cs[..n]), Elements(bc))
  {
    hide Fits, BitmapCovers, Changes, MarkUsed;
    if n == 0 {
      ChangesRefl(g, bc, d);
      ChangesWiden(g, bc, d, d, {}, {}, {}, Elements(cs[..0]), Elements(cs[..0]), Elements(bc));
    } else {
      var e := MarkChain(g, bc, d, cs, n - 1);
      var c := cs[n - 1];
      MarkChainChanges(g, bc, d, cs, n - 1);
      NextLinkFits(g, |d|, cs, n - 1);
      MarkOne(g, bc, e, c, true, NextLink(cs, n - 1));
      MarkUsedIs(g, bc, e, c, NextLink(cs, n - 1));
      PrefixElements(cs, n);
      ChangesTrans(g, bc, d, e, MarkUsed(g, bc, e, c, NextLink(cs, n - 1)),
                   Elements(cs[..n - 1]), Elements(cs[..n - 1]), Elements(bc), {c}, {c}, Elements(bc));
      Units(Elements(bc));
    }
  }

  lemma MarkUsedIs(g: Geometry, bc: seq<nat>, d: Disk, c: nat, v: nat)
    requires Fits(g, |d|) && BitmapCovers(g, bc) && ClusterValid(g, c)
    ensures MarkUsed(g, bc, d, c, v) == SetFat(g, PutBit(g, bc, d, c, true), c, v)
    ensures MarkFree(g, bc, d, c) == SetFat(g, PutBit(g, bc, d, c, false), c, 0)
  {
    hide SetFat, PutBit;
  }

  /** After marking, each marked cluster has its bit set and its FAT entry linking to the next. */
  lemma {:induction false} MarkChainAt(g: Geometry, bc: seq<nat>, d: Disk, cs: seq<nat>, n: nat, i: nat)
    requires Fits(g, |d|) && BitmapCovers(g, bc) && Clusters(g, cs) && i < n <= |cs|
    ensures FatAt(g, MarkChain(g, bc, d, cs, n), cs[i]) == NextLink(cs, i)
    ensures BitAt(g, bc, MarkChain(g, bc, d, cs, n), cs[i])
  {
    hide Fits, BitmapCovers, Changes, MarkUsed, FatAt, BitAt, NextLink;
    var e := MarkChain(g, bc, d, cs, n - 1);
    var c := cs[n - 1];
    NextLinkFits(g, |d|, cs, n - 1);
    MarkOne(g, bc, e, c, true, NextLink(cs, n - 1));
    MarkUsedIs(g, bc, e, c, NextLink(cs, n - 1));
    var f := MarkUsed(g, bc, e, c, NextLink(cs, n - 1));
    if i < n - 1 {
      MarkChainAt(g, bc, d, cs, n - 1, i);
      BitsSameAt(g, bc, e, f, {c}, {c}, Elements(bc), cs[i]);
      FatSameAt(g, bc, e, f, {c}, {c}, Elements(bc), cs[i]);
    }
  }

  lemma {:induction false} ReleaseChainChanges(g: Geometry, bc: seq<nat>, d: Disk, cs: seq<nat>, n: nat)
    requires Fits(g, |d|) && BitmapCovers(g, bc) && Clusters(g, cs) && n <= |cs|
    ensures Changes(g, bc, d, ReleaseChain(g, bc, d, cs, n), Elements(cs[..n]), Elements(cs[..n]), Elements(bc))
  {
    hide Fits, BitmapCovers, Changes, MarkFree;
    if n == 0 {
      ChangesRefl(g, bc, d);
      ChangesWiden(g, bc, d, d, {}, {}, {}, Elements(cs[..0]), Elements(cs[..0]), Elements(bc));
    } else {
      var e := ReleaseChain(g, bc, d, cs, n - 1);
      var c := cs[n - 1];
      ReleaseChainChanges(g, bc, d, cs, n - 1);
      MarkOne(g, bc, e, c, false, 0);
      MarkUsedIs(g, bc, e, c, 0);
      PrefixElements(cs, n);
      ChangesTrans(g, bc, d, e, MarkFree(g, bc, e, c),
                   Elements(cs[..n - 1]), Elements(cs[..n - 1]), Elements(bc), {c}, {c}, Elements(bc));
      Units(Elements(bc));
    }
  }

  /** Released clusters are free again. */
  lemma {:induction false} ReleaseChainFrees(g: Geometry, bc: seq<nat>, d: Disk, cs: seq<nat>, n: nat, i: nat)
    requires Fits(g, |d|) && BitmapCovers(g, bc) && Clusters(g, cs) && i < n <= |cs|
    ensures Free(g, bc, ReleaseChain(g, bc, d, cs, n), cs[i])
  {
    hide *;
    ReleaseStep(g, bc, d, cs, n);
    var e := ReleaseChain(g, bc, d, cs, n - 1);
    var c := cs[n - 1];
    MarkOne(g, bc, e, c, false, 0);
    MarkUsedIs(g, bc, e, c, 0);
    var f := MarkFree(g, bc, e, c);
    if i < n - 1 {
      ReleaseChainFrees(g, bc, d, cs, n - 1, i);
      ReleaseApart(g, cs, i, n - 1);
      FreeIs(g, bc, e, cs[i]);
      BitsSameAt(g, bc, e, f, {c}, {c}, Elements(bc), cs[i]);
      FatSameAt(g, bc, e, f, {c}, {c}, Elements(bc), cs[i]);
    }
    FreeIs(g, bc, f, cs[i]);
  }

  lemma ReleaseStep(g: Geometry, bc: seq<nat>, d: Disk, cs: seq<nat>, n: nat)
    requires Fits(g, |d|) && BitmapCovers(g, bc) && Clusters(g, cs) && 0 < n <= |cs|
    ensures ClusterValid(g, cs[n - 1])
    ensures ReleaseChain(g, bc, d, cs, n) == MarkFree(g, bc, ReleaseChain(g, bc, d, cs, n - 1), cs[n - 1])
  {
    hide Fits, BitmapCovers, MarkFree;
  }

  lemma ReleaseApart(g: Geometry, cs: seq<nat>, i: nat, j: nat)
    requires Clusters(g, cs) && i < j < |cs|
    ensures ClusterValid(g, cs[i]) && cs[i] != cs[j]
  {
  }

  lemma FreeIs(g: Geometry, bc: seq<nat>, d: Disk, c: nat)
    requires Fits(g, |d|) && BitmapCovers(g, bc) && ClusterValid(g, c)
    ensures Free(g, bc, d, c) == (!BitAt(g, bc, d, c) && FatAt(g, d, c) == 0)
  {
    hide BitAt, FatAt;
  }

  // ---------- zeroing ----------

  ghost function ZeroSectors(g: Geometry, d: Disk, c: nat, k: nat): (d': Disk)
    requires Fits(g, |d|) && ClusterValid(g, c) && k <= g.sectorsPerCluster
    ensures |d'| == |d|
  {
    if k == 0 then d
    else
      ClusterInHeap(g, |d|, c);
      ZeroSectors(g, d, c, k - 1)[ClusterLba(g, c) + k - 1 := ZeroSector()]
  }

  ghost function ZeroClusters(g: Geometry, d: Disk, cs: seq<nat>, n: nat): (d': Disk)
    requires Fits(g, |d|) && Clusters(g, cs) && n <= |cs|
    ensures |d'| == |d|
  {
    if n == 0 then d else ZeroSectors(g, ZeroClusters(g, d, cs, n - 1), cs[n - 1], g.sectorsPerCluster)
  }

  lemma {:induction false} ZeroSectorsChanges(g: Geometry, bc: seq<nat>, d: Disk, c: nat, k: nat)
    requires Fits(g, |d|) && BitmapCovers(g, bc) && ClusterValid(g, c) && c !in bc && k <= g.sectorsPerCluster
    ensures Changes(g, bc, d, ZeroSectors(g, d, c, k), {}, {}, {c})
  {
    hide Fits, BitmapCovers, Changes, ClusterLba, ZeroSector;
    if k == 0 {
      ChangesRefl(g, bc, d);
      ChangesWiden(g, bc, d, d, {}, {}, {}, {}, {}, {c});
    } else {
      var e := ZeroSectors(g, d, c, k - 1);
      ZeroSectorsChanges(g, bc, d, c, k - 1);
      HeapWriteChanges(g, bc, e, c, k - 1, ZeroSector());
      ChangesTrans(g, bc, d, e, ZeroSectors(g, d, c, k), {}, {}, {c}, {}, {}, {c});
      Units({c});
      Units({});
    }
  }

  lemma {:induction false} ZeroClustersChanges(g: Geometry, bc: seq<nat>, d: Disk, cs: seq<nat>, n: nat)
    requires Fits(g, |d|) && BitmapCovers(g, bc) && Clusters(g, cs) && Misses(cs, Elements(bc)) && n <= |cs|
    ensures Changes(g, bc, d, ZeroClusters(g, d, cs, n), {}, {}, Elements(cs[..n]))
  {
    hide Fits, BitmapCovers, Changes, ZeroSectors;
    if n == 0 {
      ChangesRefl(g, bc, d);
      assert Elements(cs[..0]) == {};
    } else {
      var e := ZeroClusters(g, d, cs, n - 1);
      ZeroClustersChanges(g, bc, d, cs, n - 1);
      ZeroSectorsChanges(g, bc, e, cs[n - 1], g.sectorsPerCluster);
      ChangesTrans(g, bc, d, e, ZeroClusters(g, d, cs, n), {}, {}, Elements(cs[..n - 1]), {}, {}, {cs[n - 1]});
      PrefixElements(cs, n);
      Units({});
    }
  }
}
