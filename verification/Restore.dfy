/** Create and unlink as inverses: the FAT and the allocation bitmap come back byte for byte. */
module Restore {
  import opened Bytes
  import opened Arithmetic
  import opened Volume
  import opened Frames
  import opened Chains
  import opened Allocation
  import opened Options
  import opened Paths
  import opened EntrySet
  import opened Transaction
  import opened FileSystem
  import opened FileOps
  import opened CreateUnlink
  import opened Edits
  import opened Search
  import opened CreateSpec
  import opened MountProofs

  // ---------- bytes before the heap ----------

  /** The FAT entry that byte `b` of sector `lba` is part of. */
  function FatSlot(g: Geometry, lba: nat, b: nat): (c: nat)
    requires lba >= g.fatOffset
  {
    (lba - g.fatOffset) * 128 + b / 4
  }

  /** Every byte before the heap is the same, except in the FAT entries of `except`. */
  ghost predicate LowSame(g: Geometry, d: Disk, d': Disk, except: set<nat>) {
    |d'| == |d| && g.heapOffset <= |d| &&
    forall lba: nat, b: nat ::
      lba < g.heapOffset && b < 512 && (lba >= g.fatOffset ==> FatSlot(g, lba, b) !in except) ==>
        d'[lba][b] == d[lba][b]
  }

  lemma LowTrans(g: Geometry, d: Disk, e: Disk, f: Disk, a: set<nat>, b: set<nat>)
    requires LowSame(g, d, e, a) && LowSame(g, e, f, b)
    ensures LowSame(g, d, f, a + b)
  {
    hide FatSlot;
    forall lba: nat, k: nat | lba < g.heapOffset && k < 512 && (lba >= g.fatOffset ==> FatSlot(g, lba, k) !in a + b)
      ensures f[lba][k] == d[lba][k]
    {
      assert e[lba][k] == d[lba][k];
    }
  }

  lemma LowHeapWrite(g: Geometry, d: Disk, lba: nat, t: Sector)
    requires g.heapOffset <= lba < |d|
    ensures LowSame(g, d, d[lba := t], {})
  {
  }

  lemma SetFatLow(g: Geometry, d: Disk, c: nat, v: nat)
    requires Fits(g, |d|) && ClusterValid(g, c)
    ensures LowSame(g, d, SetFat(g, d, c, v), {c})
  {
    FatInRange(g, |d|, c);
    var l, o := FatLba(g, c), FatOff(c);
    var t := PutLe32(d[l], o, v);
    hide LeBytes;
    forall b: nat | b < 512 && FatSlot(g, l, b) != c ensures t[b] == d[l][b] {
      assert b < o || o + 4 <= b;
    }
  }

  lemma PutBitLow(g: Geometry, bc: seq<nat>, d: Disk, c: nat, set_: bool)
    requires Fits(g, |d|) && BitmapCovers(g, bc) && ClusterValid(g, c)
    ensures LowSame(g, d, PutBit(g, bc, d, c, set_), {})
  {
    SpcPositive(g, |d|);
    hide PatchedBit, BitLba, Fits, BitmapCovers;
    BitInRange(g, |d|, bc, c);
    LowHeapWrite(g, d, BitLba(g, bc, c), PatchedBit(d[BitLba(g, bc, c)], BitOff(c), BitPos(c), set_));
  }

  // ---------- bits of the bitmap's sectors, padding included ----------

  function BitmapSectors(g: Geometry, bc: seq<nat>): (n: nat) {
    |bc| * g.sectorsPerCluster
  }

  lemma BitmapSectorIndex(g: Geometry, bc: seq<nat>, t: nat)
    requires g.sectorsPerCluster >= 1 && BitmapCovers(g, bc) && t < BitmapSectors(g, bc)
    ensures t / g.sectorsPerCluster < |bc| && t % g.sectorsPerCluster < g.sectorsPerCluster
  {
    hide BitmapCovers;
    DivBelow(t, |bc|, g.sectorsPerCluster);
  }

  /** The bitmap cluster that holds sector `t` of the bitmap. */
  function MapCluster(g: Geometry, bc: seq<nat>, t: nat): (c: nat)
    requires g.sectorsPerCluster >= 1 && BitmapCovers(g, bc) && t < BitmapSectors(g, bc)
    ensures ClusterValid(g, c) && c in bc
  {
    BitmapSectorIndex(g, bc, t);
    bc[t / g.sectorsPerCluster]
  }

  function MapStep(g: Geometry, t: nat): (k: nat)
    requires g.sectorsPerCluster >= 1
    ensures k < g.sectorsPerCluster
  {
    t % g.sectorsPerCluster
  }

  lemma MapInHeap(g: Geometry, n: nat, bc: seq<nat>, t: nat)
    requires Fits(g, n) && g.sectorsPerCluster >= 1 && BitmapCovers(g, bc) && t < BitmapSectors(g, bc)
    ensures g.heapOffset <= ClusterLba(g, MapCluster(g, bc, t)) + MapStep(g, t) < n
  {
    hide *;
    ClusterInHeap(g, n, MapCluster(g, bc, t));
  }

  /** The sector number of sector `t` of the bitmap. */
  function BitmapLba(g: Geometry, n: nat, bc: seq<nat>, t: nat): (lba: nat)
    requires Fits(g, n) && BitmapCovers(g, bc) && t < BitmapSectors(g, bc)
    ensures g.heapOffset <= lba < n
  {
    MapInHeap(g, n, bc, t);
    ClusterLba(g, MapCluster(g, bc, t)) + MapStep(g, t)
  }

  /** The cluster that bit `k` of byte `b` of bitmap sector `t` stands for. */
  function BitSlot(t: nat, b: nat, k: nat): (c: nat) {
    t * 4096 + b * 8 + k + 2
  }

  ghost predicate MapBit(g: Geometry, bc: seq<nat>, d: Disk, t: nat, b: nat, k: nat)
    requires Fits(g, |d|) && BitmapCovers(g, bc) && t < BitmapSectors(g, bc) && b < 512 && k < 8
  {
    BitIn(d[BitmapLba(g, |d|, bc, t)][b], k)
  }

  ghost predicate MapSame(g: Geometry, bc: seq<nat>, d: Disk, d': Disk, except: set<nat>) {
    Fits(g, |d|) && |d'| == |d| && BitmapCovers(g, bc) &&
    forall t: nat, b: nat, k: nat ::
      t < BitmapSectors(g, bc) && b < 512 && k < 8 && BitSlot(t, b, k) !in except ==>
        MapBit(g, bc, d', t, b, k) == MapBit(g, bc, d, t, b, k)
  }

  lemma MapTrans(g: Geometry, bc: seq<nat>, d: Disk, e: Disk, f: Disk, a: set<nat>, b: set<nat>)
    requires MapSame(g, bc, d, e, a) && MapSame(g, bc, e, f, b)
    ensures MapSame(g, bc, d, f, a + b)
  {
    hide Fits, BitmapCovers, BitmapSectors, BitSlot, MapBit;
    forall t: nat, o: nat, k: nat | t < BitmapSectors(g, bc) && o < 512 && k < 8 && BitSlot(t, o, k) !in a + b
      ensures MapBit(g, bc, f, t, o, k) == MapBit(g, bc, d, t, o, k)
    {
      assert MapBit(g, bc, e, t, o, k) == MapBit(g, bc, d, t, o, k);
    }
  }

  /** Bitmap sectors that did not change have the same bits. */
  lemma MapUntouched(g: Geometry, bc: seq<nat>, d: Disk, d': Disk)
    requires Fits(g, |d|) && |d'| == |d| && BitmapCovers(g, bc)
    requires forall t: nat :: t < BitmapSectors(g, bc) ==> d'[BitmapLba(g, |d|, bc, t)] == d[BitmapLba(g, |d|, bc, t)]
    ensures MapSame(g, bc, d, d', {})
  {
    hide Fits, BitmapCovers, BitmapSectors, BitSlot, BitmapLba, BitIn;
  }

  lemma SetFatMap(g: Geometry, bc: seq<nat>, d: Disk, c: nat, v: nat)
    requires Fits(g, |d|) && BitmapCovers(g, bc) && ClusterValid(g, c)
    ensures MapSame(g, bc, d, SetFat(g, d, c, v), {})
  {
    FatInRange(g, |d|, c);
    hide Fits, BitmapCovers, BitmapSectors, BitmapLba, PutLe32, FatLba;
    MapUntouched(g, bc, d, SetFat(g, d, c, v));
  }

  lemma BitmapLbaUnique(g: Geometry, n: nat, bc: seq<nat>, c: nat, t: nat)
    requires Fits(g, n) && g.sectorsPerCluster >= 1 && BitmapCovers(g, bc) && ClusterValid(g, c)
    requires t < BitmapSectors(g, bc)
    requires BitmapLba(g, n, bc, t) == BitLba(g, bc, c)
    ensures t == BitSector(c)
  {
    hide *;
    ClusterValidIs(g, c);
    BitmapLbaIs(g, n, bc, t);
    BitLbaIs(g, bc, c);
    SectorOwner(g, MapCluster(g, bc, t), MapStep(g, t), BitCluster(g, bc, c), MapStep(g, BitSector(c)));
    MapUnique(g, bc, c, t);
  }

  lemma BitmapLbaIs(g: Geometry, n: nat, bc: seq<nat>, t: nat)
    requires Fits(g, n) && g.sectorsPerCluster >= 1 && BitmapCovers(g, bc) && t < BitmapSectors(g, bc)
    ensures BitmapLba(g, n, bc, t) == ClusterLba(g, MapCluster(g, bc, t)) + MapStep(g, t)
  {
    hide Fits, BitmapCovers, ClusterLba, MapCluster, MapStep, BitmapSectors;
  }

  lemma BitLbaIs(g: Geometry, bc: seq<nat>, c: nat)
    requires g.sectorsPerCluster >= 1 && BitmapCovers(g, bc) && ClusterValid(g, c)
    ensures BitLba(g, bc, c) == ClusterLba(g, BitCluster(g, bc, c)) + MapStep(g, BitSector(c))
  {
    hide BitmapCovers, ClusterLba, BitCluster, BitSector;
  }

  lemma MapUnique(g: Geometry, bc: seq<nat>, c: nat, t: nat)
    requires g.sectorsPerCluster >= 1 && BitmapCovers(g, bc) && ClusterValid(g, c) && t < BitmapSectors(g, bc)
    requires MapCluster(g, bc, t) == BitCluster(g, bc, c) && MapStep(g, t) == MapStep(g, BitSector(c))
    ensures t == BitSector(c)
  {
    BitmapSectorIndex(g, bc, t);
    BitClusterIndex(g, bc, c);
    hide BitSector, BitmapSectors, ClusterValid;
    var i, j := t / g.sectorsPerCluster, BitSector(c) / g.sectorsPerCluster;
    assert i == j by { assert bc[i] == bc[j]; }
    hide *;
    SameDivMod(t, BitSector(c), g.sectorsPerCluster);
  }

  lemma BitSlotIs(c: nat, t: nat, b: nat, k: nat)
    requires c >= 2 && t == BitSector(c) && b == BitOff(c) && k == BitPos(c)
    ensures BitSlot(t, b, k) == c
  {
  }

  lemma PutBitMap(g: Geometry, bc: seq<nat>, d: Disk, c: nat, set_: bool)
    requires Fits(g, |d|) && BitmapCovers(g, bc) && ClusterValid(g, c)
    ensures MapSame(g, bc, d, PutBit(g, bc, d, c, set_), {c})
  {
    var d' := PutBit(g, bc, d, c, set_);
    forall t: nat, b: nat, k: nat | t < BitmapSectors(g, bc) && b < 512 && k < 8 && BitSlot(t, b, k) !in {c}
      ensures MapBit(g, bc, d', t, b, k) == MapBit(g, bc, d, t, b, k)
    {
      PutBitMapAt(g, bc, d, c, set_, t, b, k);
    }
    hide *;
    MapSameIs(g, bc, d, d', {c});
  }

  lemma MapSameIs(g: Geometry, bc: seq<nat>, d: Disk, d': Disk, except: set<nat>)
    requires Fits(g, |d|) && |d'| == |d| && BitmapCovers(g, bc)
    requires forall t: nat, b: nat, k: nat ::
               t < BitmapSectors(g, bc) && b < 512 && k < 8 && BitSlot(t, b, k) !in except ==>
                 MapBit(g, bc, d', t, b, k) == MapBit(g, bc, d, t, b, k)
    ensures MapSame(g, bc, d, d', except)
  {
    hide Fits, BitmapCovers, BitmapSectors, BitSlot, MapBit;
  }

  lemma PutBitMapAt(g: Geometry, bc: seq<nat>, d: Disk, c: nat, set_: bool, t: nat, b: nat, k: nat)
    requires Fits(g, |d|) && BitmapCovers(g, bc) && ClusterValid(g, c)
    requires t < BitmapSectors(g, bc) && b < 512 && k < 8 && BitSlot(t, b, k) != c
    ensures MapBit(g, bc, PutBit(g, bc, d, c, set_), t, b, k) == MapBit(g, bc, d, t, b, k)
  {
    hide *;
    SpcPositive(g, |d|);
    ClusterValidIs(g, c);
    BitInRange(g, |d|, bc, c);
    PutBitIs(g, bc, d, c, set_);
    MapBitIs(g, bc, d, t, b, k);
    MapBitIs(g, bc, PutBit(g, bc, d, c, set_), t, b, k);
    if BitmapLba(g, |d|, bc, t) == BitLba(g, bc, c) {
      BitmapLbaUnique(g, |d|, bc, c, t);
      assert b != BitOff(c) || k != BitPos(c) by { if b == BitOff(c) && k == BitPos(c) { BitSlotIs(c, t, b, k); } }
      PatchedBitReads(d[BitLba(g, bc, c)], BitOff(c), BitPos(c), set_, b, k);
    }
  }

  lemma PutBitIs(g: Geometry, bc: seq<nat>, d: Disk, c: nat, set_: bool)
    requires Fits(g, |d|) && BitmapCovers(g, bc) && ClusterValid(g, c) && g.sectorsPerCluster >= 1
    requires BitLba(g, bc, c) < |d| && c >= 2
    ensures PutBit(g, bc, d, c, set_) ==
              d[BitLba(g, bc, c) := PatchedBit(d[BitLba(g, bc, c)], BitOff(c), BitPos(c), set_)]
  {
    hide Fits, BitmapCovers, BitLba, PatchedBit;
  }

  lemma MapBitIs(g: Geometry, bc: seq<nat>, d: Disk, t: nat, b: nat, k: nat)
    requires Fits(g, |d|) && BitmapCovers(g, bc) && t < BitmapSectors(g, bc) && b < 512 && k < 8
    ensures MapBit(g, bc, d, t, b, k) == BitIn(d[BitmapLba(g, |d|, bc, t)][b], k)
  {
    hide Fits, BitmapCovers, BitmapLba, BitmapSectors, BitIn;
  }

  // ---------- both together ----------

  ghost predicate MetaSame(g: Geometry, bc: seq<nat>, d: Disk, d': Disk, except: set<nat>) {
    LowSame(g, d, d', except) && MapSame(g, bc, d, d', except)
  }

  lemma MetaTrans(g: Geometry, bc: seq<nat>, d: Disk, e: Disk, f: Disk, a: set<nat>, b: set<nat>)
    requires MetaSame(g, bc, d, e, a) && MetaSame(g, bc, e, f, b)
    ensures MetaSame(g, bc, d, f, a + b) && Fits(g, |d|) && BitmapCovers(g, bc)
  {
    LowTrans(g, d, e, f, a, b);
    MapTrans(g, bc, d, e, f, a, b);
    hide LowSame, Fits, BitmapCovers;
  }

  lemma MetaRefl(g: Geometry, bc: seq<nat>, d: Disk)
    requires Fits(g, |d|) && BitmapCovers(g, bc)
    ensures MetaSame(g, bc, d, d, {})
  {
    MapUntouched(g, bc, d, d);
    MulLe(0, g.clusterCount, g.sectorsPerCluster);
    hide BitmapCovers, MapSame;
  }

  lemma MarkOneMeta(g: Geometry, bc: seq<nat>, d: Disk, c: nat, set_: bool, v: nat)
    requires Fits(g, |d|) && BitmapCovers(g, bc) && ClusterValid(g, c)
    ensures MetaSame(g, bc, d, SetFat(g, PutBit(g, bc, d, c, set_), c, v), {c})
  {
    hide *;
    var e := PutBit(g, bc, d, c, set_);
    var f := SetFat(g, e, c, v);
    PutBitLow(g, bc, d, c, set_);
    PutBitMap(g, bc, d, c, set_);
    SetFatLow(g, e, c, v);
    SetFatMap(g, bc, e, c, v);
    LowTrans(g, d, e, f, {}, {c});
    MapTrans(g, bc, d, e, f, {c}, {});
    Units({c});
    MetaIs(g, bc, d, f, {c});
  }

  lemma MetaIs(g: Geometry, bc: seq<nat>, d: Disk, d': Disk, except: set<nat>)
    ensures MetaSame(g, bc, d, d', except) == (LowSame(g, d, d', except) && MapSame(g, bc, d, d', except))
  {
    hide LowSame, MapSame;
  }

  lemma {:induction false} MarkChainMeta(g: Geometry, bc: seq<nat>, d: Disk, cs: seq<nat>, n: nat)
    requires Fits(g, |d|) && BitmapCovers(g, bc) && Clusters(g, cs) && n <= |cs|
    ensures MetaSame(g, bc, d, MarkChain(g, bc, d, cs, n), Elements(cs[..n]))
  {
    hide Fits, BitmapCovers, MetaSame, MarkUsed;
    if n == 0 {
      MetaRefl(g, bc, d);
      assert Elements(cs[..0]) == {};
    } else {
      var e, c := MarkChain(g, bc, d, cs, n - 1), cs[n - 1];
      MarkChainMeta(g, bc, d, cs, n - 1);
      MarkOneMeta(g, bc, e, c, true, NextLink(cs, n - 1));
      MarkUsedIs(g, bc, e, c, NextLink(cs, n - 1));
      PrefixElements(cs, n);
      MetaTrans(g, bc, d, e, MarkUsed(g, bc, e, c, NextLink(cs, n - 1)), Elements(cs[..n - 1]), {c});
    }
  }

  lemma {:induction false} ReleaseChainMeta(g: Geometry, bc: seq<nat>, d: Disk, cs: seq<nat>, n: nat)
    requires Fits(g, |d|) && BitmapCovers(g, bc) && Clusters(g, cs) && n <= |cs|
    ensures MetaSame(g, bc, d, ReleaseChain(g, bc, d, cs, n), Elements(cs[..n]))
  {
    hide Fits, BitmapCovers, MetaSame, MarkFree;
    if n == 0 {
      MetaRefl(g, bc, d);
      assert Elements(cs[..0]) == {};
    } else {
      var e, c := ReleaseChain(g, bc, d, cs, n - 1), cs[n - 1];
      ReleaseChainMeta(g, bc, d, cs, n - 1);
      MarkOneMeta(g, bc, e, c, false, 0);
      MarkUsedIs(g, bc, e, c, 0);
      PrefixElements(cs, n);
      MetaTrans(g, bc, d, e, MarkFree(g, bc, e, c), Elements(cs[..n - 1]), {c});
    }
  }

  /** Writing a sector of a cluster outside the bitmap. */
  lemma HeapWriteMeta(g: Geometry, bc: seq<nat>, d: Disk, c: nat, k: nat, s: Sector)
    requires Fits(g, |d|) && BitmapCovers(g, bc) && ClusterValid(g, c) && c !in bc && k < g.sectorsPerCluster
    ensures ClusterLba(g, c) + k < |d| && MetaSame(g, bc, d, d[ClusterLba(g, c) + k := s], {})
  {
    hide *;
    ClusterInHeap(g, |d|, c);
    var d' := d[ClusterLba(g, c) + k := s];
    LowHeapWrite(g, d, ClusterLba(g, c) + k, s);
    forall t: nat | t < BitmapSectors(g, bc) ensures d'[BitmapLba(g, |d|, bc, t)] == d[BitmapLba(g, |d|, bc, t)] {
      BitmapElsewhere(g, |d|, bc, c, k, t);
    }
    MapUntouched(g, bc, d, d');
    MetaIs(g, bc, d, d', {});
  }

  lemma BitmapElsewhere(g: Geometry, n: nat, bc: seq<nat>, c: nat, k: nat, t: nat)
    requires Fits(g, n) && g.sectorsPerCluster >= 1 && BitmapCovers(g, bc) && ClusterValid(g, c) && c !in bc
    requires k < g.sectorsPerCluster
    requires t < BitmapSectors(g, bc)
    ensures BitmapLba(g, n, bc, t) != ClusterLba(g, c) + k
  {
    hide *;
    BitmapLbaIs(g, n, bc, t);
    if BitmapLba(g, n, bc, t) == ClusterLba(g, c) + k {
      SectorOwner(g, MapCluster(g, bc, t), MapStep(g, t), c, k);
    }
  }

  lemma {:induction false} ZeroSectorsMeta(g: Geometry, bc: seq<nat>, d: Disk, c: nat, k: nat)
    requires Fits(g, |d|) && BitmapCovers(g, bc) && ClusterValid(g, c) && c !in bc && k <= g.sectorsPerCluster
    ensures MetaSame(g, bc, d, ZeroSectors(g, d, c, k), {})
  {
    hide Fits, BitmapCovers, MetaSame, ClusterLba, ZeroSector;
    if k == 0 {
      MetaRefl(g, bc, d);
    } else {
      var e := ZeroSectors(g, d, c, k - 1);
      ZeroSectorsMeta(g, bc, d, c, k - 1);
      HeapWriteMeta(g, bc, e, c, k - 1, ZeroSector());
      MetaTrans(g, bc, d, e, ZeroSectors(g, d, c, k), {}, {});
      Units({});
    }
  }

  lemma {:induction false} ZeroClustersMeta(g: Geometry, bc: seq<nat>, d: Disk, cs: seq<nat>, n: nat)
    requires Fits(g, |d|) && BitmapCovers(g, bc) && Clusters(g, cs) && Misses(cs, Elements(bc)) && n <= |cs|
    ensures MetaSame(g, bc, d, ZeroClusters(g, d, cs, n), {})
  {
    hide Fits, BitmapCovers, MetaSame, ZeroSectors;
    if n == 0 {
      MetaRefl(g, bc, d);
    } else {
      var e := ZeroClusters(g, d, cs, n - 1);
      ZeroClustersMeta(g, bc, d, cs, n - 1);
      ZeroSectorsMeta(g, bc, e, cs[n - 1], g.sectorsPerCluster);
      MetaTrans(g, bc, d, e, ZeroClusters(g, d, cs, n), {}, {});
      Units({});
    }
  }

  lemma AllocMeta(g: Geometry, bc: seq<nat>, d: Disk, run: seq<nat>)
    requires Fits(g, |d|) && BitmapCovers(g, bc) && Clusters(g, run) && Misses(run, Elements(bc))
    ensures MetaSame(g, bc, d, AllocDisk(g, bc, d, run), Elements(run))
  {
    hide Fits, BitmapCovers, Clusters, Misses, MetaSame, MarkChain, ZeroClusters;
    var e := ZeroClusters(g, d, run, |run|);
    assert run[..|run|] == run;
    ZeroClustersMeta(g, bc, d, run, |run|);
    MarkChainMeta(g, bc, e, run, |run|);
    MetaTrans(g, bc, d, e, AllocDisk(g, bc, d, run), {}, Elements(run));
    Units(Elements(run));
  }

  lemma FreeMeta(g: Geometry, bc: seq<nat>, d: Disk, run: seq<nat>)
    requires Fits(g, |d|) && BitmapCovers(g, bc) && Clusters(g, run) && Misses(run, Elements(bc))
    ensures MetaSame(g, bc, d, FreeDisk(g, bc, d, run), Elements(run))
  {
    hide Fits, BitmapCovers, Clusters, Misses, MetaSame, ReleaseChain, ZeroClusters;
    var e := ReleaseChain(g, bc, d, run, |run|);
    assert run[..|run|] == run;
    ReleaseChainMeta(g, bc, d, run, |run|);
    ZeroClustersMeta(g, bc, e, run, |run|);
    MetaTrans(g, bc, d, e, FreeDisk(g, bc, d, run), Elements(run), {});
    Units(Elements(run));
  }

  lemma RootWriteMeta(L: Layout, d: Disk, lba: nat, t: Sector)
    requires LayoutOk(L, |d|) && InRoot(L, |d|, lba)
    ensures lba < |d| && MetaSame(L.g, L.bc, d, d[lba := t], {})
  {
    hide *;
    LayoutParts(L, |d|);
    var c, k := RootSector(L, |d|, lba);
    HeapWriteMeta(L.g, L.bc, d, c, k, t);
  }

  // ---------- clusters that were free and are free again ----------

  lemma ZeroEntry(t: Sector, o: nat, b: nat)
    requires o + 4 <= 512 && Le32(t, o) == 0 && o <= b < o + 4
    ensures t[b] == 0
  {
    var s := t[o..o + 4];
    LeValueInverse(s);
    ZeroBytes();
    assert s[b - o] == 0;
  }

  lemma ZeroBytes()
    ensures LeBytes(0, 4) == [0, 0, 0, 0]
  {
    assert LeBytes(0, 1) == [0];
    assert LeBytes(0, 2) == [0, 0];
    assert LeBytes(0, 3) == [0, 0, 0];
  }

  lemma ByteFromBits(a: Byte, b: Byte)
    requires forall k: nat :: k < 8 ==> BitIn(a, k) == BitIn(b, k)
    ensures a == b
  {
    hide Mask;
    Masks();
    assert BitIn(a, 0) == BitIn(b, 0) && BitIn(a, 1) == BitIn(b, 1) && BitIn(a, 2) == BitIn(b, 2)
    && BitIn(a, 3) == BitIn(b, 3);
    assert BitIn(a, 4) == BitIn(b, 4) && BitIn(a, 5) == BitIn(b, 5) && BitIn(a, 6) == BitIn(b, 6)
    && BitIn(a, 7) == BitIn(b, 7);
    BitsDecide(a, b);
  }

  lemma Masks()
    ensures Mask(0) == 1 && Mask(1) == 2 && Mask(2) == 4 && Mask(3) == 8
    ensures Mask(4) == 16 && Mask(5) == 32 && Mask(6) == 64 && Mask(7) == 128
  {
  }

  lemma BitsDecide(a: Byte, b: Byte)
    requires (a & 1 != 0) == (b & 1 != 0) && (a & 2 != 0) == (b & 2 != 0) && (a & 4 != 0) == (b & 4 != 0)
    requires (a & 8 != 0) == (b & 8 != 0)
    requires (a & 16 != 0) == (b & 16 != 0) && (a & 32 != 0) == (b & 32 != 0) && (a & 64 != 0) == (b & 64 != 0)
    requires (a & 128 != 0) == (b & 128 != 0)
    ensures a == b
  {
  }

  /** Where only free clusters' entries may differ, every sector before the heap is the same. */
  lemma LowRestored(g: Geometry, d: Disk, d': Disk, S: set<nat>, lba: nat)
    requires Fits(g, |d|) && LowSame(g, d, d', S) && lba < g.heapOffset
    requires forall c :: c in S ==> ClusterValid(g, c) && FatAt(g, d, c) == 0 && FatAt(g, d', c) == 0
    ensures d'[lba] == d[lba]
  {
    hide FatAt, Fits;
    forall b: nat | b < 512 ensures d'[lba][b] == d[lba][b] {
      if lba >= g.fatOffset && FatSlot(g, lba, b) in S {
        FatByteZero(g, d, lba, b);
        FatByteZero(g, d', lba, b);
      }
    }
  }

  lemma FatByteZero(g: Geometry, d: Disk, lba: nat, b: nat)
    requires Fits(g, |d|) && g.fatOffset <= lba < |d| && b < 512
    requires ClusterValid(g, FatSlot(g, lba, b)) && FatAt(g, d, FatSlot(g, lba, b)) == 0
    ensures d[lba][b] == 0
  {
    hide Fits, Le32;
    var c := FatSlot(g, lba, b);
    FatInRange(g, |d|, c);
    assert FatLba(g, c) == lba && FatOff(c) <= b < FatOff(c) + 4;
    ZeroEntry(d[lba], FatOff(c), b);
  }

  lemma MapRestored(g: Geometry, bc: seq<nat>, d: Disk, d': Disk, S: set<nat>, t: nat)
    requires MapSame(g, bc, d, d', S) && t < BitmapSectors(g, bc)
    requires forall c :: c in S ==> ClusterValid(g, c) && !BitAt(g, bc, d, c) && !BitAt(g, bc, d', c)
    ensures d'[BitmapLba(g, |d|, bc, t)] == d[BitmapLba(g, |d|, bc, t)]
  {
    var l := BitmapLba(g, |d|, bc, t);
    forall b: nat | b < 512 ensures d'[l][b] == d[l][b] {
      MapByteRestored(g, bc, d, d', S, t, b);
    }
  }

  lemma MapByteRestored(g: Geometry, bc: seq<nat>, d: Disk, d': Disk, S: set<nat>, t: nat, b: nat)
    requires MapSame(g, bc, d, d', S) && t < BitmapSectors(g, bc) && b < 512
    requires forall c :: c in S ==> ClusterValid(g, c) && !BitAt(g, bc, d, c) && !BitAt(g, bc, d', c)
    ensures d'[BitmapLba(g, |d|, bc, t)][b] == d[BitmapLba(g, |d|, bc, t)][b]
  {
    hide Fits, BitmapCovers, BitAt, BitIn, BitmapLba, BitmapSectors, BitSlot;
    var l := BitmapLba(g, |d|, bc, t);
    forall k: nat | k < 8 ensures BitIn(d'[l][b], k) == BitIn(d[l][b], k) {
      if BitSlot(t, b, k) in S {
        SlotBit(g, bc, d, t, b, k);
        SlotBit(g, bc, d', t, b, k);
      } else {
        assert MapBit(g, bc, d', t, b, k) == MapBit(g, bc, d, t, b, k);
      }
    }
    ByteFromBits(d'[l][b], d[l][b]);
  }

  /** The bit in slot `(t, b, k)` is the bit of the slot's cluster. */
  lemma SlotBit(g: Geometry, bc: seq<nat>, d: Disk, t: nat, b: nat, k: nat)
    requires Fits(g, |d|) && BitmapCovers(g, bc) && t < BitmapSectors(g, bc) && b < 512 && k < 8
    requires ClusterValid(g, BitSlot(t, b, k))
    ensures BitAt(g, bc, d, BitSlot(t, b, k)) == BitIn(d[BitmapLba(g, |d|, bc, t)][b], k)
  {
    hide *;
    SlotParts(t, b, k);
    var c := BitSlot(t, b, k);
    SpcBounds(g, |d|);
    BitAtIs(g, bc, d, c);
    SlotLba(g, |d|, bc, c, t);
  }

  lemma BitAtIs(g: Geometry, bc: seq<nat>, d: Disk, c: nat)
    requires Fits(g, |d|) && BitmapCovers(g, bc) && ClusterValid(g, c) && g.sectorsPerCluster >= 1
    ensures BitLba(g, bc, c) < |d| && BitAt(g, bc, d, c) == BitIn(d[BitLba(g, bc, c)][BitOff(c)], BitPos(c))
  {
    BitInRange(g, |d|, bc, c);
    hide Fits, BitmapCovers, BitIn, BitLba, BitOff, BitPos;
  }

  lemma SlotLba(g: Geometry, n: nat, bc: seq<nat>, c: nat, t: nat)
    requires Fits(g, n) && BitmapCovers(g, bc) && ClusterValid(g, c) && g.sectorsPerCluster >= 1
    requires t < BitmapSectors(g, bc) && BitSector(c) == t
    ensures BitmapLba(g, n, bc, t) == BitLba(g, bc, c)
  {
    hide Fits, BitmapCovers, BitSector, ClusterLba;
  }

  lemma SlotParts(t: nat, b: nat, k: nat)
    requires b < 512 && k < 8
    ensures var c := BitSlot(t, b, k); c >= 2 && BitSector(c) == t && BitOff(c) == b && BitPos(c) == k
  {
  }

  // ---------- the theorem ----------

  lemma FreshIsFree(L: Layout, s: State, run: seq<nat>, c: nat)
    requires Ok(L, s) && FreshRun(L, s, run) && c in run
    ensures Fits(L.g, |s.disk|) && BitmapCovers(L.g, L.bc) && ClusterValid(L.g, c)
    ensures !BitAt(L.g, L.bc, s.disk, c) && FatAt(L.g, s.disk, c) == 0
  {
    OkParts(L, s);
    hide Ok, BaseOk, LayoutOk, TableOk, AddedOk, Fits, BitmapCovers, BitAt, FatAt;
  }

  lemma FreedIsFree(g: Geometry, bc: seq<nat>, d: Disk, run: seq<nat>, c: nat)
    requires Fits(g, |d|) && BitmapCovers(g, bc) && Clusters(g, run) && Misses(run, Elements(bc)) && c in run
    ensures ClusterValid(g, c) && !BitAt(g, bc, FreeDisk(g, bc, d, run), c) && FatAt(g, FreeDisk(g, bc, d, run), c) == 0
  {
    hide Fits, BitmapCovers, Misses, Changes, ReleaseChain, ZeroClusters, BitAt, FatAt;
    var e := ReleaseChain(g, bc, d, run, |run|);
    var i :| 0 <= i < |run| && run[i] == c;
    ReleaseChainFrees(g, bc, d, run, |run|, i);
    ZeroClustersChanges(g, bc, e, run, |run|);
    BitsSameAt(g, bc, e, FreeDisk(g, bc, d, run), {}, {}, Elements(run[..|run|]), c);
    FatSameAt(g, bc, e, FreeDisk(g, bc, d, run), {}, {}, Elements(run[..|run|]), c);
  }

  /** Where the new row of a create points. */
  lemma CreatedRow(L: Layout, s: State, path: string, n: nat, run: seq<nat>, slot: nat)
    requires CanCreate(L, s, path, n, run, slot) && |s.table| < MAX_ENTRIES
    ensures CreateShape(L, s, path, run, slot) && AllocShape(L, s, run) && SlotPlace(L, |s.disk|, slot)
    ensures Fits(L.g, |s.disk|) && Clusters(L.g, L.rc) && slot / 16 < RootSectors(L)
    ensures var a, lba, off := AllocState(L, s, run), RootLba(L, |s.disk|, slot / 16), slot % 16 * 32;
            var s' := CreateState(L, s, path, run, slot);
            && lba < |s.disk| == |a.disk| && off + 96 <= 512 && |s'.disk| == |s.disk|
               && s'.disk == a.disk[lba := s'.disk[lba]]
            && LayoutOk(L, |s.disk|) && InRoot(L, |s.disk|, lba) && BitmapCovers(L.g, L.bc) && Clusters(L.g, run)
            && a.disk == AllocDisk(L.g, L.bc, s.disk, run)
            && |s'.table| == |s.table| + 1 == |s'.chains| && s'.chains[|s.table|] == run
            && s'.table[|s.table|].dirLba == lba && s'.table[|s.table|].dirOff == off && s'.table[|s.table|].writable
  {
    hide *;
    OkPartsOf(L, s, path, n, run, slot);
    CanCreateRun(L, s, path, n, run, slot);
    CanCreatePlace(L, s, path, n, run, slot);
    CreateFits(L, s, path, n, run, slot);
    CreateIs(L, s, path, run, slot);
    AllocParts(L, s, run);
    SlotPlaceIs(L, |s.disk|, slot);
    var a, lba, off := AllocState(L, s, run), RootLba(L, |s.disk|, slot / 16), slot % 16 * 32;
    OrphanParts(a, lba, off, path[1..], run);
    EnterIs(L, a, lba, off, path[1..], run);
    NewEntryIs(L, lba, off, path[1..], run);
  }

  lemma OkPartsOf(L: Layout, s: State, path: string, n: nat, run: seq<nat>, slot: nat)
    requires CanCreate(L, s, path, n, run, slot)
    ensures |s.table| == |s.chains|
  {
    hide *;
    CanCreateRun(L, s, path, n, run, slot);
    OkParts(L, s);
  }

  /** The disk after create and unlink differs from the first one only in entries and bits of the run. */
  lemma RoundTripMeta(L: Layout, s: State, path: string, n: nat, run: seq<nat>, slot: nat)
    requires CanCreate(L, s, path, n, run, slot) && |s.table| < MAX_ENTRIES && CreateShape(L, s, path, run, slot)
    ensures var s' := CreateState(L, s, path, run, slot);
            && UnlinkShape(L, s', |s.table|) && Ok(L, s') && Fits(L.g, |s.disk|) && BitmapCovers(L.g, L.bc)
            && var d := UnlinkState(L, s', |s.table|).disk;
               && |d| == |s.disk| && MetaSame(L.g, L.bc, s.disk, d, Elements(run))
               && forall c :: c in Elements(run) ==>
                    ClusterValid(L.g, c) && !BitAt(L.g, L.bc, d, c) && FatAt(L.g, d, c) == 0
  {
    hide *;
    CreateStateOk(L, s, path, n, run, slot);
    CreatedRow(L, s, path, n, run, slot);
    CanCreateRun(L, s, path, n, run, slot);
    FreshOutside(L, s, run);
    var i, s' := |s.table|, CreateState(L, s, path, run, slot);
    var lba := RootLba(L, |s.disk|, slot / 16);
    var a := AllocState(L, s, run);
    UnlinkParts(L, s', i);
    UnlinkIs(L, s', i);
    UnlistIs(s', i);
    var u := UnlistDisk(s', i);
    var d := UnlinkState(L, s', i).disk;
    AllocMeta(L.g, L.bc, s.disk, run);
    RootWriteMeta(L, a.disk, lba, s'.disk[lba]);
    RootWriteMeta(L, s'.disk, lba, u[lba]);
    assert u == s'.disk[lba := u[lba]];
    FreeMeta(L.g, L.bc, u, run);
    MetaTrans(L.g, L.bc, s.disk, a.disk, s'.disk, Elements(run), {});
    MetaTrans(L.g, L.bc, s.disk, s'.disk, u, Elements(run) + {}, {});
    MetaTrans(L.g, L.bc, s.disk, u, d, Elements(run) + {} + {}, Elements(run));
    Units(Elements(run));
    forall c | c in Elements(run) ensures ClusterValid(L.g, c) && !BitAt(L.g, L.bc, d, c) && FatAt(L.g, d, c) == 0 {
      FreedIsFree(L.g, L.bc, u, run, c);
    }
  }

  /** Create, then unlink of the same file: the unlink always fits its transaction, every sector before the heap and
      every sector of the bitmap is back to what it was, and the three directory slots are free again. */
  lemma CreateThenUnlink(L: Layout, s: State, path: string, n: nat, run: seq<nat>, slot: nat)
    requires CanCreate(L, s, path, n, run, slot) && |s.table| < MAX_ENTRIES
    ensures CreateShape(L, s, path, run, slot)
    ensures var s' := CreateState(L, s, path, run, slot);
            && Ok(L, s') && |s'.table| == |s.table| + 1 && LookupPath(s'.table, path) == Some(|s.table|)
               && s'.table[|s.table|].writable
            && UnlinkShape(L, s', |s.table|) && UnlinkFits(L, s', |s.table|)
            && Fits(L.g, |s.disk|) && BitmapCovers(L.g, L.bc) && L.g.heapOffset <= |s.disk|
            && var t := UnlinkState(L, s', |s.table|);
               && Ok(L, t) && |t.disk| == |s.disk|
               && (forall l: nat :: l < L.g.heapOffset ==> t.disk[l] == s.disk[l])
               && (forall k: nat :: k < BitmapSectors(L.g, L.bc) ==>
                     t.disk[BitmapLba(L.g, |s.disk|, L.bc, k)] == s.disk[BitmapLba(L.g, |s.disk|, L.bc, k)])
               && s'.table[|s.table|].dirLba < |t.disk|
                  && SlotsFree(t.disk[s'.table[|s.table|].dirLba], s'.table[|s.table|].dirOff)
  {
    hide *;
    CanCreateRun(L, s, path, n, run, slot);
    NewRowFound(L, s, path, n, run, slot);
    RoundTripMeta(L, s, path, n, run, slot);
    UnlinkAlwaysFits(L, s, path, n, run, slot);
    var s' := CreateState(L, s, path, run, slot);
    var i := |s.table|;
    UnlinkStateOk(L, s', i);
    var t := UnlinkState(L, s', i);
    MetaIs(L.g, L.bc, s.disk, t.disk, Elements(run));
    LowIs(L.g, s.disk, t.disk, Elements(run));
    forall c | c in Elements(run)
      ensures ClusterValid(L.g, c) && !BitAt(L.g, L.bc, s.disk, c) && FatAt(L.g, s.disk, c) == 0
    {
      FreshIsFree(L, s, run, c);
    }
    forall l: nat | l < L.g.heapOffset ensures t.disk[l] == s.disk[l] {
      LowRestored(L.g, s.disk, t.disk, Elements(run), l);
    }
    forall k: nat | k < BitmapSectors(L.g, L.bc)
      ensures t.disk[BitmapLba(L.g, |s.disk|, L.bc, k)] == s.disk[BitmapLba(L.g, |s.disk|, L.bc, k)]
    {
      MapRestored(L.g, L.bc, s.disk, t.disk, Elements(run), k);
    }
    SlotsFreeAgain(L, s', i);
  }

  lemma LowIs(g: Geometry, d: Disk, d': Disk, except: set<nat>)
    requires LowSame(g, d, d', except)
    ensures |d'| == |d| && g.heapOffset <= |d|
  {
  }

  /** An unextended file occupies consecutive clusters, so its release fits with the directory sector. */
  lemma UnlinkAlwaysFits(L: Layout, s: State, path: string, n: nat, run: seq<nat>, slot: nat)
    requires CanCreate(L, s, path, n, run, slot) && |s.table| < MAX_ENTRIES && CreateShape(L, s, path, run, slot)
    requires Ok(L, CreateState(L, s, path, run, slot)) && UnlinkShape(L, CreateState(L, s, path, run, slot), |s.table|)
    ensures UnlinkFits(L, CreateState(L, s, path, run, slot), |s.table|)
  {
    hide *;
    CanCreateRun(L, s, path, n, run, slot);
    CreatedRow(L, s, path, n, run, slot);
    SpcPositive(L.g, |s.disk|);
    var s' := CreateState(L, s, path, run, slot);
    UnlinkFitsIs(L, s', |s.table|);
    var lba := s'.table[|s.table|].dirLba;
    BudgetPlusOne(L.g, L.bc, run[0], |run|, lba);
    var m := MetaSectors(L.g, L.bc, run, |run|);
    assert {lba} + m == m + {lba};
  }

  lemma SlotsFreeAgain(L: Layout, s: State, i: nat)
    requires Ok(L, s) && i < |s.table| && s.table[i].writable && UnlinkShape(L, s, i)
    ensures var t := UnlinkState(L, s, i);
            s.table[i].dirLba < |t.disk| && SlotsFree(t.disk[s.table[i].dirLba], s.table[i].dirOff)
  {
    hide *;
    UnlinkParts(L, s, i);
    UnlinkIs(L, s, i);
    UnlistIs(s, i);
    ChainOutside(L, s, i);
    RootBitmapApart(L, |s.disk|);
    var e, u, t := s.table[i], UnlistDisk(s, i), UnlinkState(L, s, i);
    DeletedFree(s.disk[e.dirLba], e.dirOff);
    FreeDiskChanges(L.g, L.bc, u, s.chains[i]);
    var data := Elements(L.bc) + Elements(s.chains[i]);
    ChangesFat(L.g, L.bc, u, t.disk, Elements(s.chains[i]), Elements(s.chains[i]), data);
    var c, k := RootSector(L, |s.disk|, e.dirLba);
    SectorFrame(L.g, u, t.disk, data, c, e.dirLba);
  }

  lemma DeletedFree(t: Sector, off: nat)
    requires off % 32 == 0 && off + 96 <= 512
    ensures SlotsFree(Deleted(t, off, 3), off)
  {
    hide Deleted;
    ClearedMark(t[off]);
    ClearedMark(t[off + 32]);
    ClearedMark(t[off + 64]);
  }

  lemma ClearedMark(b: Byte)
    ensures !SlotUsed(b & 0x7f)
  {
  }

  // ---------- extended files ----------

  lemma MetaHolds(g: Geometry, bc: seq<nat>, cs: seq<nat>, n: nat, i: nat)
    requires g.sectorsPerCluster >= 1 && BitmapCovers(g, bc) && Clusters(g, cs) && i < n <= |cs|
    ensures BitLba(g, bc, cs[i]) in MetaSectors(g, bc, cs, n) && FatLba(g, cs[i]) in MetaSectors(g, bc, cs, n)
    decreases n
  {
    hide BitmapCovers, BitLba, FatLba;
    if i < n - 1 { MetaHolds(g, bc, cs, n - 1, i); }
  }

  /** A file extended into three FAT sectors and two bitmap sectors cannot be unlinked: five sectors of metadata do not
      fit the transaction. An unextended file never gets there. */
  lemma ScatteredUnlinkFails(L: Layout, s: State, i: nat)
    requires Ok(L, s) && i < |s.table| == |s.chains| && s.table[i].writable && |s.chains[i]| == 3
    requires Fits(L.g, |s.disk|) && L.g.sectorsPerCluster >= 1 && BitmapCovers(L.g, L.bc) && Clusters(L.g, s.chains[i])
    requires var ch := s.chains[i];
             && FatLba(L.g, ch[0]) != FatLba(L.g, ch[1]) && FatLba(L.g, ch[0]) != FatLba(L.g, ch[2])
                && FatLba(L.g, ch[1]) != FatLba(L.g, ch[2])
             && BitLba(L.g, L.bc, ch[0]) != BitLba(L.g, L.bc, ch[1])
    ensures !UnlinkFits(L, s, i)
  {
    hide *;
    UnlinkParts(L, s, i);
    UnlinkFitsIs(L, s, i);
    var ch, g := s.chains[i], L.g;
    ThreeValid(g, ch);
    var all := {s.table[i].dirLba} + MetaSectors(g, L.bc, ch, 3);
    var five := {FatLba(g, ch[0]), FatLba(g, ch[1]), FatLba(g, ch[2]), BitLba(g, L.bc, ch[0]), BitLba(g, L.bc, ch[1])};
    MetaHolds(g, L.bc, ch, 3, 0);
    MetaHolds(g, L.bc, ch, 3, 1);
    MetaHolds(g, L.bc, ch, 3, 2);
    FatBelowHeap(g, |s.disk|, L.bc, ch[0]);
    FatBelowHeap(g, |s.disk|, L.bc, ch[1]);
    FatBelowHeap(g, |s.disk|, L.bc, ch[2]);
    FiveApart(FatLba(g, ch[0]), FatLba(g, ch[1]), FatLba(g, ch[2]), BitLba(g, L.bc, ch[0]), BitLba(g, L.bc, ch[1]),
              five);
    SubsetCount(five, all);
    PlusOne({}, 0);
  }

  lemma ThreeValid(g: Geometry, ch: seq<nat>)
    requires Clusters(g, ch) && |ch| == 3
    ensures ClusterValid(g, ch[0]) && ClusterValid(g, ch[1]) && ClusterValid(g, ch[2])
  {
  }

  lemma FatBelowHeap(g: Geometry, n: nat, bc: seq<nat>, c: nat)
    requires Fits(g, n) && g.sectorsPerCluster >= 1 && BitmapCovers(g, bc) && ClusterValid(g, c)
    ensures FatLba(g, c) < g.heapOffset <= BitLba(g, bc, c)
  {
    hide Fits, FatLba, BitLba, BitmapCovers;
    FatInRange(g, n, c);
    BitInRange(g, n, bc, c);
  }

  lemma FiveApart(a: nat, b: nat, c: nat, x: nat, y: nat, s: set<nat>)
    requires a != b && a != c && b != c && x != y && a < x && b < x && c < x && a < y && b < y && c < y
    requires s == {a, b, c, x, y}
    ensures |s| == 5
  {
    assert |{a, b, c}| == 3;
    assert s == {a, b, c} + {x} + {y};
  }
}
