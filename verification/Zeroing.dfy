/** Every cluster that create or extend adds, and every cluster that unlink gives back, holds only zero bytes. */
module Zeroing {
  import opened Bytes
  import opened Volume
  import opened Frames
  import opened Chains
  import opened Allocation
  import opened EntrySet
  import opened FileSystem
  import opened FileOps
  import opened Search
  import opened CreateUnlink
  import opened CreateSpec

  /** Every byte of the cluster is zero. */
  ghost predicate ZeroData(g: Geometry, d: Disk, c: nat) {
    && Fits(g, |d|) && ClusterValid(g, c) && ClusterLba(g, c) + g.sectorsPerCluster <= |d|
    && forall lba: nat, o: nat :: ClusterLba(g, c) <= lba < ClusterLba(g, c) + g.sectorsPerCluster && o < 512
         ==> d[lba][o] == 0
  }

  lemma {:induction false} ZeroSectorsAt(g: Geometry, d: Disk, c: nat, k: nat, lba: nat)
    requires Fits(g, |d|) && ClusterValid(g, c) && k <= g.sectorsPerCluster && lba < |d|
    ensures ZeroSectors(g, d, c, k)[lba]
         == if ClusterLba(g, c) <= lba < ClusterLba(g, c) + k then ZeroSector() else d[lba]
  {
    hide Fits, ClusterLba, ZeroSector;
    ClusterInHeap(g, |d|, c);
    if k == 0 {
    } else {
      ZeroSectorsAt(g, d, c, k - 1, lba);
    }
  }

  lemma {:induction false} ZeroClustersAt(g: Geometry, d: Disk, cs: seq<nat>, n: nat, i: nat, lba: nat)
    requires Fits(g, |d|) && Clusters(g, cs) && i < n <= |cs| && ClusterValid(g, cs[i]) && lba < |d|
    requires ClusterLba(g, cs[i]) <= lba < ClusterLba(g, cs[i]) + g.sectorsPerCluster
    ensures ZeroClusters(g, d, cs, n)[lba] == ZeroSector()
  {
    hide Fits, ClusterLba, ZeroSector, ZeroSectors;
    ZeroSectorsAt(g, ZeroClusters(g, d, cs, n - 1), cs[n - 1], g.sectorsPerCluster, lba);
    if i < n - 1 {
      ZeroClustersAt(g, d, cs, n - 1, i, lba);
    }
  }

  lemma ZeroDataFrom(g: Geometry, d: Disk, cs: seq<nat>, i: nat)
    requires Fits(g, |d|) && Clusters(g, cs) && i < |cs|
    ensures ZeroData(g, ZeroClusters(g, d, cs, |cs|), cs[i])
  {
    hide Fits, ClusterLba, ZeroClusters;
    var c, d' := cs[i], ZeroClusters(g, d, cs, |cs|);
    ClusterInHeap(g, |d|, c);
    forall lba: nat, o: nat | ClusterLba(g, c) <= lba < ClusterLba(g, c) + g.sectorsPerCluster && o < 512
      ensures d'[lba][o] == 0
    {
      ZeroClustersAt(g, d, cs, |cs|, i, lba);
    }
  }

  /** Changes outside the cluster leave it zero. */
  lemma ZeroDataStays(g: Geometry, bc: seq<nat>, d: Disk, d': Disk, fats: set<nat>, bits: set<nat>, data: set<nat>,
                      c: nat)
    requires Changes(g, bc, d, d', fats, bits, data) && ZeroData(g, d, c) && c !in data
    ensures ZeroData(g, d', c)
  {
    ChangesFat(g, bc, d, d', fats, bits, data);
    hide Changes, FatSame, DataSame, Fits, ClusterLba;
    forall lba: nat, o: nat | ClusterLba(g, c) <= lba < ClusterLba(g, c) + g.sectorsPerCluster && o < 512
      ensures d'[lba][o] == 0
    {
      SectorFrame(g, d, d', data, c, lba);
    }
  }

  lemma AllocZeroes(L: Layout, s: State, run: seq<nat>, c: nat)
    requires Ok(L, s) && FreshRun(L, s, run) && c in run
    ensures AllocShape(L, s, run) && ZeroData(L.g, AllocState(L, s, run).disk, c)
  {
    hide *;
    AllocParts(L, s, run);
    FreshOutside(L, s, run);
    AllocDiskIs(L.g, L.bc, s.disk, run);
    var i :| 0 <= i < |run| && run[i] == c;
    ZeroDataFrom(L.g, s.disk, run, i);
    var e := ZeroClusters(L.g, s.disk, run, |run|);
    MarkChainChanges(L.g, L.bc, e, run, |run|);
    ZeroDataStays(L.g, L.bc, e, AllocState(L, s, run).disk, Elements(run[..|run|]), Elements(run[..|run|]),
                  Elements(L.bc), c);
  }

  lemma OrphanDiskIs(s: State, lba: nat, off: nat, name: string, run: seq<nat>) returns (t: Sector)
    requires EnterShape(s, lba, off, name, run)
    ensures lba < |s.disk| && OrphanState(s, lba, off, name, run).disk == s.disk[lba := t]
  {
    hide EncodedSet;
    t := Splice(s.disk[lba], off, EncodedSet(name, run[0], 0));
  }

  /** A created file starts with clusters of zeros, with a row or, when the table was full, without one. */
  lemma CreateZeroes(L: Layout, s: State, path: string, n: nat, run: seq<nat>, slot: nat, c: nat)
    requires CanCreate(L, s, path, n, run, slot) && c in run
    ensures CreateShape(L, s, path, run, slot)
    ensures ZeroData(L.g, CreateState(L, s, path, run, slot).disk, c)
    ensures ZeroData(L.g, LeakState(L, s, path, run, slot).disk, c)
  {
    hide *;
    CanCreateRun(L, s, path, n, run, slot);
    CanCreatePlace(L, s, path, n, run, slot);
    CreateFits(L, s, path, n, run, slot);
    CreateIs(L, s, path, run, slot);
    FreshOutside(L, s, run);
    AllocParts(L, s, run);
    AllocZeroes(L, s, run, c);
    var a, lba, off := AllocState(L, s, run), RootLba(L, |s.disk|, slot / 16), slot % 16 * 32;
    EnterIs(L, a, lba, off, path[1..], run);
    var t := OrphanDiskIs(a, lba, off, path[1..], run);
    RootWriteChanges(L, a.disk, lba, t);
    ZeroDataStays(L.g, L.bc, a.disk, a.disk[lba := t], {}, {}, Elements(L.rc), c);
  }

  /** The clusters an extension adds hold zeros. */
  lemma ExtendZeroes(L: Layout, s: State, i: nat, more: seq<nat>, c: nat)
    requires CanExtend(L, s, i, more) && c in more
    ensures ExtendShape(L, s, i, more) && ZeroData(L.g, ExtendState(L, s, i, more).disk, c)
  {
    hide *;
    CanExtendIs(L, s, i, more);
    FreshOutside(L, s, more);
    ExtendDiskIs(L, s, i, more);
    LinksNonZero(L.g, more);
    ClusterFits32(L.g, |s.disk|, more[0]);
    var k :| 0 <= k < |more| && more[k] == c;
    ZeroDataFrom(L.g, s.disk, more, k);
    var e := ZeroClusters(L.g, s.disk, more, |more|);
    var f := SetFat(L.g, e, Last(s.chains[i]), more[0]);
    SetFatChanges(L.g, L.bc, e, Last(s.chains[i]), more[0]);
    ZeroDataStays(L.g, L.bc, e, f, {Last(s.chains[i])}, {}, {}, c);
    MarkChainChanges(L.g, L.bc, f, more, |more|);
    ZeroDataStays(L.g, L.bc, f, ExtendState(L, s, i, more).disk, Elements(more[..|more|]), Elements(more[..|more|]),
                  Elements(L.bc), c);
  }

  /** An unlinked file leaves no byte behind in its clusters. */
  lemma UnlinkZeroes(L: Layout, s: State, i: nat, c: nat)
    requires Ok(L, s) && i < |s.table| == |s.chains| && s.table[i].writable && c in s.chains[i]
    ensures UnlinkShape(L, s, i) && ZeroData(L.g, UnlinkState(L, s, i).disk, c)
  {
    hide *;
    UnlinkParts(L, s, i);
    UnlinkIs(L, s, i);
    var ch, d := s.chains[i], UnlistDisk(s, i);
    FreeDiskIs(L.g, L.bc, d, ch);
    var k :| 0 <= k < |ch| && ch[k] == c;
    ZeroDataFrom(L.g, ReleaseChain(L.g, L.bc, d, ch, |ch|), ch, k);
  }
}
