/** Facts about the specification that the methods of the mounted volume rely on. */
module MountProofs {
  import opened Bytes
  import opened Arithmetic
  import opened Volume
  import opened Frames
  import opened Chains
  import opened Allocation
  import opened Options
  import opened Paths
  import opened EntrySet
  import opened Transaction
  import opened FileSystem
  import opened FileOps
  import opened CreateUnlink
  import opened Edits
  import opened Search
  import opened CreateSpec
  import opened WriteSpec
  import opened FileView

  // ---------- arithmetic of positions ----------

  /** A byte position split by cluster size is its sector number split by sectors per cluster. */
  lemma SplitPosition(p: nat, spc: nat)
    requires spc >= 1
    ensures spc * 512 > 0
    ensures p / (spc * 512) == p / 512 / spc
    ensures p % (spc * 512) / 512 == p / 512 % spc
    ensures p % (spc * 512) % 512 == p % 512
  {
    var t := p / 512;
    var a, b := t / spc, t % spc;
    assert t == a * spc + b;
    var r := b * 512 + p % 512;
    assert r < spc * 512;
    assert p == a * (spc * 512) + r by {
      assert (a * spc) * 512 == a * (spc * 512);
    }
    DivModUnique(p, spc * 512, a, r);
  }

  /** The cluster number, the sector in it and the byte in that sector of a stream position. */
  function ClusterIndexOf(g: Geometry, p: nat): (i: nat)
    requires g.sectorsPerCluster >= 1
  {
    DivNatural(p, g.sectorsPerCluster * 512);
    p / (g.sectorsPerCluster * 512)
  }

  function SectorIndexOf(g: Geometry, p: nat): (i: nat)
    requires g.sectorsPerCluster >= 1
  {
    p % (g.sectorsPerCluster * 512) / 512
  }

  function SectorOffsetOf(g: Geometry, p: nat): (o: nat)
    requires g.sectorsPerCluster >= 1
    ensures o < 512
  {
    p % (g.sectorsPerCluster * 512) % 512
  }

  lemma PositionFormulas(g: Geometry, p: nat)
    requires g.sectorsPerCluster >= 1
    ensures ClusterIndexOf(g, p) == p / 512 / g.sectorsPerCluster
    ensures SectorIndexOf(g, p) == p / 512 % g.sectorsPerCluster < g.sectorsPerCluster
    ensures SectorOffsetOf(g, p) == p % 512
  {
    SplitPosition(p, g.sectorsPerCluster);
  }

  // ---------- cluster resolution ----------

  /** The cluster that holds cluster number `index` of a stream. */
  ghost function Resolved(g: Geometry, d: Disk, first: nat, flags: Byte, index: nat): (r: Option<nat>)
    requires Fits(g, |d|)
    ensures r.Some? ==> ClusterValid(g, r.value)
  {
    if !ClusterValid(g, first) then None
    else if flags & 2 != 0 then
      var c := (first + index % 0x1_0000_0000) % 0x1_0000_0000;
      if ClusterValid(g, c) then Some(c) else None
    else Walk(g, d, first, index)
  }


  lemma ClusterValidIs(g: Geometry, c: nat)
    ensures ClusterValid(g, c) == (c >= 2 && c < g.clusterCount + 2)
  {
  }

  /** The formulas of the bitmap lookup lead to the bit's place, and none of its checks fails. */
  lemma BitLocation(L: Layout, d: Disk, c: nat)
    requires BaseOk(L, d) && ClusterValid(L.g, c)
    ensures LayoutOk(L, |d|) && Fits(L.g, |d|) && BitmapCovers(L.g, L.bc) && c >= 2 && L.g.sectorsPerCluster >= 1
    ensures (c - 2) / 8 < L.g.bitmapSize && SectorIndexOf(L.g, (c - 2) / 8) < L.g.sectorsPerCluster
    ensures Resolved(L.g, d, L.g.bitmapCluster, 0, ClusterIndexOf(L.g, (c - 2) / 8)) == Some(BitCluster(L.g, L.bc, c))
    ensures ClusterLba(L.g, BitCluster(L.g, L.bc, c)) + SectorIndexOf(L.g, (c - 2) / 8) == BitLba(L.g, L.bc, c)
    ensures SectorOffsetOf(L.g, (c - 2) / 8) == BitOff(c) && (c - 2) % 8 == BitPos(c)
  {
    hide *;
    LayoutOf(L, d);
    LayoutParts(L, |d|);
    BitArith(L, |d|, c);
    BitmapWalk(L, d, BitSector(c) / L.g.sectorsPerCluster);
  }

  lemma BitArith(L: Layout, n: nat, c: nat)
    requires Fits(L.g, n) && BitmapCovers(L.g, L.bc) && ClusterValid(L.g, c)
    ensures c >= 2 && L.g.sectorsPerCluster >= 1 && BitSector(c) / L.g.sectorsPerCluster < |L.bc|
    ensures (c - 2) / 8 < L.g.bitmapSize && SectorIndexOf(L.g, (c - 2) / 8) < L.g.sectorsPerCluster
    ensures ClusterIndexOf(L.g, (c - 2) / 8) == BitSector(c) / L.g.sectorsPerCluster
    ensures BitCluster(L.g, L.bc, c) == L.bc[BitSector(c) / L.g.sectorsPerCluster]
    ensures ClusterLba(L.g, BitCluster(L.g, L.bc, c)) + SectorIndexOf(L.g, (c - 2) / 8) == BitLba(L.g, L.bc, c)
    ensures SectorOffsetOf(L.g, (c - 2) / 8) == BitOff(c) && (c - 2) % 8 == BitPos(c)
  {
    hide ClusterLba, BitmapCovers, SectorIndexOf, SectorOffsetOf, ClusterIndexOf;
    PositionFormulas(L.g, (c - 2) / 8);
    BitClusterIndex(L.g, L.bc, c);
  }

  lemma BitmapWalk(L: Layout, d: Disk, i: nat)
    requires BaseOk(L, d) && Fits(L.g, |d|) && i < |L.bc|
    ensures Resolved(L.g, d, L.g.bitmapCluster, 0, i) == Some(L.bc[i])
  {
    hide Fits, BitmapCovers, Taken, FatAt;
    WalkChain(L.g, d, L.bc, i);
    assert ClusterValid(L.g, L.bc[0]);
  }

  lemma BitAtIs(g: Geometry, bc: seq<nat>, d: Disk, c: nat)
    requires Fits(g, |d|) && BitmapCovers(g, bc) && ClusterValid(g, c)
    ensures BitLba(g, bc, c) < |d|
    ensures BitAt(g, bc, d, c) == (d[BitLba(g, bc, c)][BitOff(c)] & Mask(BitPos(c)) != 0)
  {
    BitInRange(g, |d|, bc, c);
  }

  lemma FreeAtIs(L: Layout, d: Disk, c: nat)
    requires Fits(L.g, |d|) && BitmapCovers(L.g, L.bc) && ClusterValid(L.g, c)
    ensures FreeAt(L, d, c) == (!BitAt(L.g, L.bc, d, c) && FatAt(L.g, d, c) == 0)
  {
    hide BitAt, FatAt, Fits, BitmapCovers;
  }

  lemma RunGrows(c: nat, n: nat)
    ensures Run(c, n + 1) == Run(c, n) + [c + n]
  {
  }

  lemma SlotScanBound(L: Layout, d: Disk, pos: nat, run: nat)
    requires SlotScan(L, d, pos, run)
    ensures run <= pos && run < 3
  {
    hide SlotFree, SlotRun;
  }

  ghost predicate RootSectorAt(L: Layout, d: Disk, t: nat, lba: nat) {
    LayoutOk(L, |d|) && Fits(L.g, |d|) && Clusters(L.g, L.rc) && t < RootSectors(L) && lba == RootLba(L, |d|, t)
    && lba < |d|
  }

  lemma RootSectorParts(L: Layout, d: Disk, t: nat, lba: nat)
    requires RootSectorAt(L, d, t, lba)
    ensures Fits(L.g, |d|) && Clusters(L.g, L.rc) && t < RootSectors(L) && lba == RootLba(L, |d|, t) && lba < |d|
  {
    hide LayoutOk, Fits, Clusters, RootSectors, RootLba;
  }

  /** Slot `j` is slot `slot` of sector `lba`. */
  ghost predicate RunStart(L: Layout, d: Disk, j: int, lba: nat, slot: nat) {
    j >= 0 && slot == j % 16 && RootSectorAt(L, d, j / 16, lba)
  }

  lemma RunStartSlot(L: Layout, d: Disk, j: nat, lba: nat, slot: nat)
    requires RunStart(L, d, j, lba, slot)
    ensures slot < 16
  {
    hide RootSectorAt;
  }

  lemma SlotFreeIs(L: Layout, d: Disk, t: nat, lba: nat, slot: nat)
    requires RootSectorAt(L, d, t, lba) && slot < 16
    ensures lba < |d|
    ensures SlotFree(L, d, 16 * t + slot) == !SlotUsed(d[lba][slot * 32])
    ensures RunStart(L, d, 16 * t + slot, lba, slot)
  {
    hide LayoutOk, Fits, Clusters, RootLba, RootSectors, SlotUsed;
    assert (16 * t + slot) / 16 == t && (16 * t + slot) % 16 == slot;
  }

  lemma SlotScanStart(L: Layout, d: Disk)
    ensures SlotScan(L, d, 0, 0)
  {
  }

  /** The root directory's chain ends after its last cluster. */
  lemma RootWalk(L: Layout, d: Disk, index: nat)
    requires BaseOk(L, d) && Fits(L.g, |d|)
    ensures index < |L.rc| ==> Resolved(L.g, d, L.g.rootCluster, 0, index) == Some(L.rc[index])
    ensures index >= |L.rc| ==> Resolved(L.g, d, L.g.rootCluster, 0, index) == None
  {
    hide Fits, BitmapCovers, Taken, FatAt;
    WalkChain(L.g, d, L.rc, index);
    assert ClusterValid(L.g, L.rc[0]);
  }

  /** The number of sector `k` of a chain's cluster number `index`. */
  function SectorNumber(g: Geometry, index: nat, k: nat): (n: nat) {
    index * g.sectorsPerCluster + k
  }

  lemma RootSectorOf(L: Layout, d: Disk, index: nat, k: nat)
    requires BaseOk(L, d) && index < |L.rc| && k < L.g.sectorsPerCluster
    ensures LayoutOk(L, |d|) && ClusterValid(L.g, L.rc[index]) && ClusterLba(L.g, L.rc[index]) + k < |d|
    ensures RootSectorAt(L, d, SectorNumber(L.g, index, k), ClusterLba(L.g, L.rc[index]) + k)
    ensures SectorNumber(L.g, index, k) == index * L.g.sectorsPerCluster + k
    ensures index * L.g.sectorsPerCluster + L.g.sectorsPerCluster <= RootSectors(L)
  {
    LayoutOf(L, d);
    LayoutParts(L, |d|);
    RowBelow(index, |L.rc|, L.g.sectorsPerCluster);
    DivModUnique(index * L.g.sectorsPerCluster + k, L.g.sectorsPerCluster, index, k);
    ClusterInHeap(L.g, |d|, L.rc[index]);
    hide LayoutOk, BaseOk, Fits, ClusterLba;
  }

  lemma NextRow(i: nat, m: nat)
    ensures (i + 1) * m == i * m + m
  {
  }

  /** Distinct clusters are at most as many as the volume has. */
  lemma {:induction false} RangeCount(n: nat, s: set<nat>)
    requires forall x :: x in s ==> 2 <= x < n + 2
    ensures |s| <= n
  {
    if n == 0 {
      assert s == {};
    } else {
      RangeCount(n - 1, s - {n + 1});
      PlusOne(s - {n + 1}, n + 1);
      assert s <= s - {n + 1} + {n + 1};
      SubsetCount(s, s - {n + 1} + {n + 1});
    }
  }

  lemma {:induction false} ElementsCount(g: Geometry, ch: seq<nat>)
    requires Clusters(g, ch)
    ensures |Elements(ch)| == |ch|
  {
    if ch != [] {
      var n := |ch| - 1;
      assert ch == ch[..n] + [ch[n]];
      ElementsCount(g, ch[..n]);
      assert Elements(ch) == Elements(ch[..n]) + {ch[n]};
    }
  }

  lemma RootCovered(L: Layout, d: Disk, index: nat)
    requires BaseOk(L, d) && Fits(L.g, |d|) && index <= |L.rc|
    requires index >= L.g.clusterCount || Resolved(L.g, d, L.g.rootCluster, 0, index) == None
    ensures index * L.g.sectorsPerCluster == RootSectors(L)
  {
    LayoutOf(L, d);
    LayoutParts(L, |d|);
    RootWalk(L, d, index);
    ElementsCount(L.g, L.rc);
    hide BaseOk, LayoutOk, Fits;
    RangeCount(L.g.clusterCount, Elements(L.rc));
  }

  lemma BitEditIs(g: Geometry, bc: seq<nat>, c: nat, set_: bool)
    requires g.sectorsPerCluster >= 1 && BitmapCovers(g, bc) && ClusterValid(g, c)
    ensures BitEdit(g, bc, c, set_) == Edit(BitLba(g, bc, c), BitPatch(BitOff(c), BitPos(c), set_))
  {
    hide BitLba, BitmapCovers;
  }

  lemma FatEditIs(g: Geometry, c: nat, v: nat)
    ensures FatEdit(g, c, v) == Edit(FatLba(g, c), U32Patch(FatOff(c), v))
  {
  }

  lemma ZeroKeepsReady(L: Layout, d: Disk, run: seq<nat>)
    requires BaseOk(L, d) && Fits(L.g, |d|) && BitmapCovers(L.g, L.bc) && Clusters(L.g, run)
    requires Misses(run, Elements(L.bc))
    ensures BaseOk(L, ZeroClusters(L.g, d, run, |run|))
  {
    hide *;
    ZeroClustersChanges(L.g, L.bc, d, run, |run|);
    BaseFrame(L, d, ZeroClusters(L.g, d, run, |run|), {}, {}, Elements(run[..|run|]));
  }

  /** The buffered edits of a create fit the transaction and lead from the zeroed disk to the created one. */
  lemma CreateEdits(L: Layout, s: State, run: seq<nat>, name: string, lba: nat, off: nat)
    requires Ok(L, s) && AllocShape(L, s, run) && FreshRun(L, s, run)
    requires Fits(L.g, |s.disk|) && BitmapCovers(L.g, L.bc) && Clusters(L.g, run) && run != [] && |run| <= 3
    requires run == Run(run[0], |run|)
    requires lba < |s.disk| && off + 96 <= 512 && |name| <= 15
    ensures L.g.sectorsPerCluster >= 1 && EnterShape(AllocState(L, s, run), lba, off, name, run)
    ensures var edits := MarkEdits(L.g, L.bc, run, |run|) + [Edit(lba, BytesPatch(off, EncodedSet(name, run[0], 0)))];
            && Applicable(ZeroClusters(L.g, s.disk, run, |run|), edits) && |Touched(edits)| <= MAX_SECTORS
            && Applied(ZeroClusters(L.g, s.disk, run, |run|), edits) ==
                 OrphanState(AllocState(L, s, run), lba, off, name, run).disk
  {
    hide *;
    SpcPositive(L.g, |s.disk|);
    AllocParts(L, s, run);
    AllocDiskIs(L.g, L.bc, s.disk, run);
    EnterShapeIs(AllocState(L, s, run), lba, off, name, run);
    OrphanParts(AllocState(L, s, run), lba, off, name, run);
    var d := ZeroClusters(L.g, s.disk, run, |run|);
    var e := AllocDisk(L.g, L.bc, s.disk, run);
    var set' := EncodedSet(name, run[0], 0);
    var marks, entry := MarkEdits(L.g, L.bc, run, |run|), Edit(lba, BytesPatch(off, set'));
    MarkEditsYield(L.g, L.bc, d, run, |run|);
    BytesPatchApplies(e[lba], off, set');
    YieldsOne(e, entry);
    YieldsConcat(d, marks, e, [entry], e[lba := Splice(e[lba], off, set')]);
    YieldsIs(d, marks + [entry], e[lba := Splice(e[lba], off, set')]);
    EditsTouch(L.g, L.bc, run, |run|);
    TouchedConcat(marks, [entry]);
    TouchedOne(entry);
    BudgetPlusOne(L.g, L.bc, run[0], |run|, lba);
  }

  lemma SpcPositive(g: Geometry, n: nat)
    requires Fits(g, n)
    ensures g.sectorsPerCluster >= 1
  {
  }

  lemma EnterShapeIs(s: State, lba: nat, off: nat, name: string, run: seq<nat>)
    requires lba < |s.disk| && off + 96 <= 512 && |name| <= 15 && run != []
    ensures EnterShape(s, lba, off, name, run)
  {
  }

  lemma BytesPatchApplies(t: Sector, off: nat, bs: seq<Byte>)
    requires off + |bs| <= 512
    ensures PatchApplies(t, BytesPatch(off, bs)) && Patched(t, BytesPatch(off, bs)) == Splice(t, off, bs)
  {
    hide Splice;
  }

  lemma YieldsIs(d: Disk, edits: seq<Edit>, d': Disk)
    requires Yields(d, edits, d')
    ensures Applicable(d, edits) && Applied(d, edits) == d'
  {
    hide Applicable, Applied;
  }

  lemma ShortPathIs(path: string)
    ensures ShortPath(path) == (path != "" && path[0] == '/' && ShortName(path[1..]))
  {
  }

  /** The outcomes of the two searches say whether there is a run and a usable slot, and which. */
  lemma SearchDecides(L: Layout, d: Disk, n: nat, runOk: bool, run: seq<nat>, slotOk: bool, slot: nat)
    requires Fits(L.g, |d|) && BitmapCovers(L.g, L.bc)
    requires runOk ==> |run| == n && n >= 1 && run == Run(run[0], n) && RunFree(L, d, run[0], n)
    requires runOk ==> forall c: nat :: c < run[0] ==> !RunFree(L, d, c, n)
    requires !runOk && 1 <= n <= MAX_CLUSTERS ==> forall c: nat :: !RunFree(L, d, c, n)
    requires slotOk ==> SlotRun(L, d, slot) && forall i: nat :: i < slot ==> !SlotRun(L, d, i)
    requires !slotOk ==> forall i: nat :: !SlotRun(L, d, i)
    ensures 1 <= n <= MAX_CLUSTERS ==> HasRun(L, d, n) == runOk
    ensures runOk ==> ChosenRun(L, d, run, n)
    ensures HasSlot(L, d) == (slotOk && slot % 16 * 32 + 96 <= 512)
    ensures slotOk && slot % 16 * 32 + 96 <= 512 ==> ChosenSlot(L, d, slot)
  {
    hide Fits, BitmapCovers, RunFree, SlotRun;
    if HasSlot(L, d) {
      var j: nat :| ChosenSlot(L, d, j);
      assert j == slot;
    }
    assert slotOk && slot % 16 * 32 + 96 <= 512 ==> ChosenSlot(L, d, slot);
  }

  lemma OffsetOf(L: Layout, d: Disk, j: nat, lba: nat, off: nat)
    requires RunStart(L, d, j, lba, off / 32) && off % 32 == 0
    ensures off == j % 16 * 32 && RootSectorAt(L, d, j / 16, lba)
  {
    hide RootSectorAt;
  }

  lemma RootSectorIs(L: Layout, d: Disk, t: nat, lba: nat)
    requires RootSectorAt(L, d, t, lba)
    ensures Fits(L.g, |d|) && Clusters(L.g, L.rc) && t < RootSectors(L) && lba == RootLba(L, |d|, t) < |d|
  {
  }

  lemma CreateAllowed(L: Layout, s: State, path: string, n: nat, run: seq<nat>, slot: nat, lba: nat, off: nat)
    requires Ok(L, s) && ShortPath(path) && LookupPath(s.table, path) == None && 1 <= n <= MAX_CLUSTERS
    requires ChosenRun(L, s.disk, run, n) && ChosenSlot(L, s.disk, slot) && off == slot % 16 * 32
    requires RootSectorAt(L, s.disk, slot / 16, lba)
    ensures CanCreate(L, s, path, n, run, slot) && CreateShape(L, s, path, run, slot) && path != ""
    ensures FreshRun(L, s, run) && run != [] && |run| == n && |run| <= 3 && run == Run(run[0], |run|)
    ensures CanOrphan(L, s, lba, off, path[1..], run)
  {
    assert CanCreate(L, s, path, n, run, slot) by { hide Ok, ShortPath, LookupPath, ChosenRun, ChosenSlot; }
    hide *;
    RootSectorIs(L, s.disk, slot / 16, lba);
    CanCreateRun(L, s, path, n, run, slot);
    CreateFits(L, s, path, n, run, slot);
  }

  /** The fields the create methods assign make up the specified state. */
  lemma CreateStep(L: Layout, s: State, path: string, n: nat, run: seq<nat>, slot: nat, lba: nat, off: nat)
    requires CanCreate(L, s, path, n, run, slot) && off == slot % 16 * 32 && RootSectorAt(L, s.disk, slot / 16, lba)
    ensures CreateShape(L, s, path, run, slot) && path != "" && run != [] && AllocShape(L, s, run)
    ensures EnterShape(AllocState(L, s, run), lba, off, path[1..], run)
    ensures Ok(L, LeakState(L, s, path, run, slot))
    ensures LeakState(L, s, path, run, slot)
         == State(OrphanState(AllocState(L, s, run), lba, off, path[1..], run).disk, s.table, s.chains,
                  s.added + Elements(run))
    ensures |s.table| < MAX_ENTRIES ==>
              && Ok(L, CreateState(L, s, path, run, slot))
              && CreateState(L, s, path, run, slot)
                 == State(OrphanState(AllocState(L, s, run), lba, off, path[1..], run).disk,
                          s.table + [Entry("/", path[1..], 0, ClusterBytes(L.g, n), lba, off, run[0], 0, false, true)],
                          s.chains + [run], s.added + Elements(run))
  {
    hide *;
    RootSectorIs(L, s.disk, slot / 16, lba);
    CanCreateRun(L, s, path, n, run, slot);
    CreateStateOk(L, s, path, n, run, slot);
    CreateIs(L, s, path, run, slot);
    AllocParts(L, s, run);
    OrphanParts(AllocState(L, s, run), lba, off, path[1..], run);
    EnterIs(L, AllocState(L, s, run), lba, off, path[1..], run);
    NewEntryIs(L, lba, off, path[1..], run);
    CapacityIs(L.g, n);
  }

  /** The capacity of `n` clusters as the code computes it. */
  function ClusterBytes(g: Geometry, n: nat): (b: nat) {
    g.sectorsPerCluster * 512 * n
  }

  lemma CapacityIs(g: Geometry, n: nat)
    ensures Capacity(g, n) == ClusterBytes(g, n)
  {
  }

  lemma OwnChain(L: Layout, s: State, i: nat)
    requires Ok(L, s) && i < |s.table| && s.table[i].writable
    ensures |s.table| == |s.chains| && 1 <= |s.chains[i]| <= MAX_CLUSTERS && MAX_CLUSTERS == 3
    ensures s.table[i].first == s.chains[i][0] && Clusters(L.g, s.chains[i])
  {
    OkWritable(L, s, i);
    ShapeParts(L, |s.disk|, s.table[i], s.chains[i]);
    hide Ok, LayoutOk, FileOk, FileShape, Clusters, Misses;
  }

  lemma ChainNext(L: Layout, s: State, i: nat, k: nat)
    requires Ok(L, s) && i < |s.table| == |s.chains| && s.table[i].writable && k < |s.chains[i]|
    ensures Fits(L.g, |s.disk|) && ClusterValid(L.g, s.chains[i][k])
    ensures k + 1 < |s.chains[i]| ==>
              FatAt(L.g, s.disk, s.chains[i][k]) == s.chains[i][k + 1] < EOF_MIN
              && ClusterValid(L.g, s.chains[i][k + 1])
    ensures k + 1 == |s.chains[i]| ==>
              FatAt(L.g, s.disk, s.chains[i][k]) >= EOF_MIN && s.chains[i][..k] + [s.chains[i][k]] == s.chains[i]
    ensures s.chains[i][..k] + [s.chains[i][k]] == s.chains[i][..k + 1]
  {
    OkParts(L, s);
    OkWritable(L, s, i);
    FileOkParts(L, s.disk, s.table[i], s.chains[i]);
    hide Ok, BaseOk, LayoutOk, TableOk, AddedOk, FileOk, FileShape, Misses, BitmapCovers, FatAt, DirSet;
    if k + 1 < |s.chains[i]| { ClusterFits32(L.g, |s.disk|, s.chains[i][k + 1]); }
  }

  lemma RunDecides(L: Layout, d: Disk, n: nat, runOk: bool, run: seq<nat>)
    requires Fits(L.g, |d|) && BitmapCovers(L.g, L.bc) && 1 <= n <= MAX_CLUSTERS
    requires runOk ==> |run| == n && run == Run(run[0], n) && RunFree(L, d, run[0], n)
    requires runOk ==> forall c: nat :: c < run[0] ==> !RunFree(L, d, c, n)
    requires !runOk ==> forall c: nat :: !RunFree(L, d, c, n)
    ensures HasRun(L, d, n) == runOk
    ensures runOk ==> ChosenRun(L, d, run, n)
  {
    hide Fits, BitmapCovers, RunFree;
  }

  lemma ExtendAllowed(L: Layout, s: State, i: nat, n: nat, more: seq<nat>)
    requires Ok(L, s) && i < |s.table| == |s.chains| && s.table[i].writable
    requires ChosenRun(L, s.disk, more, n) && |s.chains[i]| + n <= MAX_CLUSTERS
    ensures CanExtend(L, s, i, more) && ExtendShape(L, s, i, more) && FreshRun(L, s, more)
    ensures |more| == n && more != [] && more == Run(more[0], |more|) && |more| <= 3
    ensures Clusters(L.g, more) && Misses(more, Elements(L.bc)) && Clusters(L.g, s.chains[i]) && s.chains[i] != []
    ensures ClusterValid(L.g, Last(s.chains[i]))
  {
    assert Fits(L.g, |s.disk|) && BitmapCovers(L.g, L.bc) && n >= 1 && |more| == n && more == Run(more[0], n)
           && RunFree(L, s.disk, more[0], n) by {
      hide Ok, Fits, BitmapCovers, RunFree;
    }
    OwnChain(L, s, i);
    hide *;
    FreeRunIsFresh(L, s, more[0], n);
    FreshOutside(L, s, more);
    CanExtendFrom(L, s, i, more);
    CanExtendIs(L, s, i, more);
    LastValid(L.g, s.chains[i]);
  }

  lemma LastValid(g: Geometry, ch: seq<nat>)
    requires Clusters(g, ch) && ch != []
    ensures ClusterValid(g, Last(ch)) && Last(ch) == ch[|ch| - 1]
  {
  }

  lemma CanExtendFrom(L: Layout, s: State, i: nat, more: seq<nat>)
    requires Ok(L, s) && i < |s.table| == |s.chains| && s.table[i].writable
    requires FreshRun(L, s, more) && |s.chains[i]| + |more| <= MAX_CLUSTERS
    ensures CanExtend(L, s, i, more)
  {
    hide Ok, FreshRun;
  }

  /** The buffered edits of an extension fit the transaction and lead from the zeroed disk to the extended one. */
  lemma ExtendEdits(L: Layout, s: State, i: nat, more: seq<nat>)
    requires ExtendShape(L, s, i, more) && |more| <= 3 && more == Run(more[0], |more|)
    ensures i < |s.chains| && s.chains[i] != [] && more != [] && Clusters(L.g, more) && BitmapCovers(L.g, L.bc)
    ensures Fits(L.g, |s.disk|) && L.g.sectorsPerCluster >= 1
    ensures var edits := [FatEdit(L.g, Last(s.chains[i]), more[0])] + MarkEdits(L.g, L.bc, more, |more|);
            && Applicable(ZeroClusters(L.g, s.disk, more, |more|), edits) && |Touched(edits)| <= MAX_SECTORS
            && Applied(ZeroClusters(L.g, s.disk, more, |more|), edits) == ExtendState(L, s, i, more).disk
  {
    hide *;
    ExtendShapeIs(L, s, i, more);
    SpcPositive(L.g, |s.disk|);
    var last := Last(s.chains[i]);
    LastValid(L.g, s.chains[i]);
    var d := ZeroClusters(L.g, s.disk, more, |more|);
    var e := SetFat(L.g, d, last, more[0]);
    var link, marks := FatEdit(L.g, last, more[0]), MarkEdits(L.g, L.bc, more, |more|);
    FatEditYields(L.g, d, last, more[0]);
    MarkEditsYield(L.g, L.bc, e, more, |more|);
    YieldsConcat(d, [link], e, marks, MarkChain(L.g, L.bc, e, more, |more|));
    YieldsIs(d, [link] + marks, MarkChain(L.g, L.bc, e, more, |more|));
    ExtendDiskIs(L, s, i, more);
    EditsTouch(L.g, L.bc, more, |more|);
    TouchedConcat([link], marks);
    TouchedOne(link);
    BudgetPlusOne(L.g, L.bc, more[0], |more|, link.lba);
    assert {link.lba} + MetaSectors(L.g, L.bc, more, |more|) == MetaSectors(L.g, L.bc, more, |more|) + {link.lba};
  }

  lemma ExtendShapeIs(L: Layout, s: State, i: nat, more: seq<nat>)
    requires ExtendShape(L, s, i, more)
    ensures i < |s.table| == |s.chains| && s.chains[i] != [] && more != []
    ensures Fits(L.g, |s.disk|) && BitmapCovers(L.g, L.bc) && Clusters(L.g, s.chains[i]) && Clusters(L.g, more)
  {
    hide Fits, BitmapCovers, Clusters;
  }

  lemma ExtendStep(L: Layout, s: State, i: nat, more: seq<nat>)
    requires CanExtend(L, s, i, more) && ExtendShape(L, s, i, more)
    ensures i < |s.table| == |s.chains| && Ok(L, ExtendState(L, s, i, more))
    ensures ExtendState(L, s, i, more)
         == State(ExtendState(L, s, i, more).disk,
                  s.table[i := s.table[i].(capacity := ClusterBytes(L.g, |s.chains[i]| + |more|))],
                  s.chains[i := s.chains[i] + more], s.added + Elements(more))
  {
    hide *;
    ExtendStateOk(L, s, i, more);
    ExtendStateParts(L, s, i, more);
    CapacityIs(L.g, |s.chains[i] + more|);
  }

  const PLAN_NAME: string := "NEW.TXT"

  predicate TestFile(e: Entry) {
    e.writable && e.parent == "/" && !e.isDir
  }

  function FirstTestFile(table: seq<Entry>, i: nat): (r: Option<nat>)
    requires i <= |table|
    ensures r.Some? ==> i <= r.value < |table| && TestFile(table[r.value])
    ensures forall k :: i <= k < (if r.Some? then r.value else |table|) ==> !TestFile(table[k])
    decreases |table| - i
  {
    if i == |table| then None
    else if TestFile(table[i]) then Some(i)
    else FirstTestFile(table, i + 1)
  }

  /** The row a rename would take: the first writable file, if it is the empty initial one. */
  function RenameTarget(table: seq<Entry>): (r: Option<nat>)
    ensures r.Some? ==> r.value < |table| && table[r.value].writable && table[r.value].size == 0
  {
    var f := FirstTestFile(table, 0);
    if f.Some? && table[f.value].size == 0 && table[f.value].name == PLAN_NAME then f else None
  }

  lemma RenameTargetIs(table: seq<Entry>)
    ensures var f := FirstTestFile(table, 0);
            RenameTarget(table) == if f.Some? && table[f.value].size == 0 && table[f.value].name == PLAN_NAME then f
              else None
  {
    hide FirstTestFile;
  }

  lemma RowFields(L: Layout, s: State, i: nat)
    requires Ok(L, s) && i < |s.table| && s.table[i].writable
    ensures |s.table| == |s.chains| && DirSet(s.disk, s.table[i]) && s.table[i].dirLba < |s.disk|
    ensures s.table[i].dirOff + 96 <= 512
    ensures |s.table[i].name| <= 15 && ShortName(s.table[i].name) && s.table[i].size <= s.table[i].capacity
    ensures s.table[i].parent == "/" && !s.table[i].isDir
  {
    OkWritable(L, s, i);
    FileOkParts(L, s.disk, s.table[i], s.chains[i]);
    ShapeParts(L, |s.disk|, s.table[i], s.chains[i]);
    hide Ok, LayoutOk, FileOk, FileShape, Clusters, Misses, Linked, Ends, EncodedSet, ShortName;
  }

  lemma SetBytes(d: Disk, e: Entry)
    requires DirSet(d, e)
    ensures e.dirLba < |d| && e.dirOff + 96 <= 512 && |e.name| <= 15
    ensures d[e.dirLba][e.dirOff..e.dirOff + 96] == EncodedSet(e.name, e.first, e.size)
    ensures d[e.dirLba][e.dirOff] == 0x85 && d[e.dirLba][e.dirOff + 32] == 0xc0 && d[e.dirLba][e.dirOff + 64] == 0xc1
  {
    hide EncodedSet;
    SetInUse(e.name, e.first, e.size);
    var t := d[e.dirLba];
    var s := t[e.dirOff..e.dirOff + 96];
    assert s[0] == t[e.dirOff] && s[32] == t[e.dirOff + 32] && s[64] == t[e.dirOff + 64];
  }

  lemma RefreshGives(L: Layout, s: State, i: nat, size: nat)
    requires Ok(L, s) && i < |s.table| && s.table[i].writable && size <= s.table[i].capacity
    ensures var e := s.table[i];
            && e.dirLba < |s.disk| && e.dirOff + 96 <= 512 && |e.name| <= 15
            && s.disk[e.dirLba][e.dirOff] == 0x85 && s.disk[e.dirLba][e.dirOff + 32] == 0xc0
            && RefreshedSet(s.disk[e.dirLba][e.dirOff..e.dirOff + 96], size) == EncodedSet(e.name, e.first, size)
    ensures CanRelabel(L, s, i, s.table[i].name, size)
  {
    hide *;
    RowFields(L, s, i);
    SetBytes(s.disk, s.table[i]);
    RefreshKeepsEncoding(s.table[i].name, s.table[i].first, s.table[i].size, size);
    forall j | 0 <= j < |s.table| && j != i ensures s.table[j].parent != "/" || s.table[j].name != s.table[i].name {
      OkSeparate(L, s, i, j);
      SeparatePaths(s.table[j], s.chains[j], s.table[i], s.chains[i]);
    }
    CanRelabelIf(L, s, i, s.table[i].name, size);
  }

  lemma RenameGives(L: Layout, s: State, i: nat, path: string)
    requires Ok(L, s) && i < |s.table| && s.table[i].writable && s.table[i].size == 0 && ShortPath(path)
    requires LookupPath(s.table, path) == None
    ensures path != "" && |path[1..]| <= 15
    ensures var e := s.table[i];
            && e.dirLba < |s.disk| && e.dirOff + 96 <= 512
            && s.disk[e.dirLba][e.dirOff] == 0x85 && s.disk[e.dirLba][e.dirOff + 32] == 0xc0
               && s.disk[e.dirLba][e.dirOff + 64] == 0xc1
            && RenamedSet(s.disk[e.dirLba][e.dirOff..e.dirOff + 96], path[1..]) == EncodedSet(path[1..], e.first, 0)
    ensures CanRelabel(L, s, i, path[1..], 0)
  {
    hide *;
    ShortPathIs(path);
    ShortNameShape(path[1..]);
    RowFields(L, s, i);
    SetBytes(s.disk, s.table[i]);
    RenameKeepsEncoding(s.table[i].name, s.table[i].first, 0, path[1..]);
    PathUnused(s.table, path);
    CanRelabelIf(L, s, i, path[1..], 0);
  }

  lemma PathUnused(table: seq<Entry>, path: string)
    requires ShortPath(path) && LookupPath(table, path) == None
    ensures path != "" && forall j: nat :: j < |table| ==> table[j].parent != "/" || table[j].name != path[1..]
  {
    hide ShortName;
    ShortPathKey(path);
    var key := ("/", path[1..]);
    assert Lookup(table, key) == None;
    assert forall j: nat :: j < |table| ==> !Matches(table[j], key);
  }

  lemma RelabelStep(L: Layout, s: State, i: nat, name: string, size: nat)
    requires CanRelabel(L, s, i, name, size)
    ensures LabelShape(s, i, name)
    ensures i < |s.table| && |name| <= 15 && s.table[i].dirLba < |s.disk| && s.table[i].dirOff + 96 <= 512
    ensures Ok(L, RelabelState(L, s, i, name, size))
    ensures RelabelState(L, s, i, name, size)
         == State(s.disk[s.table[i].dirLba := Splice(s.disk[s.table[i].dirLba], s.table[i].dirOff,
                                                     EncodedSet(name, s.table[i].first, size))],
                  s.table[i := s.table[i].(name := name, size := size)], s.chains, s.added)
  {
    hide *;
    RelabelStateOk(L, s, i, name, size);
    RelabelDisk(L, s, i, name, size);
    RelabelOther(L, s, i, name, size);
  }

  lemma SliceEmpty(s: seq<Byte>, offset: nat, len: nat)
    requires offset >= |s| || len == 0
    ensures Slice(s, offset, len) == []
  {
  }

  lemma SliceIs(s: seq<Byte>, offset: nat, len: nat, out: seq<Byte>)
    requires offset < |s| && |out| <= len && offset + |out| <= |s| && out == s[offset..offset + |out|]
    requires |out| == len || offset + |out| == |s|
    ensures Slice(s, offset, len) == out
  {
  }

  lemma JoinSlices(s: seq<Byte>, a: nat, b: nat, c: nat)
    requires a <= b <= c <= |s|
    ensures s[a..b] + s[b..c] == s[a..c]
  {
  }

  lemma ChunkFits(pos: nat, len: nat)
    requires len > 0
    ensures pos % 512 + ChunkLength(pos, len) <= 512
  {
  }

  lemma RowStarts(L: Layout, s: State, i: nat)
    requires Ok(L, s) && i < |s.table| == |s.chains| && s.chains[i] != []
    ensures ClusterValid(L.g, s.table[i].first) && s.table[i].first == s.chains[i][0]
    ensures |FileBytes(L, s, i)| == s.table[i].size
  {
    OkRow(L, s, i);
    RowBounds(L, s.disk, s.table[i], s.chains[i]);
    hide Ok, LayoutOk, Linked, Ends, DirSet, InRoot, ShortName, Misses, Capacity, FileBytes;
    assert ClusterValid(L.g, s.chains[i][0]);
  }

  lemma RowSize(L: Layout, s: State, i: nat)
    requires Ok(L, s) && i < |s.table| == |s.chains| && s.chains[i] != []
    ensures s.table[i].size <= Capacity(L.g, |s.chains[i]|) && |FileBytes(L, s, i)| == s.table[i].size
  {
    OkRow(L, s, i);
    RowBounds(L, s.disk, s.table[i], s.chains[i]);
    hide Ok, LayoutOk, RowOk, Clusters, Capacity, FileBytes;
  }

  lemma {:induction false} ConsecutiveAt(ch: seq<nat>, k: nat)
    requires k < |ch| && forall i :: 0 <= i < |ch| - 1 ==> ch[i + 1] == ch[i] + 1
    ensures ch[k] == ch[0] + k
  {
    if k > 0 { ConsecutiveAt(ch, k - 1); }
  }

  /** Resolving cluster number `k` of a row gives the `k`-th cluster of its chain. */
  lemma RowResolves(L: Layout, s: State, i: nat, k: nat)
    requires Ok(L, s) && i < |s.table| == |s.chains| && k < |s.chains[i]|
    ensures Fits(L.g, |s.disk|) && Clusters(L.g, s.chains[i])
    ensures Resolved(L.g, s.disk, s.table[i].first, s.table[i].streamFlags, k) == Some(s.chains[i][k])
  {
    hide *;
    OkParts(L, s);
    OkRow(L, s, i);
    RowLinks(L, s.disk, s.table[i], s.chains[i]);
    ResolvesChain(L.g, s.disk, s.table[i].first, s.table[i].streamFlags, s.chains[i], k);
  }

  lemma ResolvesChain(g: Geometry, d: Disk, first: nat, flags: Byte, ch: seq<nat>, k: nat)
    requires Fits(g, |d|) && Clusters(g, ch) && k < |ch| && first == ch[0]
    requires flags & 2 == 0 ==> Linked(g, d, ch)
    requires flags & 2 != 0 ==> forall i :: 0 <= i < |ch| - 1 ==> ch[i + 1] == ch[i] + 1
    ensures Resolved(g, d, first, flags, k) == Some(ch[k])
  {
    hide Fits, FatAt, Linked;
    assert ClusterValid(g, ch[0]) && ClusterValid(g, ch[k]);
    ClusterFits32(g, |d|, ch[k]);
    if flags & 2 != 0 {
      ConsecutiveAt(ch, k);
    } else {
      WalkChain(g, d, ch, k);
    }
  }

  lemma RowLinks(L: Layout, d: Disk, e: Entry, ch: seq<nat>)
    requires LayoutOk(L, |d|) && RowOk(L, d, e, ch) && ch != []
    ensures Clusters(L.g, ch) && Fits(L.g, |d|) && e.first == ch[0]
    ensures e.streamFlags & 2 == 0 ==> Linked(L.g, d, ch)
    ensures e.streamFlags & 2 != 0 ==> forall i :: 0 <= i < |ch| - 1 ==> ch[i + 1] == ch[i] + 1
  {
    LayoutParts(L, |d|);
    hide LayoutOk, Linked, Ends, DirSet, InRoot, ShortName, Misses, Capacity, Fits, BitmapCovers;
  }

  lemma BytePlace(L: Layout, s: State, i: nat, pos: nat)
    requires Ok(L, s) && i < |s.table| == |s.chains| && s.chains[i] != [] && pos < Capacity(L.g, |s.chains[i]|)
    ensures Fits(L.g, |s.disk|) && L.g.sectorsPerCluster >= 1 && Clusters(L.g, s.chains[i])
    ensures InChain(L.g, s.chains[i], pos)
    ensures SectorIndexOf(L.g, pos) < L.g.sectorsPerCluster
    ensures Resolved(L.g, s.disk, s.table[i].first, s.table[i].streamFlags, ClusterIndexOf(L.g, pos)) ==
              Some(FileCluster(L.g, s.chains[i], pos))
    ensures ClusterValid(L.g, FileCluster(L.g, s.chains[i], pos))
    ensures ClusterLba(L.g, FileCluster(L.g, s.chains[i], pos)) + SectorIndexOf(L.g, pos) ==
              FileLba(L.g, s.chains[i], pos) < |s.disk|
  {
    hide *;
    OkParts(L, s);
    SpcPositive(L.g, |s.disk|);
    InChainBySize(L.g, s.chains[i], pos);
    PositionFormulas(L.g, pos);
    PositionBounds(L.g, s.chains[i], pos);
    RowResolves(L, s, i, pos / 512 / L.g.sectorsPerCluster);
    FileLbaBounds(L.g, |s.disk|, s.chains[i], pos);
    FileLbaIs(L.g, s.chains[i], pos);
  }

  lemma FileLbaIs(g: Geometry, ch: seq<nat>, p: nat)
    requires Clusters(g, ch) && InChain(g, ch, p) && p / 512 / g.sectorsPerCluster < |ch|
    ensures FileCluster(g, ch, p) == ch[p / 512 / g.sectorsPerCluster] && ClusterValid(g, FileCluster(g, ch, p))
    ensures FileLba(g, ch, p) == ClusterLba(g, FileCluster(g, ch, p)) + p / 512 % g.sectorsPerCluster
  {
    hide ClusterLba, InChain;
  }

  /** A chunk of one sector is the corresponding slice of the file. */
  lemma ChunkReads(L: Layout, s: State, i: nat, pos: nat, n: nat)
    requires Ok(L, s) && i < |s.table| == |s.chains| && s.chains[i] != []
    requires pos % 512 + n <= 512 && pos + n <= s.table[i].size && n > 0
    ensures Fits(L.g, |s.disk|) && Clusters(L.g, s.chains[i]) && InChain(L.g, s.chains[i], pos)
    ensures FileLba(L.g, s.chains[i], pos) < |s.disk| && |FileBytes(L, s, i)| == s.table[i].size
    ensures s.disk[FileLba(L.g, s.chains[i], pos)][pos % 512..pos % 512 + n] == FileBytes(L, s, i)[pos..pos + n]
  {
    hide *;
    RowSize(L, s, i);
    BytePlace(L, s, i, pos);
    var t := s.disk[FileLba(L.g, s.chains[i], pos)];
    var bytes := FileBytes(L, s, i);
    var chunk, part := t[pos % 512..pos % 512 + n], bytes[pos..pos + n];
    forall k: nat | k < n ensures chunk[k] == part[k] {
      FileBytesAt(L, s, i, pos + k);
      SameSector(pos, k);
      SameSectorSameLba(L.g, s.chains[i], pos + k, pos);
      FileByteIs(L.g, s.disk, s.chains[i], pos + k);
    }
  }

  lemma SameSector(pos: nat, k: nat)
    requires pos % 512 + k < 512
    ensures (pos + k) / 512 == pos / 512 && (pos + k) % 512 == pos % 512 + k
  {
  }

  lemma FileByteIs(g: Geometry, d: Disk, ch: seq<nat>, p: nat)
    requires Fits(g, |d|) && Clusters(g, ch) && InChain(g, ch, p)
    ensures FileLba(g, ch, p) < |d| && FileByte(g, d, ch, p) == d[FileLba(g, ch, p)][p % 512]
  {
    FileLbaBounds(g, |d|, ch, p);
  }

  lemma Rest(bytes: seq<Byte>, written: nat, n: nat)
    requires written + n <= |bytes|
    ensures bytes[written..][..n] == bytes[written..written + n] && bytes[written..][n..] == bytes[written + n..]
  {
  }

  lemma WriteDone(g: Geometry, d: Disk, ch: seq<nat>, pos: nat, bytes: seq<Byte>)
    requires Fits(g, |d|) && Clusters(g, ch) && pos + |bytes| <= Capacity(g, |ch|) && bytes == []
    ensures WriteBytes(g, d, ch, pos, bytes) == d
  {
  }

  /** One turn of the write loop: a sector patched, the invariant kept, the rest of the bytes left to write. */
  lemma WriteOne(L: Layout, s: State, i: nat, pos: nat, bytes: seq<Byte>)
    requires Ok(L, s) && i < |s.table| == |s.chains| && s.table[i].writable && s.chains[i] != [] && bytes != []
    requires Fits(L.g, |s.disk|) && Clusters(L.g, s.chains[i]) && pos + |bytes| <= Capacity(L.g, |s.chains[i]|)
    ensures InChain(L.g, s.chains[i], pos) && FileLba(L.g, s.chains[i], pos) < |s.disk|
    ensures var n := ChunkLength(pos, |bytes|);
            var l := FileLba(L.g, s.chains[i], pos);
            var d' := s.disk[l := Splice(s.disk[l], pos % 512, bytes[..n])];
            && Ok(L, s.(disk := d'))
            && WriteBytes(L.g, s.disk, s.chains[i], pos, bytes) == WriteBytes(L.g, d', s.chains[i], pos + n, bytes[n..])
  {
    hide *;
    OkParts(L, s);
    BytePlace(L, s, i, pos);
    ChainOutside(L, s, i);
    var n := ChunkLength(pos, |bytes|);
    ChunkFits(pos, |bytes|);
    WriteChunkIs(L.g, s.disk, s.chains[i], pos, bytes[..n]);
    WriteChunkChanges(L.g, L.bc, s.disk, s.chains[i], pos, bytes[..n]);
    DataOnlyOk(L, s, WriteChunk(L.g, s.disk, s.chains[i], pos, bytes[..n]), Elements(s.chains[i]));
    WriteBytesUnfold(L.g, s.disk, s.chains[i], pos, bytes);
  }

  lemma WriteChunkIs(g: Geometry, d: Disk, ch: seq<nat>, pos: nat, chunk: seq<Byte>)
    requires Fits(g, |d|) && Clusters(g, ch) && pos < Capacity(g, |ch|) && pos % 512 + |chunk| <= 512
    ensures InChain(g, ch, pos) && FileLba(g, ch, pos) < |d|
    ensures WriteChunk(g, d, ch, pos, chunk) ==
              d[FileLba(g, ch, pos) := Splice(d[FileLba(g, ch, pos)], pos % 512, chunk)]
  {
    InChainBySize(g, ch, pos);
    FileLbaBounds(g, |d|, ch, pos);
    hide FileLba, Splice;
  }

  lemma WriteBytesUnfold(g: Geometry, d: Disk, ch: seq<nat>, pos: nat, bytes: seq<Byte>)
    requires Fits(g, |d|) && Clusters(g, ch) && pos + |bytes| <= Capacity(g, |ch|) && bytes != []
    ensures var n := ChunkLength(pos, |bytes|);
            WriteBytes(g, d, ch, pos, bytes) ==
              WriteBytes(g, WriteChunk(g, d, ch, pos, bytes[..n]), ch, pos + n, bytes[n..])
  {
    hide Fits, Clusters, Capacity, WriteChunk;
  }

  lemma WriteKeepsRow(L: Layout, s: State, i: nat, offset: nat, bytes: seq<Byte>, more: seq<nat>)
    requires CanGrowBy(L, s, i, offset + |bytes|, more)
    ensures GrownShape(L, s, i, offset + |bytes|, more) && i < |s.table|
    ensures WriteShape(L, Grown(L, s, i, offset + |bytes|, more), i, offset, bytes)
    ensures var w := WriteState(L, Grown(L, s, i, offset + |bytes|, more), i, offset, bytes);
            && i < |w.table| && w.table[i].name == s.table[i].name && w.table[i].size == s.table[i].size
            && w.table[i].writable && offset + |bytes| <= w.table[i].capacity
  {
    hide *;
    GrownIs(L, s, i, offset + |bytes|, more);
    GrownRows(L, s, i, offset + |bytes|, more);
    WriteAllowed(L, s, i, offset, bytes, more);
    WriteStateIs(L, Grown(L, s, i, offset + |bytes|, more), i, offset, bytes);
  }

  /** Whether the sectors an unlink changes fit one transaction. */
  ghost predicate UnlinkFits(L: Layout, s: State, i: nat) {
    && UnlinkShape(L, s, i) && L.g.sectorsPerCluster >= 1
    && |{s.table[i].dirLba} + MetaSectors(L.g, L.bc, s.chains[i], |s.chains[i]|)| <= MAX_SECTORS
  }

  /** The buffered edits of an unlink, and when they fit the transaction. */
  lemma UnlinkEdits(L: Layout, s: State, i: nat)
    requires Ok(L, s) && i < |s.table| && s.table[i].writable && UnlinkShape(L, s, i)
    ensures L.g.sectorsPerCluster >= 1 && |s.table| == |s.chains| && BitmapCovers(L.g, L.bc)
    ensures Clusters(L.g, s.chains[i])
    ensures Fits(L.g, |s.disk|) && s.table[i].dirLba < |s.disk| && s.table[i].dirOff + 96 <= 512
    ensures |UnlistDisk(s, i)| == |s.disk|
    ensures var edits := [Edit(s.table[i].dirLba, DeletePatch(s.table[i].dirOff, 3))] +
            ReleaseEdits(L.g, L.bc, s.chains[i], |s.chains[i]|);
            && Applicable(s.disk, edits)
            && Applied(s.disk, edits) == ReleaseChain(L.g, L.bc, UnlistDisk(s, i), s.chains[i], |s.chains[i]|)
            && (|Touched(edits)| <= MAX_SECTORS) == UnlinkFits(L, s, i)
  {
    hide *;
    UnlinkParts(L, s, i);
    SpcPositive(L.g, |s.disk|);
    RowFields(L, s, i);
    SetBytes(s.disk, s.table[i]);
    UnlistIs(s, i);
    var e, ch := s.table[i], s.chains[i];
    var gone, releases := Edit(e.dirLba, DeletePatch(e.dirOff, 3)), ReleaseEdits(L.g, L.bc, ch, |ch|);
    DeleteApplies(s.disk[e.dirLba], e.dirOff);
    YieldsOne(s.disk, gone);
    ReleaseEditsYield(L.g, L.bc, UnlistDisk(s, i), ch, |ch|);
    YieldsConcat(s.disk, [gone], UnlistDisk(s, i), releases, ReleaseChain(L.g, L.bc, UnlistDisk(s, i), ch, |ch|));
    YieldsIs(s.disk, [gone] + releases, ReleaseChain(L.g, L.bc, UnlistDisk(s, i), ch, |ch|));
    EditsTouch(L.g, L.bc, ch, |ch|);
    TouchedConcat([gone], releases);
    TouchedOne(gone);
    UnlinkFitsIs(L, s, i);
  }

  lemma UnlinkFitsIs(L: Layout, s: State, i: nat)
    requires UnlinkShape(L, s, i) && L.g.sectorsPerCluster >= 1
    ensures i < |s.table| == |s.chains| && BitmapCovers(L.g, L.bc) && Clusters(L.g, s.chains[i])
    ensures UnlinkFits(L, s, i) ==
              (|{s.table[i].dirLba} + MetaSectors(L.g, L.bc, s.chains[i], |s.chains[i]|)| <= MAX_SECTORS)
  {
    hide BitmapCovers, Clusters, Fits, MetaSectors;
  }

  lemma DeleteApplies(t: Sector, off: nat)
    requires off + 96 <= 512 && t[off] == 0x85 && t[off + 32] == 0xc0 && t[off + 64] == 0xc1
    ensures PatchApplies(t, DeletePatch(off, 3)) && Patched(t, DeletePatch(off, 3)) == Deleted(t, off, 3)
  {
    hide Deleted;
    forall i | 0 <= i < 3 ensures t[off + i * 32] & 0x80 != 0 {
      if i == 0 {} else if i == 1 {} else { assert i == 2; }
    }
  }

  lemma UnlinkCommit(L: Layout, s: State, i: nat)
    requires Ok(L, s) && i < |s.table| && s.table[i].writable && UnlinkShape(L, s, i)
    ensures |s.table| == |s.chains| && Fits(L.g, |s.disk|) && BitmapCovers(L.g, L.bc) && Clusters(L.g, s.chains[i])
    ensures s.table[i].dirLba < |s.disk| && s.table[i].dirOff + 96 <= 512 && |UnlistDisk(s, i)| == |s.disk|
    ensures Ok(L, UnlinkState(L, s, i))
    ensures UnlinkState(L, s, i)
         == State(ZeroClusters(L.g, ReleaseChain(L.g, L.bc, UnlistDisk(s, i), s.chains[i], |s.chains[i]|),
                               s.chains[i], |s.chains[i]|),
                  s.table[i := BLANK], s.chains[i := []], s.added - Elements(s.chains[i]))
  {
    hide *;
    UnlinkParts(L, s, i);
    UnlinkStateOk(L, s, i);
    UnlinkIs(L, s, i);
    FreeDiskIs(L.g, L.bc, UnlistDisk(s, i), s.chains[i]);
  }

  // ---------- operations by path ----------

  /** When a write by path succeeds. */
  ghost predicate WriteAccepted(L: Layout, s: State, ready: bool, path: string, offset: nat, bytes: seq<Byte>) {
    match LookupPath(s.table, path)
    case Some(i) =>
      ready && s.table[i].writable && offset + |bytes| <= U64_MAX
      && (offset + |bytes| > s.table[i].capacity ==> CanGrow(L, s, i, offset + |bytes|))
    case None => offset == 0 && CreateAccepted(L, s, ready, path, |bytes|)
  }

  /** When a new file for `size` bytes can be made: a valid name, room on the disk and in the table. */
  ghost predicate CreateAccepted(L: Layout, s: State, ready: bool, path: string, size: nat) {
    && ready && ShortPath(path) && ClusterCountFor(L.g, size) > 0 && |s.table| < MAX_ENTRIES
    && HasRun(L, s.disk, ClusterCountFor(L.g, size)) && HasSlot(L, s.disk)
  }

  /** When a truncate by path succeeds; `renames` says that the mount-time plan allows a rename. */
  ghost predicate TruncateAccepted(L: Layout, s: State, ready: bool, renames: bool, path: string, size: nat) {
    match LookupPath(s.table, path)
    case Some(i) => ready && s.table[i].writable && size <= s.table[i].capacity
    case None =>
      if renames && RenameTarget(s.table).Some? then
        ready && ShortPath(path) && ClusterCountFor(L.g, size) > 0
        && size <= s.table[RenameTarget(s.table).value].capacity
      else CreateAccepted(L, s, ready, path, size)
  }

  /** A truncate of a missing path renames the empty initial file first; the new name stays even if it then fails. */
  ghost predicate RenamesFirst(L: Layout, s: State, ready: bool, renames: bool, path: string, size: nat) {
    && ready && renames && ShortPath(path) && LookupPath(s.table, path).None? && ClusterCountFor(L.g, size) > 0
    && RenameTarget(s.table).Some?
  }

  lemma RenamesFirstIs(L: Layout, s: State, ready: bool, renames: bool, path: string, size: nat)
    ensures RenamesFirst(L, s, ready, renames, path, size)
            == (ready && renames && ShortPath(path) && LookupPath(s.table, path).None? && ClusterCountFor(L.g, size) > 0
                && RenameTarget(s.table).Some?)
  {
    hide LookupPath, ShortPath, ClusterCountFor, RenameTarget;
  }

  /** When an unlink by path succeeds: a writable file whose release fits the transaction. */
  ghost predicate UnlinkAccepted(L: Layout, s: State, ready: bool, path: string) {
    && ready && ShortPath(path) && LookupPath(s.table, path).Some?
    && s.table[LookupPath(s.table, path).value].writable && UnlinkFits(L, s, LookupPath(s.table, path).value)
  }

  lemma UnlinkAcceptedIs(L: Layout, s: State, ready: bool, path: string)
    ensures var f := LookupPath(s.table, path);
            UnlinkAccepted(L, s, ready, path)
            == (ready && ShortPath(path) && f.Some? && s.table[f.value].writable && UnlinkFits(L, s, f.value))
  {
    hide LookupPath, ShortPath, UnlinkFits;
  }

  /** Exactly when an operation succeeds. */
  ghost predicate Accepted(L: Layout, s: State, ready: bool, renames: bool, op: Op) {
    match op
    case WriteOp(path, offset, bytes) => WriteAccepted(L, s, ready, path, offset, bytes)
    case TruncateOp(path, size) => TruncateAccepted(L, s, ready, renames, path, size)
    case UnlinkOp(path) => UnlinkAccepted(L, s, ready, path)
  }

  /** One operation of a run: it succeeds exactly when it is acceptable, and does to the files what the abstract
      operation does. */
  ghost predicate Refines(L: Layout, s: State, ready: bool, renames: bool, op: Op, ok: bool, s': State) {
    && Ok(L, s) && Ok(L, s')
    && ok == Accepted(L, s, ready, renames, op) && Step(Files(L, s), op, ok, Files(L, s'))
    && (op.TruncateOp? && !ok && !RenamesFirst(L, s, ready, renames, op.path, op.size) ==> Files(L, s') == Files(L, s))
  }

  lemma RefinesIs(L: Layout, s: State, ready: bool, renames: bool, op: Op, ok: bool, s': State)
    requires Ok(L, s) && Ok(L, s') && Step(Files(L, s), op, ok, Files(L, s'))
    requires match op
             case WriteOp(path, offset, bytes) => ok == WriteAccepted(L, s, ready, path, offset, bytes)
             case TruncateOp(path, size) => ok == TruncateAccepted(L, s, ready, renames, path, size)
             case UnlinkOp(path) => ok == UnlinkAccepted(L, s, ready, path)
    requires op.TruncateOp? && !ok && !RenamesFirst(L, s, ready, renames, op.path, op.size) ==>
               Files(L, s') == Files(L, s)
    ensures Refines(L, s, ready, renames, op, ok, s')
  {
    hide Ok, Step, WriteAccepted, TruncateAccepted, UnlinkAccepted, RenamesFirst, Files;
  }

  lemma WriteAcceptedIs(L: Layout, s: State, ready: bool, path: string, offset: nat, bytes: seq<Byte>)
    ensures var f := LookupPath(s.table, path);
            WriteAccepted(L, s, ready, path, offset, bytes)
            == if f.Some? then
                 ready && s.table[f.value].writable && offset + |bytes| <= U64_MAX
                 && (offset + |bytes| > s.table[f.value].capacity ==> CanGrow(L, s, f.value, offset + |bytes|))
               else offset == 0 && CreateAccepted(L, s, ready, path, |bytes|)
  {
    hide LookupPath, CreateAccepted, CanGrow;
  }

  lemma CreateAcceptedIs(L: Layout, s: State, ready: bool, path: string, size: nat)
    ensures CreateAccepted(L, s, ready, path, size)
            == (ready && ShortPath(path) && ClusterCountFor(L.g, size) > 0 && |s.table| < MAX_ENTRIES
                && HasRun(L, s.disk, ClusterCountFor(L.g, size)) && HasSlot(L, s.disk))
  {
    hide ShortPath, ClusterCountFor, HasRun, HasSlot;
  }

  lemma TruncateAcceptedIs(L: Layout, s: State, ready: bool, renames: bool, path: string, size: nat)
    ensures var f, t := LookupPath(s.table, path), RenameTarget(s.table);
            TruncateAccepted(L, s, ready, renames, path, size)
            == if f.Some? then ready && s.table[f.value].writable && size <= s.table[f.value].capacity
               else if renames && t.Some? then
                 ready && ShortPath(path) && ClusterCountFor(L.g, size) > 0 && size <= s.table[t.value].capacity
               else CreateAccepted(L, s, ready, path, size)
  {
    hide LookupPath, RenameTarget, CreateAccepted, ClusterCountFor, ShortPath;
  }

  /** The new row has room for the bytes the clusters were counted for. */
  lemma CountHolds(L: Layout, s: State, size: nat)
    requires Ok(L, s) && ClusterCountFor(L.g, size) > 0
    ensures ClusterCountFor(L.g, size) <= MAX_CLUSTERS && size <= Capacity(L.g, ClusterCountFor(L.g, size))
    ensures size <= U64_MAX
  {
    hide *;
    OkParts(L, s);
    SpcBounds(L.g, |s.disk|);
    CountLimit(L.g, size);
    if size > 0 { ClusterCountBounds(L.g, size); }
  }

  lemma CountLimit(g: Geometry, size: nat)
    requires g.sectorsPerCluster >= 1 && ClusterCountFor(g, size) > 0
    ensures size <= U64_MAX && ClusterCountFor(g, size) <= MAX_CLUSTERS
  {
  }

  /** After a create, the path names the new row. */
  lemma NewRowFound(L: Layout, s: State, path: string, n: nat, run: seq<nat>, slot: nat)
    requires CanCreate(L, s, path, n, run, slot) && |s.table| < MAX_ENTRIES
    ensures CreateShape(L, s, path, run, slot) && path != ""
    ensures var s' := CreateState(L, s, path, run, slot);
            && |s'.table| == |s.table| + 1 && LookupPath(s'.table, path) == Some(|s.table|)
               && s'.table[|s.table|].name == path[1..]
            && s'.table[|s.table|].writable && s'.table[|s.table|].capacity == Capacity(L.g, n)
               && s'.table[|s.table|].size == 0
  {
    hide *;
    CreateStateRows(L, s, path, n, run, slot);
    CanCreateLookup(L, s, path, n, run, slot);
    LastRowFound(s.table, CreateState(L, s, path, run, slot).table, path);
  }

  lemma LastRowFound(t: seq<Entry>, t': seq<Entry>, path: string)
    requires ShortPath(path) && path != "" && LookupPath(t, path) == None && |t'| == |t| + 1 && t'[..|t|] == t
    requires t'[|t|].parent == "/" && t'[|t|].name == path[1..]
    ensures LookupPath(t', path) == Some(|t|)
  {
    hide ShortName;
    ShortPathKey(path);
    var key := ("/", path[1..]);
    assert forall j: nat :: j < |t| ==> t'[j] == t[j] && !Matches(t[j], key);
  }

  /** After a rename, the path names the renamed row. */
  lemma RenamedRowFound(L: Layout, s: State, i: nat, path: string)
    requires Ok(L, s) && ShortPath(path) && path != "" && LookupPath(s.table, path) == None
    requires CanRelabel(L, s, i, path[1..], 0)
    ensures LabelShape(s, i, path[1..]) && i < |s.table|
    ensures var s' := RelabelState(L, s, i, path[1..], 0);
            && |s'.table| == |s.table| && LookupPath(s'.table, path) == Some(i)
            && s'.table[i] == s.table[i].(name := path[1..], size := 0) && s'.table[i].writable
  {
    hide *;
    CanRelabelIs(L, s, i, path[1..], 0);
    RowFields(L, s, i);
    RelabelStep(L, s, i, path[1..], 0);
    OneRowFound(s.table, RelabelState(L, s, i, path[1..], 0).table, i, path);
  }

  lemma OneRowFound(t: seq<Entry>, t': seq<Entry>, i: nat, path: string)
    requires ShortPath(path) && path != "" && LookupPath(t, path) == None && i < |t| == |t'| && t' == t[i := t'[i]]
    requires t'[i].parent == "/" && t'[i].name == path[1..]
    ensures LookupPath(t', path) == Some(i)
  {
    hide ShortName;
    ShortPathKey(path);
    var key := ("/", path[1..]);
    assert forall j: nat :: j < |t| && j != i ==> t'[j] == t[j] && !Matches(t[j], key);
  }

  lemma CanCreateFrom(L: Layout, s: State, path: string, n: nat, run: seq<nat>, slot: nat)
    requires Ok(L, s) && ShortPath(path) && LookupPath(s.table, path) == None && 1 <= n <= MAX_CLUSTERS
    requires ChosenRun(L, s.disk, run, n) && ChosenSlot(L, s.disk, slot)
    ensures CanCreate(L, s, path, n, run, slot)
  {
    hide Ok, ShortPath, LookupPath, ChosenRun, ChosenSlot;
  }

  /** A create that is then resized appends a file of that many bytes. */
  lemma NewTruncateStep(L: Layout, s: State, path: string, size: nat, n: nat, run: seq<nat>, slot: nat)
    requires CanCreate(L, s, path, n, run, slot) && |s.table| < MAX_ENTRIES && CreateShape(L, s, path, run, slot)
    requires path != ""
    requires var s1 := CreateState(L, s, path, run, slot);
             |s1.table| == |s.table| + 1 && s1.table[|s.table|].name == path[1..]
             && CanRelabel(L, s1, |s.table|, path[1..], size) && LabelShape(s1, |s.table|, path[1..])
    ensures Ok(L, s)
    ensures var s' := RelabelState(L, CreateState(L, s, path, run, slot), |s.table|, path[1..], size);
            Ok(L, s') && Step(Files(L, s), TruncateOp(path, size), true, Files(L, s')) && StaticSame(L, s, s')
  {
    hide *;
    CreateView(L, s, path, n, run, slot);
    CanCreateLookup(L, s, path, n, run, slot);
    LookupUnnamed(L, s, path);
    var s1 := CreateState(L, s, path, run, slot);
    RelabelView(L, s1, |s.table|, path[1..], size);
    RelabelResized(L, s1, |s.table|, path[1..], size);
    var s' := RelabelState(L, s1, |s.table|, path[1..], size);
    StaticTrans(L, s, s1, s');
    ShortPathIs(path);
    StepSized(Files(L, s), Files(L, s1), Files(L, s'), path, size);
  }

  lemma StepSized(v: seq<Option<File>>, v1: seq<Option<File>>, v': seq<Option<File>>, path: string, size: nat)
    requires Unnamed(v, path) && path != "" && path[0] == '/' && v1 == v + [Some(File(path[1..], []))]
    requires |v'| == |v1| && v' == v1[|v| := v'[|v|]] && v'[|v|].Some? && v'[|v|].value.name == path[1..]
    requires |v'[|v|].value.bytes| == size
    ensures Step(v, TruncateOp(path, size), true, v')
  {
    hide Unnamed;
    var f := v'[|v|].value;
    assert path == "/" + f.name && v' == v + [Some(f)];
  }

  /** A rename, on its own, is what a truncate that then fails leaves behind. */
  lemma RenameStep(L: Layout, s: State, i: nat, path: string, size: nat)
    requires Ok(L, s) && ShortPath(path) && path != "" && LookupPath(s.table, path) == None
    requires i < |s.table| && s.table[i].size == 0 && CanRelabel(L, s, i, path[1..], 0) && LabelShape(s, i, path[1..])
    ensures var s' := RelabelState(L, s, i, path[1..], 0);
            && Ok(L, s') && i < |Files(L, s)| && Renamed(Files(L, s), Files(L, s'), i, path, 0)
               && Unnamed(Files(L, s), path)
            && Step(Files(L, s), TruncateOp(path, size), false, Files(L, s')) && StaticSame(L, s, s')
  {
    hide *;
    LookupUnnamed(L, s, path);
    RelabelView(L, s, i, path[1..], 0);
    RelabelResized(L, s, i, path[1..], 0);
    ShortPathIs(path);
    var s' := RelabelState(L, s, i, path[1..], 0);
    OkSizes(L, s);
    OkSizes(L, s');
    StepRenamed(Files(L, s), Files(L, s'), Files(L, s'), i, path, 0);
    StepFailed(Files(L, s), Files(L, s'), i, path, size);
  }

  lemma StepRenamed(v: seq<Option<File>>, v1: seq<Option<File>>, v': seq<Option<File>>, i: nat, path: string, size: nat)
    requires i < |v| == |v1| == |v'| && v1 == v[i := v1[i]] && v' == v1[i := v'[i]] && path != "" && path[0] == '/'
    requires v[i].Some? && v[i].value.bytes == [] && v'[i].Some? && v'[i].value.name == path[1..]
    requires |v'[i].value.bytes| == size
    ensures Renamed(v, v', i, path, size)
  {
    assert path == "/" + v'[i].value.name;
    assert forall j: nat :: j < |v| && j != i ==> v1[j] == v[j] && v'[j] == v1[j];
  }

  lemma StepFailed(v: seq<Option<File>>, v': seq<Option<File>>, i: nat, path: string, size: nat)
    requires Unnamed(v, path) && Renamed(v, v', i, path, 0)
    ensures Step(v, TruncateOp(path, size), false, v')
  {
    hide Unnamed, Renamed;
  }

  lemma StepRenamedOk(v: seq<Option<File>>, v': seq<Option<File>>, i: nat, path: string, size: nat)
    requires Unnamed(v, path) && Renamed(v, v', i, path, size)
    ensures Step(v, TruncateOp(path, size), true, v')
  {
    hide Unnamed, Renamed;
  }

  /** A rename that is then resized. */
  lemma RenameTruncateStep(L: Layout, s: State, i: nat, path: string, size: nat)
    requires Ok(L, s) && ShortPath(path) && path != "" && LookupPath(s.table, path) == None
    requires i < |s.table| && s.table[i].size == 0 && CanRelabel(L, s, i, path[1..], 0) && LabelShape(s, i, path[1..])
    requires var s1 := RelabelState(L, s, i, path[1..], 0);
             CanRelabel(L, s1, i, path[1..], size) && LabelShape(s1, i, path[1..])
    ensures var s' := RelabelState(L, RelabelState(L, s, i, path[1..], 0), i, path[1..], size);
            Ok(L, s') && Step(Files(L, s), TruncateOp(path, size), true, Files(L, s')) && StaticSame(L, s, s')
  {
    hide *;
    var s1 := RelabelState(L, s, i, path[1..], 0);
    RenameStep(L, s, i, path, size);
    RelabelView(L, s, i, path[1..], 0);
    RelabelResized(L, s, i, path[1..], 0);
    RelabelView(L, s1, i, path[1..], size);
    RelabelResized(L, s1, i, path[1..], size);
    var s' := RelabelState(L, s1, i, path[1..], size);
    StaticTrans(L, s, s1, s');
    ShortPathIs(path);
    OkSizes(L, s);
    OkSizes(L, s1);
    OkSizes(L, s');
    StepRenamed(Files(L, s), Files(L, s1), Files(L, s'), i, path, size);
    StepRenamedOk(Files(L, s), Files(L, s'), i, path, size);
  }
}
