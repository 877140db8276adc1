/** Runs of the write path on concrete volumes: what its limits look like when they are met. */
module Scenarios {
  import opened Bytes
  import opened Volume
  import opened Frames
  import opened Chains
  import opened Allocation
  import opened Options
  import opened Paths
  import opened EntrySet
  import opened Transaction
  import opened FileSystem
  import opened FileOps
  import opened CreateUnlink
  import opened Edits
  import opened Search
  import opened CreateSpec
  import opened WriteSpec
  import opened FileView
  import opened MountProofs
  import opened Mounts
  import opened RootScan
  import opened Restore
  import opened Format

  // ---------- which clusters an operation leaves alone ----------

  /** Cluster `c` looks free on one disk exactly when it does on the other. */
  ghost predicate SameUse(L: Layout, d: Disk, d': Disk, c: nat) {
    && Fits(L.g, |d|) && |d'| == |d| && BitmapCovers(L.g, L.bc)
    && FreeAt(L, d', c) == FreeAt(L, d, c)
  }

  lemma SameUseFrom(L: Layout, d: Disk, d': Disk, fats: set<nat>, bits: set<nat>, data: set<nat>, c: nat)
    requires Changes(L.g, L.bc, d, d', fats, bits, data) && c !in fats && c !in bits
    ensures SameUse(L, d, d', c)
  {
    hide FatAt, BitAt, Fits, BitmapCovers, DataSame;
  }

  lemma SameUseTrans(L: Layout, a: Disk, b: Disk, d: Disk, c: nat)
    requires SameUse(L, a, b, c) && SameUse(L, b, d, c)
    ensures SameUse(L, a, d, c)
  {
    hide FreeAt, Fits, BitmapCovers;
  }

  /** A create uses up no cluster but those of its run. */
  lemma CreateSpares(L: Layout, s: State, path: string, n: nat, run: seq<nat>, slot: nat, c: nat)
    requires CanCreate(L, s, path, n, run, slot) && |s.table| < MAX_ENTRIES && c !in run
    ensures CreateShape(L, s, path, run, slot) && SameUse(L, s.disk, CreateState(L, s, path, run, slot).disk, c)
  {
    hide *;
    CanCreateRun(L, s, path, n, run, slot);
    CreateFits(L, s, path, n, run, slot);
    CreateIs(L, s, path, run, slot);
    AllocParts(L, s, run);
    FreshOutside(L, s, run);
    AllocDiskChanges(L.g, L.bc, s.disk, run);
    var a, lba, off := AllocState(L, s, run), RootLba(L, |s.disk|, slot / 16), slot % 16 * 32;
    InList(run, c);
    SameUseFrom(L, s.disk, a.disk, Elements(run), Elements(run), Elements(run) + Elements(L.bc), c);
    CanOrphanIs(L, a, lba, off, path[1..], run);
    OrphanParts(a, lba, off, path[1..], run);
    EnterIs(L, a, lba, off, path[1..], run);
    var s' := CreateState(L, s, path, run, slot);
    RootWriteChanges(L, a.disk, lba, s'.disk[lba]);
    assert s'.disk == a.disk[lba := s'.disk[lba]];
    SameUseFrom(L, a.disk, s'.disk, {}, {}, Elements(L.rc), c);
    SameUseTrans(L, s.disk, a.disk, s'.disk, c);
  }

  /** A write that grows its file uses up no cluster but the new ones, and appends exactly those to the chain. */
  lemma WriteFileGrows(L: Layout, s: State, i: nat, offset: nat, bytes: seq<Byte>, more: seq<nat>, c: nat)
    requires CanGrowBy(L, s, i, offset + |bytes|, more) && i < |s.table| && offset + |bytes| > s.table[i].capacity
    requires c !in more && i < |s.chains| && c !in s.chains[i]
    ensures WriteFileShape(L, s, i, offset, bytes, more)
    ensures var s' := WriteFileState(L, s, i, offset, bytes, more);
            && SameUse(L, s.disk, s'.disk, c) && s'.chains == s.chains[i := s.chains[i] + more]
            && s'.added == s.added + Elements(more)
            && |s'.table| == |s.table| && s'.table[i].capacity == Capacity(L.g, |s.chains[i] + more|)
  {
    hide *;
    var end := offset + |bytes|;
    WriteAllowed(L, s, i, offset, bytes, more);
    WriteFileIs(L, s, i, offset, bytes, more);
    GrownIs(L, s, i, end, more);
    GrownRows(L, s, i, end, more);
    CanExtendIs(L, s, i, more);
    FreshOutside(L, s, more);
    ExtendStateParts(L, s, i, more);
    ExtendStateChanges(L, s, i, more);
    var s1 := ExtendState(L, s, i, more);
    LastElement(s.chains[i]);
    InList(more, c);
    SameUseFrom(L, s.disk, s1.disk, {Last(s.chains[i])} + Elements(more), Elements(more),
                Elements(more) + Elements(L.bc), c);
    WriteSpares(L, s1, i, offset, bytes, c);
    WriteStateIs(L, s1, i, offset, bytes);
    var w := WriteState(L, s1, i, offset, bytes);
    SameUseTrans(L, s.disk, s1.disk, w.disk, c);
    RelabelSpares(L, w, i, s.table[i].name, end, c);
    RelabelDisk(L, w, i, s.table[i].name, end);
    RelabelOther(L, w, i, s.table[i].name, end);
    SameUseTrans(L, s.disk, w.disk, RelabelState(L, w, i, s.table[i].name, end).disk, c);
  }

  lemma WriteSpares(L: Layout, s: State, i: nat, pos: nat, bytes: seq<Byte>, c: nat)
    requires CanWrite(L, s, i, pos, bytes) && WriteShape(L, s, i, pos, bytes)
    ensures SameUse(L, s.disk, WriteState(L, s, i, pos, bytes).disk, c)
  {
    hide *;
    WriteFits(L, s, i, pos, bytes);
    CanWriteIs(L, s, i, pos, bytes);
    ChainOutside(L, s, i);
    WriteStateIs(L, s, i, pos, bytes);
    WriteBytesChanges(L.g, L.bc, s.disk, s.chains[i], pos, bytes);
    SameUseFrom(L, s.disk, WriteState(L, s, i, pos, bytes).disk, {}, {}, Elements(s.chains[i]), c);
  }

  lemma RelabelSpares(L: Layout, s: State, i: nat, name: string, size: nat, c: nat)
    requires CanRelabel(L, s, i, name, size) && LabelShape(s, i, name)
    ensures SameUse(L, s.disk, RelabelState(L, s, i, name, size).disk, c)
  {
    hide *;
    RelabelFits(L, s, i, name, size);
    RelabelDisk(L, s, i, name, size);
    var s', lba := RelabelState(L, s, i, name, size), s.table[i].dirLba;
    RootWriteChanges(L, s.disk, lba, s'.disk[lba]);
    assert s'.disk == s.disk[lba := s'.disk[lba]];
    SameUseFrom(L, s.disk, s'.disk, {}, {}, Elements(L.rc), c);
  }

  // ---------- what the search finds ----------

  /** When every cluster below `c` is reserved or in use, a search for one cluster takes `c`. */
  lemma LowestFree(L: Layout, s: State, c: nat)
    requires Ok(L, s) && Fits(L.g, |s.disk|) && BitmapCovers(L.g, L.bc) && FreeAt(L, s.disk, c)
    requires forall x :: 2 <= x < c ==> x in L.reserved || x in s.added
    ensures HasRun(L, s.disk, 1)
    ensures forall run: seq<nat> :: ChosenRun(L, s.disk, run, 1) ==> run == [c]
  {
    hide *;
    forall x: nat | x < c ensures !FreeAt(L, s.disk, x) { BelowTaken(L, s, c, x); }
    OneFree(L, s.disk, c);
    forall run: seq<nat> | ChosenRun(L, s.disk, run, 1) ensures run == [c] { ChosenOne(L, s.disk, c, run); }
  }

  lemma BelowTaken(L: Layout, s: State, c: nat, x: nat)
    requires Ok(L, s) && Fits(L.g, |s.disk|) && BitmapCovers(L.g, L.bc)
    requires x < c && (2 <= x ==> x in L.reserved || x in s.added)
    ensures !FreeAt(L, s.disk, x)
  {
    OkParts(L, s);
    hide Fits, BitmapCovers, FatAt, BitAt, TableOk, Linked, Ends, LayoutOk;
  }

  lemma OneFree(L: Layout, d: Disk, c: nat)
    requires Fits(L.g, |d|) && BitmapCovers(L.g, L.bc) && FreeAt(L, d, c)
    ensures HasRun(L, d, 1) && RunFree(L, d, c, 1)
  {
    hide Fits, BitmapCovers, FreeAt;
    assert RunFree(L, d, c, 1);
  }

  lemma ChosenOne(L: Layout, d: Disk, c: nat, run: seq<nat>)
    requires Fits(L.g, |d|) && BitmapCovers(L.g, L.bc) && RunFree(L, d, c, 1) && ChosenRun(L, d, run, 1)
    requires forall x: nat :: x < c ==> !FreeAt(L, d, x)
    ensures run == [c]
  {
    hide Fits, BitmapCovers, FreeAt;
    assert FreeAt(L, d, run[0]);
  }

  // ---------- a file that unlink cannot release ----------

  /** 5000 clusters of eight sectors, the bitmap in cluster 2 and the root directory in cluster 3. */
  const SMALL: Geometry := Geometry(24, 40, 64, 5000, 8, 3, 2, 625)
  const SMALL_SECTORS: nat := 40064

  /** The only free clusters of a nearly full volume: three FAT sectors, two bitmap sectors. */
  const SCATTERED: set<nat> := {10, 4200, 4400}

  lemma SmallFits()
    ensures Formattable(SMALL, SMALL_SECTORS, SCATTERED) && Fits(SMALL, SMALL_SECTORS) && SMALL.sectorsPerCluster >= 1
    ensures Clusters(SMALL, [10, 4200, 4400]) && ClusterValid(SMALL, 4400)
    ensures FatLba(SMALL, 10) != FatLba(SMALL, 4200) && FatLba(SMALL, 10) != FatLba(SMALL, 4400)
    ensures FatLba(SMALL, 4200) != FatLba(SMALL, 4400)
  {
  }

  lemma SmallBits()
    ensures BitmapCovers(SMALL, [2]) && ClusterValid(SMALL, 10) && ClusterValid(SMALL, 4200)
    ensures BitLba(SMALL, [2], 10) != BitLba(SMALL, [2], 4200)
  {
    if BitLba(SMALL, [2], 10) == BitLba(SMALL, [2], 4200) {
      SameBitLba(SMALL, [2], 10, 4200);
    }
  }

  lemma SmallSizes()
    ensures Capacity(SMALL, 1) == 4096 && Capacity(SMALL, 2) == 8192
    ensures ClusterCountFor(SMALL, 4097) == 2 && ClusterCountFor(SMALL, 8193) == 3
  {
  }

  lemma SmallLayout()
    ensures var L := FreshLayout(SMALL, SCATTERED);
            L.g == SMALL && L.bc == [2] && forall x :: 2 <= x < 5002 && x != 10 && x != 4200 && x != 4400 ==>
              x in L.reserved
  {
  }

  lemma ShortA()
    ensures ShortPath("/A") && ShortName("A") && "/A"[1..] == "A" && 8193 <= U64_MAX && 1 <= MAX_CLUSTERS
    ensures 0 < MAX_ENTRIES
    ensures LookupPath([], "/A") == None
  {
  }

  /** The state of the small volume once the file `/A` has the clusters `used`. */
  ghost predicate Small(L: Layout, s: State, used: seq<nat>) {
    && L == FreshLayout(SMALL, SCATTERED) && Ok(L, s) && |s.table| == |s.chains| == 1 && s.chains[0] == used
    && s.added == Elements(used) && s.table[0].capacity == Capacity(SMALL, |used|)
    && s.table[0].writable && s.table[0].parent == "/" && s.table[0].name == "A"
  }

  lemma SmallIs(L: Layout, s: State, used: seq<nat>)
    requires Small(L, s, used)
    ensures L == FreshLayout(SMALL, SCATTERED) && Ok(L, s) && |s.table| == |s.chains| == 1 && s.chains[0] == used
    ensures s.added == Elements(used) && s.table[0].capacity == Capacity(SMALL, |used|) && s.table[0].writable
    ensures LookupPath(s.table, "/A") == Some(0)
  {
    hide Ok, Capacity, Elements;
    assert "/A"[1..] == "A";
    ShortPathKey("/A");
  }

  /** The next cluster of the file is the lowest that is still free. */
  lemma NextCluster(L: Layout, s: State, used: seq<nat>, c: nat)
    requires Small(L, s, used) && c in SCATTERED && Fits(L.g, |s.disk|) && BitmapCovers(L.g, L.bc)
    requires FreeAt(L, s.disk, c)
    requires forall x :: x in SCATTERED && x < c ==> x in used
    ensures HasRun(L, s.disk, 1) && forall run: seq<nat> :: ChosenRun(L, s.disk, run, 1) ==> run == [c]
  {
    SmallIs(L, s, used);
    SmallLayout();
    hide Small, Ok, Fits, BitmapCovers, FreeAt, HasRun, ChosenRun, FreshLayout;
    LowestFree(L, s, c);
  }

  lemma SmallFrom(L: Layout, s: State, used: seq<nat>, s': State, used': seq<nat>)
    requires Small(L, s, used) && Ok(L, s') && |s'.table| == 1 && s'.chains == s.chains[0 := used'] && used <= used'
    requires s'.added == s.added + Elements(used'[|used|..]) && s'.table[0].capacity == Capacity(SMALL, |used'|)
    requires s'.table[0] == s.table[0].(size := s'.table[0].size, capacity := s'.table[0].capacity)
    ensures Small(L, s', used')
  {
    hide Ok, Capacity;
    assert used' == used + used'[|used|..];
  }

  /** The file after a write just past its capacity. */
  lemma AfterGrowth(L: Layout, s: State, used: seq<nat>, offset: nat, more: seq<nat>, c: nat)
    requires Small(L, s, used) && 1 <= |used| <= 2 && offset == Capacity(SMALL, |used|) && more == [c] && c !in used
    requires 0 !in used + [c] && CanGrowBy(L, s, 0, offset + 1, more)
    ensures WriteFileShape(L, s, 0, offset, [1], more)
    ensures var s' := WriteFileState(L, s, 0, offset, [1], more);
            Small(L, s', used + [c]) && forall x: nat :: x !in used + [c] ==> SameUse(L, s.disk, s'.disk, x)
  {
    hide *;
    SmallIs(L, s, used);
    SmallLayout();
    assert |[1]| == 1;
    WriteFileRows(L, s, 0, offset, [1], more);
    var s' := WriteFileState(L, s, 0, offset, [1], more);
    WriteFileGrows(L, s, 0, offset, [1], more, 0);
    SmallFrom(L, s, used, s', used + [c]);
    forall x: nat | x !in used + [c]
      ensures SameUse(L, s.disk, s'.disk, x) { WriteFileGrows(L, s, 0, offset, [1], more, x); }
  }

  lemma SlotFound(L: Layout, d: Disk, j: nat)
    requires ChosenSlot(L, d, j)
    ensures HasSlot(L, d)
  {
    hide ChosenSlot;
  }

  lemma SmallParts()
    ensures 10 in SCATTERED && 4200 in SCATTERED && 4400 in SCATTERED && SMALL.bitmapCluster == 2
    ensures forall x :: x in SCATTERED ==> x == 10 || x == 4200 || x == 4400
  {
  }

  /** On a formatted volume a create of one cluster finds a slot and takes the lowest cluster left free. */
  lemma FormattedReady(g: Geometry, n: nat, keep: set<nat>, c: nat)
    requires Formattable(g, n, keep) && ClusterValid(g, c) && c in keep && forall x :: x in keep ==> c <= x
    ensures var L, d := FreshLayout(g, keep), Formatted(g, n, keep);
            && Ok(L, State(d, [], [], {})) && HasRun(L, d, 1) && HasSlot(L, d)
            && (forall run: seq<nat> :: ChosenRun(L, d, run, 1) ==> run == [c])
  {
    hide *;
    var L, d := FreshLayout(g, keep), Formatted(g, n, keep);
    StartIs(g, n, keep);
    FormattedOk(g, n, keep);
    StartFree(g, n, keep, c);
    FirstSlot(g, n, keep);
    SlotFound(L, d, 0);
    FreshLayoutIs(g, n, keep);
    LowReserved(g, keep, c);
    LowestFree(L, Start(g, n, keep), c);
  }

  lemma LowReserved(g: Geometry, keep: set<nat>, c: nat)
    requires ClusterValid(g, c) && forall x :: x in keep ==> c <= x
    ensures forall x :: 2 <= x < c ==> x in FreshLayout(g, keep).reserved
  {
  }

  /** Creating the file. */
  lemma AfterCreate(L: Layout, s: State, run: seq<nat>, slot: nat)
    requires L == FreshLayout(SMALL, SCATTERED) && CanCreate(L, s, "/A", 1, run, slot) && run == [10]
    requires s.table == [] && s.chains == [] && s.added == {}
    ensures CreateShape(L, s, "/A", run, slot)
    ensures var s' := CreateState(L, s, "/A", run, slot);
            Small(L, s', [10]) && forall x: nat :: x != 10 ==> SameUse(L, s.disk, s'.disk, x)
  {
    ShortA();
    SmallLayout();
    hide *;
    CreateStateOk(L, s, "/A", 1, run, slot);
    CreateStateRows(L, s, "/A", 1, run, slot);
    OkSizes(L, CreateState(L, s, "/A", run, slot));
    forall x: nat | x != 10 ensures SameUse(L, s.disk, CreateState(L, s, "/A", run, slot).disk, x) {
      CreateSpares(L, s, "/A", 1, run, slot, x);
    }
    SmallFirst(L, CreateState(L, s, "/A", run, slot), [10]);
  }

  lemma SmallFirst(L: Layout, s: State, used: seq<nat>)
    requires L == FreshLayout(SMALL, SCATTERED) && Ok(L, s) && |s.table| == 1 && s.chains == [used]
    requires s.added == {} + Elements(used)
    requires s.table[0].capacity == Capacity(SMALL, |used|) && s.table[0].writable && s.table[0].parent == "/"
    requires s.table[0].name == "A"
    ensures Small(L, s, used)
  {
    hide Ok, Capacity, Elements, FreshLayout;
  }

  lemma SmallFree(L: Layout, d: Disk, d': Disk, c: nat)
    requires SameUse(L, d, d', c) && Fits(L.g, |d|) && BitmapCovers(L.g, L.bc) && FreeAt(L, d, c)
    ensures Fits(L.g, |d'|) && BitmapCovers(L.g, L.bc) && FreeAt(L, d', c)
  {
    hide FreeAt, Fits, BitmapCovers;
  }

  /** The two sizes at which the file outgrows its clusters. */
  predicate Outgrows(clusters: nat, end: nat) {
    (clusters == 1 && end == 4097) || (clusters == 2 && end == 8193)
  }

  lemma OutgrowsBoth()
    ensures Outgrows(1, 4097) && Outgrows(2, 8193)
  {
  }

  lemma OutgrowsIs(clusters: nat, end: nat)
    requires Outgrows(clusters, end)
    ensures end - 1 == Capacity(SMALL, clusters) && ClusterCountFor(SMALL, end) == clusters + 1 && 1 <= clusters <= 2
  {
    SmallSizes();
    hide Capacity, ClusterCountFor;
  }

  lemma GrowthAllowed(L: Layout, s: State, used: seq<nat>, end: nat)
    requires Small(L, s, used) && HasRun(L, s.disk, 1) && Outgrows(|used|, end) && L.g == SMALL
    ensures end > s.table[0].capacity && CanGrow(L, s, 0, end) && end - 1 == Capacity(SMALL, |used|)
  {
    hide *;
    SmallIs(L, s, used);
    OutgrowsIs(|used|, end);
    CanGrowIs(L, s, 0, end);
  }

  lemma GrowthIs(L: Layout, s: State, used: seq<nat>, end: nat, more: seq<nat>, c: nat)
    requires Small(L, s, used) && Outgrows(|used|, end) && L.g == SMALL && CanGrowBy(L, s, 0, end, more)
    requires ChosenRun(L, s.disk, more, |more|) && forall run: seq<nat> :: ChosenRun(L, s.disk, run, 1) ==> run == [c]
    ensures more == [c]
  {
    hide *;
    SmallIs(L, s, used);
    OutgrowsIs(|used|, end);
    GrownIs(L, s, 0, end, more);
  }

  lemma CanGrowIs(L: Layout, s: State, i: nat, end: nat)
    requires i < |s.chains|
    ensures CanGrow(L, s, i, end) ==
              (ClusterCountFor(L.g, end) > |s.chains[i]|
               && HasRun(L, s.disk, ClusterCountFor(L.g, end) - |s.chains[i]|))
  {
    hide ClusterCountFor, HasRun;
  }

  lemma ScatteredEnd(L: Layout, s: State)
    requires Small(L, s, [10, 4200, 4400])
    ensures !UnlinkFits(L, s, 0)
  {
    SmallIs(L, s, [10, 4200, 4400]);
    SmallLayout();
    SmallFits();
    SmallBits();
    OkParts(L, s);
    hide *;
    ScatteredUnlinkFails(L, s, 0);
  }

  /** On a nearly full volume three writes scatter a file over the last free clusters; the file can then not be
      unlinked, since its release needs more than the four buffered sectors. */
  method ScatteredUnlink() returns (m: Mount, removed: bool)
    ensures m.Valid() && !removed
    ensures |m.table| == 1 && LookupPath(m.table, "/A") == Some(0) && m.table[0].writable
    ensures m.chains == [[10, 4200, 4400]]
  {
    hide *;
    SmallFits();
    SmallBits();
    SmallLayout();
    SmallParts();
    ShortA();
    FormattedReady(SMALL, SMALL_SECTORS, SCATTERED, 10);
    StartFree(SMALL, SMALL_SECTORS, SCATTERED, 4200);
    StartFree(SMALL, SMALL_SECTORS, SCATTERED, 4400);
    var device := new BlockDevice(Formatted(SMALL, SMALL_SECTORS, SCATTERED));
    m := new Mount(SMALL, device, true, 0, [], FreshLayout(SMALL, SCATTERED), []);
    ghost var L := m.L;
    m.NowIs();
    ghost var s0 := m.Now();
    var created;
    ghost var made, run, slot;
    created, made, run, slot := m.Create("/A", 1);
    CanCreateFrom(L, s0, "/A", 1, run, slot);
    AfterCreate(L, s0, run, slot);
    m.NowIs();
    ghost var s1 := m.Now();
    SmallFree(L, s0.disk, s1.disk, 4200);
    SmallFree(L, s0.disk, s1.disk, 4400);
    NextCluster(L, s1, [10], 4200);
    OutgrowsBoth();
    GrowthAllowed(L, s1, [10], 4097);
    SmallIs(L, s1, [10]);
    var written;
    ghost var more;
    written, more := m.WriteFile(0, 4096, [1]);
    assert [10] + [4200] == [10, 4200];
    GrowthIs(L, s1, [10], 4097, more, 4200);
    AfterGrowth(L, s1, [10], 4096, more, 4200);
    m.NowIs();
    ghost var s2 := m.Now();
    SmallFree(L, s1.disk, s2.disk, 4400);
    NextCluster(L, s2, [10, 4200], 4400);
    GrowthAllowed(L, s2, [10, 4200], 8193);
    SmallIs(L, s2, [10, 4200]);
    written, more := m.WriteFile(0, 8192, [1]);
    assert [10, 4200] + [4400] == [10, 4200, 4400];
    GrowthIs(L, s2, [10, 4200], 8193, more, 4400);
    AfterGrowth(L, s2, [10, 4200], 8192, more, 4400);
    m.NowIs();
    ScatteredEnd(L, m.Now());
    SmallIs(L, m.Now(), [10, 4200, 4400]);
    ghost var i;
    removed, i := m.Unlink("/A");
    m.NowIs();
  }

  // ---------- create and unlink, again and again ----------

  /** The directory entries of sector `l` are in use on one disk exactly where they are on the other. */
  ghost predicate SameSlots(d: Disk, d': Disk, l: nat) {
    l < |d| == |d'| && forall p: nat :: p < 16 ==> SlotUsed(d'[l][p * 32]) == SlotUsed(d[l][p * 32])
  }

  /** Writing a set into free slots and deleting it leaves them free. */
  lemma SpliceDeleted(t: Sector, off: nat, bs: seq<Byte>, p: nat)
    requires SlotsFree(t, off) && |bs| == 96 && p < 16
    ensures SlotUsed(Deleted(Splice(t, off, bs), off, 3)[p * 32]) == SlotUsed(t[p * 32])
  {
    var u := Splice(t, off, bs);
    DeletedFree(u, off);
    hide Splice, Deleted, SlotUsed;
    if off <= p * 32 < off + 96 {
      assert p * 32 == off || p * 32 == off + 32 || p * 32 == off + 64;
    }
  }

  lemma {:induction false} SlotsFrom(d: Disk, d': Disk, l: nat, off: nat, bs: seq<Byte>)
    requires l < |d| == |d'| && |bs| == 96 && SlotsFree(d[l], off)
    requires d'[l] == Deleted(Splice(d[l], off, bs), off, 3)
    ensures SameSlots(d, d', l)
  {
    forall p: nat | p < 16
      ensures SlotUsed(d'[l][p * 32]) == SlotUsed(d[l][p * 32]) { SpliceDeleted(d[l], off, bs, p); }
  }

  /** Create and unlink leave every slot of the root directory as free as it was. */
  lemma RootAgain(L: Layout, s: State, path: string, n: nat, run: seq<nat>, slot: nat, l: nat)
    requires CanCreate(L, s, path, n, run, slot) && |s.table| < MAX_ENTRIES && LayoutOk(L, |s.disk|)
    requires InRoot(L, |s.disk|, l)
    ensures CreateShape(L, s, path, run, slot) && UnlinkShape(L, CreateState(L, s, path, run, slot), |s.table|)
    ensures SameSlots(s.disk, UnlinkState(L, CreateState(L, s, path, run, slot), |s.table|).disk, l)
  {
    hide *;
    CreateThenUnlink(L, s, path, n, run, slot);
    CreatedRow(L, s, path, n, run, slot);
    CanCreateRun(L, s, path, n, run, slot);
    CanCreatePlace(L, s, path, n, run, slot);
    CreateIs(L, s, path, run, slot);
    AllocKeepsRoot(L, s, run, l);
    AllocKeepsRoot(L, s, run, RootLba(L, |s.disk|, slot / 16));
    var a, lba, off := AllocState(L, s, run), RootLba(L, |s.disk|, slot / 16), slot % 16 * 32;
    var s' := CreateState(L, s, path, run, slot);
    OrphanParts(a, lba, off, path[1..], run);
    EnterIs(L, a, lba, off, path[1..], run);
    UnlistedSector(L, s', |s.table|, l);
    if l == lba {
      SlotsFrom(s.disk, UnlinkState(L, s', |s.table|).disk, l, off, EncodedSet(path[1..], run[0], 0));
    } else {
      SlotsEqual(s.disk, UnlinkState(L, s', |s.table|).disk, l);
    }
  }

  lemma SlotsEqual(d: Disk, d': Disk, l: nat)
    requires l < |d| == |d'| && d'[l] == d[l]
    ensures SameSlots(d, d', l)
  {
  }

  /** What unlink leaves in a sector of the root directory. */
  lemma UnlistedSector(L: Layout, s: State, i: nat, l: nat)
    requires Ok(L, s) && i < |s.table| && s.table[i].writable && LayoutOk(L, |s.disk|) && InRoot(L, |s.disk|, l)
    ensures UnlinkShape(L, s, i) && s.table[i].dirLba < |s.disk| && s.table[i].dirOff + 96 <= 512
    ensures var t, e := UnlinkState(L, s, i), s.table[i];
            && l < |s.disk| == |t.disk|
            && t.disk[l] == if l == e.dirLba then Deleted(s.disk[l], e.dirOff, 3) else s.disk[l]
  {
    hide *;
    UnlinkParts(L, s, i);
    UnlinkIs(L, s, i);
    UnlistIs(s, i);
    ChainOutside(L, s, i);
    RootBitmapApart(L, |s.disk|);
    var u, t := UnlistDisk(s, i), UnlinkState(L, s, i);
    FreeDiskChanges(L.g, L.bc, u, s.chains[i]);
    var data := Elements(L.bc) + Elements(s.chains[i]);
    ChangesFat(L.g, L.bc, u, t.disk, Elements(s.chains[i]), Elements(s.chains[i]), data);
    var c, k := RootSector(L, |s.disk|, l);
    SectorFrame(L.g, u, t.disk, data, c, l);
  }

  /** An unlink changes the use of no cluster outside its file. */
  lemma UnlinkSpares(L: Layout, s: State, i: nat, c: nat)
    requires Ok(L, s) && i < |s.table| && s.table[i].writable && i < |s.chains| && c !in s.chains[i]
    ensures UnlinkShape(L, s, i) && SameUse(L, s.disk, UnlinkState(L, s, i).disk, c)
  {
    hide *;
    UnlinkParts(L, s, i);
    UnlinkIs(L, s, i);
    UnlistIs(s, i);
    ChainOutside(L, s, i);
    var u, t, lba := UnlistDisk(s, i), UnlinkState(L, s, i), s.table[i].dirLba;
    RootWriteChanges(L, s.disk, lba, u[lba]);
    assert u == s.disk[lba := u[lba]];
    SameUseFrom(L, s.disk, u, {}, {}, Elements(L.rc), c);
    FreeDiskChanges(L.g, L.bc, u, s.chains[i]);
    InList(s.chains[i], c);
    SameUseFrom(L, u, t.disk, Elements(s.chains[i]), Elements(s.chains[i]), Elements(L.bc) + Elements(s.chains[i]), c);
    SameUseTrans(L, s.disk, u, t.disk, c);
  }

  lemma UseAgain(L: Layout, s: State, path: string, n: nat, run: seq<nat>, slot: nat, c: nat)
    requires CanCreate(L, s, path, n, run, slot) && |s.table| < MAX_ENTRIES
    ensures CreateShape(L, s, path, run, slot) && UnlinkShape(L, CreateState(L, s, path, run, slot), |s.table|)
    ensures SameUse(L, s.disk, UnlinkState(L, CreateState(L, s, path, run, slot), |s.table|).disk, c)
  {
    hide *;
    CreateThenUnlink(L, s, path, n, run, slot);
    CreatedRow(L, s, path, n, run, slot);
    CanCreateRun(L, s, path, n, run, slot);
    var s' := CreateState(L, s, path, run, slot);
    var t := UnlinkState(L, s', |s.table|);
    if c !in run {
      CreateSpares(L, s, path, n, run, slot, c);
      UnlinkSpares(L, s', |s.table|, c);
      SameUseTrans(L, s.disk, s'.disk, t.disk, c);
    } else {
      RoundTripMeta(L, s, path, n, run, slot);
      InList(run, c);
      FreshIsFree(L, s, run, c);
      BothFree(L, s.disk, t.disk, c);
    }
  }

  lemma BothFree(L: Layout, d: Disk, d': Disk, c: nat)
    requires Fits(L.g, |d|) && |d'| == |d| && BitmapCovers(L.g, L.bc) && ClusterValid(L.g, c)
    requires !BitAt(L.g, L.bc, d, c) && FatAt(L.g, d, c) == 0 && !BitAt(L.g, L.bc, d', c) && FatAt(L.g, d', c) == 0
    ensures SameUse(L, d, d', c)
  {
    hide Fits, BitmapCovers, BitAt, FatAt;
  }

  lemma ChosenAgain(L: Layout, d: Disk, d': Disk, run: seq<nat>, n: nat, slot: nat)
    requires ChosenRun(L, d, run, n) && ChosenSlot(L, d, slot) && LayoutOk(L, |d|)
    requires forall c: nat :: SameUse(L, d, d', c)
    requires forall l: nat :: InRoot(L, |d|, l) ==> SameSlots(d, d', l)
    ensures ChosenRun(L, d', run, n) && ChosenSlot(L, d', slot)
  {
    hide *;
    assert SameUse(L, d, d', 0);
    RunAgain(L, d, d', run, n);
    forall j: nat ensures SlotFree(L, d', j) == SlotFree(L, d, j) { SlotAgain(L, d, d', j); }
    SlotRunAgain(L, d, d', slot);
  }

  lemma RunAgain(L: Layout, d: Disk, d': Disk, run: seq<nat>, n: nat)
    requires ChosenRun(L, d, run, n) && forall c: nat :: SameUse(L, d, d', c)
    ensures ChosenRun(L, d', run, n) && |d'| == |d|
  {
    hide Fits, BitmapCovers, FreeAt;
    assert SameUse(L, d, d', 0);
    assert forall c: nat :: SameUse(L, d, d', c) ==> FreeAt(L, d', c) == FreeAt(L, d, c);
    forall c: nat ensures RunFree(L, d', c, n) == RunFree(L, d, c, n) { RunFreeAgain(L, d, d', c, n); }
  }

  lemma RunFreeAgain(L: Layout, d: Disk, d': Disk, c: nat, n: nat)
    requires Fits(L.g, |d|) && BitmapCovers(L.g, L.bc) && |d'| == |d| && forall c: nat :: SameUse(L, d, d', c)
    ensures RunFree(L, d', c, n) == RunFree(L, d, c, n)
  {
    hide Fits, BitmapCovers, FreeAt;
    assert forall k: nat :: SameUse(L, d, d', k) ==> FreeAt(L, d', k) == FreeAt(L, d, k);
  }

  lemma SlotAgain(L: Layout, d: Disk, d': Disk, j: nat)
    requires LayoutOk(L, |d|) && |d'| == |d| && forall l: nat :: InRoot(L, |d|, l) ==> SameSlots(d, d', l)
    ensures SlotFree(L, d', j) == SlotFree(L, d, j)
  {
    LayoutParts(L, |d|);
    hide LayoutOk, Fits, Clusters, InRoot, RootLba, SlotUsed, RootSectors;
    if j / 16 < RootSectors(L) {
      RootLbaBounds(L, |d|, j / 16);
      assert SameSlots(d, d', RootLba(L, |d|, j / 16));
      assert SlotUsed(d'[RootLba(L, |d|, j / 16)][j % 16 * 32]) == SlotUsed(d[RootLba(L, |d|, j / 16)][j % 16 * 32]);
    }
  }

  lemma SlotRunAgain(L: Layout, d: Disk, d': Disk, slot: nat)
    requires ChosenSlot(L, d, slot) && forall j: nat :: SlotFree(L, d', j) == SlotFree(L, d, j)
    ensures ChosenSlot(L, d', slot)
  {
    hide SlotFree;
    forall j: nat ensures SlotRun(L, d', j) == SlotRun(L, d, j) {
      assert SlotFree(L, d', j) == SlotFree(L, d, j);
      assert SlotFree(L, d', j + 1) == SlotFree(L, d, j + 1);
      assert SlotFree(L, d', j + 2) == SlotFree(L, d, j + 2);
    }
  }

  /** After create and unlink the same create is possible again, with the same clusters and the same slot; only the
      in-memory table has one row more. */
  lemma CreateAgain(L: Layout, s: State, path: string, n: nat, run: seq<nat>, slot: nat)
    requires CanCreate(L, s, path, n, run, slot) && |s.table| < MAX_ENTRIES
    ensures CreateShape(L, s, path, run, slot) && UnlinkShape(L, CreateState(L, s, path, run, slot), |s.table|)
    ensures var t := UnlinkState(L, CreateState(L, s, path, run, slot), |s.table|);
            CanCreate(L, t, path, n, run, slot) && t.table == s.table + [BLANK] && t.added == s.added
  {
    hide *;
    CreateThenUnlink(L, s, path, n, run, slot);
    CreatedRow(L, s, path, n, run, slot);
    CreateStateRows(L, s, path, n, run, slot);
    CanCreateRun(L, s, path, n, run, slot);
    FreshOutside(L, s, run);
    var s' := CreateState(L, s, path, run, slot);
    UnlinkIs(L, s', |s.table|);
    var t := UnlinkState(L, s', |s.table|);
    CanCreateParts(L, s, path, n, run, slot);
    forall c: nat ensures SameUse(L, s.disk, t.disk, c) { UseAgain(L, s, path, n, run, slot, c); }
    forall l: nat | InRoot(L, |s.disk|, l)
      ensures SameSlots(s.disk, t.disk, l) { RootAgain(L, s, path, n, run, slot, l); }
    ChosenAgain(L, s.disk, t.disk, run, n, slot);
    assert t.table == s.table + [BLANK];
    BlankUnnamed(s.table, path);
    AddedBack(s.added, run);
    CanCreateFrom(L, t, path, n, run, slot);
  }

  lemma CanCreateParts(L: Layout, s: State, path: string, n: nat, run: seq<nat>, slot: nat)
    requires CanCreate(L, s, path, n, run, slot)
    ensures ShortPath(path) && LookupPath(s.table, path) == None && 1 <= n <= MAX_CLUSTERS
    ensures ChosenRun(L, s.disk, run, n) && ChosenSlot(L, s.disk, slot)
  {
    hide Ok, ShortPath, LookupPath, ChosenRun, ChosenSlot;
  }

  lemma BlankUnnamed(table: seq<Entry>, path: string)
    requires ShortPath(path) && LookupPath(table, path) == None
    ensures LookupPath(table + [BLANK], path) == None
  {
    hide ShortName;
    ShortPathKey(path);
    var key := ("/", path[1..]);
    assert !Matches(BLANK, key);
    assert forall i :: 0 <= i < |table| ==> (table + [BLANK])[i] == table[i] && !Matches(table[i], key);
  }

  lemma AddedBack(added: set<nat>, run: seq<nat>)
    requires Elements(run) !! added
    ensures added + Elements(run) - Elements(run) == added
  {
    hide Elements;
  }

  lemma CanHas(L: Layout, s: State, path: string, n: nat, run: seq<nat>, slot: nat)
    requires CanCreate(L, s, path, n, run, slot)
    ensures HasRun(L, s.disk, n) && HasSlot(L, s.disk) && LookupPath(s.table, path) == None
  {
    hide Ok, ShortPath, LookupPath, Fits, BitmapCovers, RunFree, SlotRun;
  }

  /** A create on a full table: the clusters are taken, and no row has them. */
  lemma Leaked(L: Layout, s: State, path: string, n: nat, run: seq<nat>, slot: nat)
    requires CanCreate(L, s, path, n, run, slot)
    ensures CreateShape(L, s, path, run, slot) && |run| == n && Elements(run) !! s.added
    ensures var s' := LeakState(L, s, path, run, slot);
            && s'.table == s.table && s'.added == s.added + Elements(run)
            && forall j: nat :: j < |s'.chains| ==> Misses(run, Elements(s'.chains[j]))
  {
    hide *;
    CanCreateRun(L, s, path, n, run, slot);
    CreateFits(L, s, path, n, run, slot);
    LeakRows(L, s, path, n, run, slot);
    FreshOutside(L, s, run);
    CreateIs(L, s, path, run, slot);
    AllocParts(L, s, run);
    OrphanParts(AllocState(L, s, run), RootLba(L, |s.disk|, slot / 16), slot % 16 * 32, path[1..], run);
  }

  lemma TableBound(L: Layout, s: State)
    requires Ok(L, s)
    ensures |s.table| <= MAX_ENTRIES && |s.table| == |s.chains|
  {
    OkParts(L, s);
    hide Ok, BaseOk, LayoutOk, AddedOk, RowOk, Separate;
  }

  /** On any volume that has room for a file: creating and unlinking it succeeds every time, until the 32 rows of the
      table are used up. From then on the create fails, and yet takes its clusters. */
  method UseUpTable(m: Mount, path: string, n: nat) returns (smooth: bool, ok: bool, ghost lost: seq<nat>)
    requires m.Valid() && m.commitReady && 1 <= n <= MAX_CLUSTERS && ShortPath(path)
    requires LookupPath(m.table, path) == None
    requires HasRun(m.L, m.device.sectors, n) && HasSlot(m.L, m.device.sectors)
    modifies m, m.device
    ensures m.Valid() && smooth && !ok && |m.table| == MAX_ENTRIES && LookupPath(m.table, path) == None
    ensures |lost| == n && Elements(lost) !! old(m.added) && m.added == old(m.added) + Elements(lost)
    ensures forall j: nat :: j < |m.chains| ==> Misses(lost, Elements(m.chains[j]))
  {
    hide *;
    smooth := true;
    m.ValidIsReady();
    m.NowIs();
    TableBound(m.L, m.Now());
    var created;
    ghost var made, run, slot;
    while |m.table| < MAX_ENTRIES
      invariant m.Valid() && smooth && |m.table| <= MAX_ENTRIES && LookupPath(m.table, path) == None
      invariant HasRun(m.L, m.device.sectors, n) && HasSlot(m.L, m.device.sectors) && m.added == old(m.added)
      decreases MAX_ENTRIES - |m.table|
    {
      m.ValidIsReady();
      m.NowIs();
      ghost var s := m.Now();
      created, made, run, slot := m.Create(path, n);
      CanCreateFrom(m.L, s, path, n, run, slot);
      CreateThenUnlink(m.L, s, path, n, run, slot);
      CreateAgain(m.L, s, path, n, run, slot);
      m.NowIs();
      ghost var i;
      var unlinked;
      unlinked, i := m.Unlink(path);
      smooth := smooth && created && unlinked;
      m.NowIs();
      CanHas(m.L, m.Now(), path, n, run, slot);
    }
    m.ValidIsReady();
    m.NowIs();
    ghost var s := m.Now();
    ok, made, run, slot := m.Create(path, n);
    CanCreateFrom(m.L, s, path, n, run, slot);
    Leaked(m.L, s, path, n, run, slot);
    lost := run;
    m.NowIs();
  }

  // ---------- a failed truncate that renames ----------

  /** The only row is the still empty initial file, in one cluster. */
  predicate OnlyInitial(table: seq<Entry>) {
    && |table| == 1 && table[0].writable && table[0].parent == "/" && table[0].name == PLAN_NAME && !table[0].isDir
    && table[0].size == 0 && table[0].capacity == 4096
  }

  lemma InitialNames()
    ensures ShortPath("/NEW.TXT") && "/NEW.TXT"[1..] == PLAN_NAME && LookupPath([], "/NEW.TXT") == None
    ensures ShortPath("/B") && ClusterCountFor(SMALL, 5000) == 2 && 1 <= MAX_CLUSTERS && 0 < MAX_ENTRIES
    ensures 4096 <= U64_MAX
  {
    DotAtThree();
  }

  lemma DotAtThree()
    ensures ShortName("NEW.TXT") && "/NEW.TXT"[1..] == "NEW.TXT"
  {
    assert DotAt("NEW.TXT", 3);
  }

  lemma InitialIs(table: seq<Entry>)
    requires |table| == 1 && table[0].writable && table[0].parent == "/" && table[0].name == PLAN_NAME
    requires !table[0].isDir
    requires table[0].size == 0 && table[0].capacity == 4096
    ensures OnlyInitial(table)
  {
  }

  lemma OnlyRenamed(v: seq<Option<File>>, v': seq<Option<File>>)
    requires |v| == 1 && Renamed(v, v', 0, "/B", 0)
    ensures v' == [Some(File("B", []))]
  {
    assert "/B"[1..] == "B" && ("/" + v'[0].value.name)[1..] == v'[0].value.name;
  }

  lemma InitialFound(table: seq<Entry>)
    requires OnlyInitial(table)
    ensures RenameTarget(table) == Some(0) && LookupPath(table, "/B") == None
  {
    assert "/B"[1..] == "B";
    ShortPathKey("/B");
  }

  /** A write within the capacity leaves the capacity alone. */
  lemma WriteFileFits(L: Layout, s: State, i: nat, offset: nat, bytes: seq<Byte>, more: seq<nat>)
    requires CanGrowBy(L, s, i, offset + |bytes|, more) && i < |s.table| && offset + |bytes| <= s.table[i].capacity
    ensures WriteFileShape(L, s, i, offset, bytes, more)
    ensures var s' := WriteFileState(L, s, i, offset, bytes, more);
            |s'.table| == |s.table| && s'.table[i].capacity == s.table[i].capacity
  {
    hide *;
    var end := offset + |bytes|;
    WriteAllowed(L, s, i, offset, bytes, more);
    WriteFileIs(L, s, i, offset, bytes, more);
    GrownIs(L, s, i, end, more);
    WriteStateIs(L, s, i, offset, bytes);
    RelabelDisk(L, WriteState(L, s, i, offset, bytes), i, s.table[i].name, end);
  }

  /** Whoever truncates a missing path to more than the initial file can hold gets an error, and the initial file has
      a new name. */
  method RenameByFailure() returns (m: Mount, ok: bool)
    ensures m.Valid() && !ok && Files(m.L, m.Now()) == [Some(File("B", []))]
  {
    hide *;
    SmallFits();
    SmallBits();
    SmallLayout();
    SmallParts();
    SmallSizes();
    InitialNames();
    FormattedReady(SMALL, SMALL_SECTORS, SCATTERED, 10);
    var device := new BlockDevice(Formatted(SMALL, SMALL_SECTORS, SCATTERED));
    m := new Mount(SMALL, device, true, 0, [], FreshLayout(SMALL, SCATTERED), []);
    ghost var L := m.L;
    m.NowIs();
    ghost var s0 := m.Now();
    var created;
    ghost var made, run, slot;
    created, made, run, slot := m.Create("/NEW.TXT", 1);
    CanCreateFrom(L, s0, "/NEW.TXT", 1, run, slot);
    CreateStateRows(L, s0, "/NEW.TXT", 1, run, slot);
    m.NowIs();
    ghost var s1 := m.Now();
    var written;
    ghost var more;
    written, more := m.WriteFile(0, 0, [1]);
    WriteFileRows(L, s1, 0, 0, [1], more);
    WriteFileFits(L, s1, 0, 0, [1], more);
    m.NowIs();
    ghost var s2 := m.Now();
    var emptied := m.Resize(0, 0);
    RelabelDisk(L, s2, 0, s2.table[0].name, 0);
    m.NowIs();
    m.ValidIsReady();
    ghost var s3 := m.Now();
    RowFields(L, s3, 0);
    InitialIs(s3.table);
    InitialFound(s3.table);
    ghost var before := Files(L, s3);
    TruncateAcceptedIs(L, s3, true, true, "/B", 5000);
    RenamesFirstIs(L, s3, true, true, "/B", 5000);
    ok := m.Truncate("/B", 5000);
    m.ValidIsReady();
    OnlyRenamed(before, Files(L, m.Now()));
  }
}
