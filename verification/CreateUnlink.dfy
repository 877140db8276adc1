/** Creating and unlinking files on the specification state. */
module CreateUnlink {
  import opened Bytes
  import opened Arithmetic
  import opened Volume
  import opened Frames
  import opened Chains
  import opened Allocation
  import opened Options
  import opened Paths
  import opened EntrySet
  import opened DirectoryParser
  import opened Transaction
  import opened FileSystem
  import opened FileOps

  // ---------- allocating the clusters of a new file ----------

  ghost predicate AllocShape(L: Layout, s: State, run: seq<nat>) {
    Fits(L.g, |s.disk|) && BitmapCovers(L.g, L.bc) && Clusters(L.g, run) && run != []
  }

  ghost function AllocDisk(g: Geometry, bc: seq<nat>, d: Disk, run: seq<nat>): (d': Disk)
    requires Fits(g, |d|) && BitmapCovers(g, bc) && Clusters(g, run)
    ensures |d'| == |d|
  {
    MarkChain(g, bc, ZeroClusters(g, d, run, |run|), run, |run|)
  }

  /** Zeroed, linked and marked clusters that no row names yet. */
  ghost function AllocState(L: Layout, s: State, run: seq<nat>): State
    requires AllocShape(L, s, run)
  {
    s.(disk := AllocDisk(L.g, L.bc, s.disk, run), added := s.added + Elements(run))
  }

  lemma AllocDiskIs(g: Geometry, bc: seq<nat>, d: Disk, run: seq<nat>)
    requires Fits(g, |d|) && BitmapCovers(g, bc) && Clusters(g, run)
    ensures AllocDisk(g, bc, d, run) == MarkChain(g, bc, ZeroClusters(g, d, run, |run|), run, |run|)
  {
    hide Fits, BitmapCovers, Clusters, MarkChain, ZeroClusters;
  }

  lemma AllocDiskChanges(g: Geometry, bc: seq<nat>, d: Disk, run: seq<nat>)
    requires Fits(g, |d|) && BitmapCovers(g, bc) && Clusters(g, run) && Misses(run, Elements(bc))
    ensures Changes(g, bc, d, AllocDisk(g, bc, d, run), Elements(run), Elements(run), Elements(run) + Elements(bc))
  {
    hide Fits, BitmapCovers, Clusters, Misses, Changes, MarkChain, ZeroClusters;
    var e := ZeroClusters(g, d, run, |run|);
    assert run[..|run|] == run;
    ZeroClustersChanges(g, bc, d, run, |run|);
    MarkChainChanges(g, bc, e, run, |run|);
    ChangesTrans(g, bc, d, e, AllocDisk(g, bc, d, run), {}, {}, Elements(run), Elements(run), Elements(run),
                 Elements(bc));
    Units(Elements(run));
  }

  lemma AllocDiskAt(g: Geometry, bc: seq<nat>, d: Disk, run: seq<nat>, i: nat)
    requires Fits(g, |d|) && BitmapCovers(g, bc) && Clusters(g, run) && i < |run|
    ensures FatAt(g, AllocDisk(g, bc, d, run), run[i]) == NextLink(run, i)
    ensures BitAt(g, bc, AllocDisk(g, bc, d, run), run[i])
  {
    hide Fits, BitmapCovers, FatAt, BitAt, MarkChain, ZeroClusters, NextLink;
    MarkChainAt(g, bc, ZeroClusters(g, d, run, |run|), run, |run|, i);
  }

  lemma AllocatedChain(g: Geometry, bc: seq<nat>, d: Disk, run: seq<nat>)
    requires Fits(g, |d|) && BitmapCovers(g, bc) && Clusters(g, run) && run != []
    ensures Linked(g, AllocDisk(g, bc, d, run), run) && Ends(g, AllocDisk(g, bc, d, run), run)
  {
    hide Fits, BitmapCovers, FatAt, BitAt, AllocDisk;
    forall i: nat | i < |run| ensures FatAt(g, AllocDisk(g, bc, d, run), run[i]) == NextLink(run, i) {
      AllocDiskAt(g, bc, d, run, i);
    }
  }

  lemma AllocParts(L: Layout, s: State, run: seq<nat>)
    requires Ok(L, s) && FreshRun(L, s, run)
    ensures AllocShape(L, s, run) && Fits(L.g, |s.disk|) && BitmapCovers(L.g, L.bc) && Clusters(L.g, run) && run != []
    ensures var s' := AllocState(L, s, run);
            && |s'.disk| == |s.disk| && s'.disk == AllocDisk(L.g, L.bc, s.disk, run)
            && s'.table == s.table && s'.chains == s.chains && s'.added == s.added + Elements(run)
  {
    OkParts(L, s);
    hide Ok, BaseOk, LayoutOk, TableOk, AddedOk, Fits, BitmapCovers, Clusters, AllocDisk, Free;
  }

  lemma AllocAdded(L: Layout, s: State, run: seq<nat>)
    requires Ok(L, s) && FreshRun(L, s, run) && AllocShape(L, s, run)
    ensures LayoutOk(L, |s.disk|) && AddedOk(L, AllocState(L, s, run).disk, s.added + Elements(run))
  {
    hide *;
    OkParts(L, s);
    AllocParts(L, s, run);
    FreshOutside(L, s, run);
    var d' := AllocState(L, s, run).disk;
    AllocDiskChanges(L.g, L.bc, s.disk, run);
    LinksNonZero(L.g, run);
    forall c | c in s.added + Elements(run)
      ensures ClusterValid(L.g, c) && BitAt(L.g, L.bc, d', c) && FatAt(L.g, d', c) != 0 {
      if c in run {
        var k :| 0 <= k < |run| && run[k] == c;
        AllocDiskAt(L.g, L.bc, s.disk, run, k);
      } else {
        AddedAt(L, s.disk, s.added, c);
        BitsSameAt(L.g, L.bc, s.disk, d', Elements(run), Elements(run), Elements(run) + Elements(L.bc), c);
        FatSameAt(L.g, L.bc, s.disk, d', Elements(run), Elements(run), Elements(run) + Elements(L.bc), c);
      }
    }
    AddedIs(L, d', s.added + Elements(run));
  }

  /** Allocating fresh clusters keeps the invariant and changes no file's bytes. */
  lemma AllocStateOk(L: Layout, s: State, run: seq<nat>)
    requires Ok(L, s) && FreshRun(L, s, run)
    ensures AllocShape(L, s, run) && Ok(L, AllocState(L, s, run))
  {
    hide *;
    OkParts(L, s);
    AllocParts(L, s, run);
    FreshOutside(L, s, run);
    AllocAdded(L, s, run);
    AllocDiskChanges(L.g, L.bc, s.disk, run);
    RootBitmapApart(L, |s.disk|);
    var s' := AllocState(L, s, run);
    var data := Elements(run) + Elements(L.bc);
    BaseFrame(L, s.disk, s'.disk, Elements(run), Elements(run), data);
    forall j: nat | j < |s.table| ensures RowOk(L, s'.disk, s.table[j], s.chains[j]) {
      OkRow(L, s, j);
      RowFrame(L, s.disk, s'.disk, s.table[j], s.chains[j], Elements(run), Elements(run), data);
    }
    TableSame(L, s, s'.disk);
    TableAdded(L, s.(disk := s'.disk), s'.added);
    OkIs(L, s');
  }

  lemma TableAdded(L: Layout, s: State, added: set<nat>)
    requires LayoutOk(L, |s.disk|) && TableOk(L, s)
    ensures TableOk(L, s.(added := added))
  {
    hide LayoutOk, RowOk, Separate;
  }

  lemma AllocStateBytes(L: Layout, s: State, run: seq<nat>, j: nat)
    requires Ok(L, s) && FreshRun(L, s, run) && j < |s.table| && s.chains[j] != []
    ensures AllocShape(L, s, run) && Ok(L, AllocState(L, s, run)) && AllocState(L, s, run).chains == s.chains
    ensures AllocState(L, s, run).table == s.table
    ensures FileBytes(L, AllocState(L, s, run), j) == FileBytes(L, s, j)
  {
    hide *;
    OkParts(L, s);
    AllocStateOk(L, s, run);
    AllocParts(L, s, run);
    FreshOutside(L, s, run);
    AllocDiskChanges(L.g, L.bc, s.disk, run);
    var s' := AllocState(L, s, run);
    var data := Elements(run) + Elements(L.bc);
    ChangesFat(L.g, L.bc, s.disk, s'.disk, Elements(run), Elements(run), data);
    RowMissesRoot(L, s, j);
    MissesBoth(s.chains[j], Elements(run), Elements(L.bc));
    BytesFrame(L, s, s', j, data);
  }

  // ---------- entering the file in the directory and the table ----------

  predicate SlotUsed(b: Byte) {
    b & 0x80 != 0
  }

  /** Three consecutive directory slots without an entry in use. */
  predicate SlotsFree(t: Sector, off: nat) {
    off % 32 == 0 && off + 96 <= 512 && !SlotUsed(t[off]) && !SlotUsed(t[off + 32]) && !SlotUsed(t[off + 64])
  }

  lemma SetInUse(name: string, first: nat, size: nat)
    requires |name| <= 15
    ensures var s := EncodedSet(name, first, size);
            SlotUsed(s[0]) && SlotUsed(s[32]) && SlotUsed(s[64]) && s[0] == 0x85 && s[32] == 0xc0 && s[64] == 0xc1
  {
    SetStartsWith(name, first, size);
    SetSlots(name, first, size);
    NameEntryMark(name);
    hide EncodedSet, NameEntry;
    var s := EncodedSet(name, first, size);
    assert s[64] == s[64..][0];
  }

  lemma NameEntryMark(name: string)
    requires |name| <= 15
    ensures NameEntry(name)[0] == 0xc1
  {
    hide Utf16;
  }

  /** Free slots overlap the set of no writable file. */
  lemma FreeSlotsApart(d: Disk, e: Entry, lba: nat, off: nat)
    requires DirSet(d, e) && e.dirOff % 32 == 0 && lba < |d| && SlotsFree(d[lba], off)
    ensures e.dirLba != lba || e.dirOff + 96 <= off || off + 96 <= e.dirOff
  {
    hide EncodedSet;
    SetInUse(e.name, e.first, e.size);
    var t := d[e.dirLba];
    var s := t[e.dirOff..e.dirOff + 96];
    assert s[0] == t[e.dirOff] && s[32] == t[e.dirOff + 32] && s[64] == t[e.dirOff + 64];
  }

  ghost predicate EnterShape(s: State, lba: nat, off: nat, name: string, run: seq<nat>) {
    lba < |s.disk| && off + 96 <= 512 && |name| <= 15 && run != []
  }

  function NewEntry(L: Layout, lba: nat, off: nat, name: string, run: seq<nat>): Entry
    requires run != []
  {
    Entry("/", name, 0, Capacity(L.g, |run|), lba, off, run[0], 0, false, true)
  }

  /** The set of an empty file is on disk; no row names it. */
  ghost function OrphanState(s: State, lba: nat, off: nat, name: string, run: seq<nat>): State
    requires EnterShape(s, lba, off, name, run)
  {
    s.(disk := PatchSector(s.disk, lba, off, EncodedSet(name, run[0], 0)))
  }

  /** The set is on disk and the table has a row for it. */
  ghost function EnterState(L: Layout, s: State, lba: nat, off: nat, name: string, run: seq<nat>): State
    requires EnterShape(s, lba, off, name, run)
  {
    OrphanState(s, lba, off, name, run).(table := s.table + [NewEntry(L, lba, off, name, run)],
                                         chains := s.chains + [run])
  }

  ghost predicate CanOrphan(L: Layout, s: State, lba: nat, off: nat, name: string, run: seq<nat>) {
    && Ok(L, s) && ShortName(name) && run != []
    && LayoutOk(L, |s.disk|) && InRoot(L, |s.disk|, lba) && lba < |s.disk| && SlotsFree(s.disk[lba], off)
  }

  lemma CanOrphanIs(L: Layout, s: State, lba: nat, off: nat, name: string, run: seq<nat>)
    requires CanOrphan(L, s, lba, off, name, run)
    ensures EnterShape(s, lba, off, name, run) && off % 32 == 0 && off + 96 <= 512 && |name| <= 15 && lba < |s.disk|
    ensures Ok(L, s) && LayoutOk(L, |s.disk|) && InRoot(L, |s.disk|, lba) && SlotsFree(s.disk[lba], off)
    ensures ShortName(name)
  {
    ShortNameShape(name);
    hide Ok, LayoutOk, InRoot, ShortName;
  }

  lemma OrphanParts(s: State, lba: nat, off: nat, name: string, run: seq<nat>)
    requires EnterShape(s, lba, off, name, run)
    ensures lba < |s.disk| && off + 96 <= 512 && |name| <= 15 && run != []
    ensures var s' := OrphanState(s, lba, off, name, run);
            && s'.disk == s.disk[lba := Splice(s.disk[lba], off, EncodedSet(name, run[0], 0))]
            && s'.table == s.table && s'.chains == s.chains && s'.added == s.added
  {
    hide EncodedSet, Splice;
  }

  lemma OrphanRow(L: Layout, s: State, lba: nat, off: nat, name: string, run: seq<nat>, j: nat)
    requires CanOrphan(L, s, lba, off, name, run) && EnterShape(s, lba, off, name, run) && j < |s.table|
    ensures LayoutOk(L, |s.disk|) && |s.table| == |s.chains|
    ensures |OrphanState(s, lba, off, name, run).disk| == |s.disk|
    ensures RowOk(L, OrphanState(s, lba, off, name, run).disk, s.table[j], s.chains[j])
    ensures s.table[j].writable ==> SlotsApart(s.table[j], Entry("", "", 0, 0, lba, off, 0, 0, false, false))
  {
    hide *;
    CanOrphanIs(L, s, lba, off, name, run);
    OrphanParts(s, lba, off, name, run);
    OkRow(L, s, j);
    var set' := EncodedSet(name, run[0], 0);
    var t: Sector := Splice(s.disk[lba], off, set');
    if s.table[j].writable {
      OkWritable(L, s, j);
      FileOkParts(L, s.disk, s.table[j], s.chains[j]);
      ShapeParts(L, |s.disk|, s.table[j], s.chains[j]);
      FreeSlotsApart(s.disk, s.table[j], lba, off);
      SpliceSliceIf(s.disk[lba], off, set', s.table[j]);
      SlotsApartIs(s.table[j], lba, off);
    }
    RootWriteRow(L, s.disk, lba, t, s.table[j], s.chains[j]);
  }

  lemma SlotsApartIs(e: Entry, lba: nat, off: nat)
    requires e.dirLba != lba || e.dirOff + 96 <= off || off + 96 <= e.dirOff
    ensures SlotsApart(e, Entry("", "", 0, 0, lba, off, 0, 0, false, false))
  {
  }

  lemma OrphanStateOk(L: Layout, s: State, lba: nat, off: nat, name: string, run: seq<nat>)
    requires CanOrphan(L, s, lba, off, name, run)
    ensures EnterShape(s, lba, off, name, run) && Ok(L, OrphanState(s, lba, off, name, run))
  {
    hide *;
    CanOrphanIs(L, s, lba, off, name, run);
    OrphanParts(s, lba, off, name, run);
    OkParts(L, s);
    var s' := OrphanState(s, lba, off, name, run);
    RootWriteChanges(L, s.disk, lba, s'.disk[lba]);
    assert s'.disk == s.disk[lba := s'.disk[lba]];
    BaseFrame(L, s.disk, s'.disk, {}, {}, Elements(L.rc));
    AddedFrame(L, s.disk, s'.disk, s.added, {}, {}, Elements(L.rc));
    forall j: nat | j < |s.table| ensures RowOk(L, s'.disk, s.table[j], s.chains[j]) {
      OrphanRow(L, s, lba, off, name, run, j);
    }
    TableSame(L, s, s'.disk);
    assert s' == s.(disk := s'.disk);
    OkIs(L, s');
  }

  ghost predicate CanEnter(L: Layout, s: State, lba: nat, off: nat, name: string, run: seq<nat>) {
    && CanOrphan(L, s, lba, off, name, run)
    && |s.table| == |s.chains| < MAX_ENTRIES && |run| <= MAX_CLUSTERS
    && Fits(L.g, |s.disk|) && Clusters(L.g, run) && Linked(L.g, s.disk, run) && Ends(L.g, s.disk, run)
       && Misses(run, L.reserved)
    && (forall j: nat :: j < |s.table| ==> Misses(run, Elements(s.chains[j])))
    && (forall j: nat :: j < |s.table| ==> s.table[j].parent != "/" || s.table[j].name != name)
  }

  lemma EnterOwnRow(L: Layout, s: State, lba: nat, off: nat, name: string, run: seq<nat>)
    requires CanEnter(L, s, lba, off, name, run) && EnterShape(s, lba, off, name, run)
    ensures LayoutOk(L, |s.disk|) && |OrphanState(s, lba, off, name, run).disk| == |s.disk|
    ensures RowOk(L, OrphanState(s, lba, off, name, run).disk, NewEntry(L, lba, off, name, run), run)
  {
    CanEnterChain(L, s, lba, off, name, run);
    hide *;
    CanOrphanIs(L, s, lba, off, name, run);
    OrphanParts(s, lba, off, name, run);
    var s' := OrphanState(s, lba, off, name, run);
    var set' := EncodedSet(name, run[0], 0);
    var e := NewEntry(L, lba, off, name, run);
    NewEntryShape(L, |s.disk|, lba, off, name, run);
    RootWriteChanges(L, s.disk, lba, s'.disk[lba]);
    assert s'.disk == s.disk[lba := s'.disk[lba]];
    ChangesFat(L.g, L.bc, s.disk, s'.disk, {}, {}, Elements(L.rc));
    MissesNone(run);
    LinkedFrame(L.g, s.disk, s'.disk, run, {});
    assert s'.disk[lba][off..off + 96] == set' by { SpliceSlice(s.disk[lba], off, set', 0, 0); }
    DirSetIs(s'.disk, e);
    FileOkIs(L, s'.disk, e, run);
  }

  lemma CanEnterChain(L: Layout, s: State, lba: nat, off: nat, name: string, run: seq<nat>)
    requires CanEnter(L, s, lba, off, name, run)
    ensures CanOrphan(L, s, lba, off, name, run) && run != [] && |run| <= MAX_CLUSTERS <= 3
    ensures |s.table| == |s.chains| < MAX_ENTRIES
    ensures Fits(L.g, |s.disk|) && Clusters(L.g, run) && Linked(L.g, s.disk, run) && Ends(L.g, s.disk, run)
    ensures Misses(run, L.reserved)
  {
    hide Ok, LayoutOk, Fits, Clusters, Linked, Ends, Misses, InRoot, ShortName, SlotsFree;
  }

  lemma NewEntryShape(L: Layout, n: nat, lba: nat, off: nat, name: string, run: seq<nat>)
    requires LayoutOk(L, n) && run != [] && |run| <= MAX_CLUSTERS && Clusters(L.g, run) && Misses(run, L.reserved)
    requires ShortName(name) && InRoot(L, n, lba) && off % 32 == 0 && off + 96 <= 512
    ensures var e := NewEntry(L, lba, off, name, run);
            FileShape(L, n, e, run) && e.dirLba == lba && e.dirOff == off && e.name == name && e.first == run[0]
            && e.size == 0
  {
    hide LayoutOk, Clusters, Misses, InRoot, ShortName, Capacity;
  }

  lemma EnterSeparate(L: Layout, s: State, lba: nat, off: nat, name: string, run: seq<nat>, j: nat)
    requires CanEnter(L, s, lba, off, name, run) && EnterShape(s, lba, off, name, run) && j < |s.table|
    ensures Separate(s.table[j], s.chains[j], NewEntry(L, lba, off, name, run), run)
  {
    CanEnterChain(L, s, lba, off, name, run);
    OrphanRow(L, s, lba, off, name, run, j);
    hide Ok, LayoutOk, Fits, Clusters, Linked, Ends, InRoot, ShortName, SlotsFree, OrphanState, RowOk, Capacity;
    assert Misses(run, Elements(s.chains[j]));
  }

  lemma TableAppend(L: Layout, s: State, e: Entry, ch: seq<nat>)
    requires LayoutOk(L, |s.disk|) && TableOk(L, s) && |s.table| < MAX_ENTRIES && RowOk(L, s.disk, e, ch)
    requires forall j: nat :: j < |s.table| ==> Separate(s.table[j], s.chains[j], e, ch)
    ensures TableOk(L, s.(table := s.table + [e], chains := s.chains + [ch]))
  {
    hide LayoutOk, RowOk, Separate;
  }

  /** Entering the file keeps the invariant. */
  lemma EnterStateOk(L: Layout, s: State, lba: nat, off: nat, name: string, run: seq<nat>)
    requires CanEnter(L, s, lba, off, name, run)
    ensures EnterShape(s, lba, off, name, run) && Ok(L, EnterState(L, s, lba, off, name, run))
  {
    hide *;
    CanEnterChain(L, s, lba, off, name, run);
    CanOrphanIs(L, s, lba, off, name, run);
    OrphanStateOk(L, s, lba, off, name, run);
    OrphanParts(s, lba, off, name, run);
    var o := OrphanState(s, lba, off, name, run);
    var e := NewEntry(L, lba, off, name, run);
    OkParts(L, o);
    EnterOwnRow(L, s, lba, off, name, run);
    forall j: nat | j < |o.table| ensures Separate(o.table[j], o.chains[j], e, run) {
      EnterSeparate(L, s, lba, off, name, run, j);
    }
    TableAppend(L, o, e, run);
    EnterIs(L, s, lba, off, name, run);
    OkIs(L, EnterState(L, s, lba, off, name, run));
  }

  lemma EnterIs(L: Layout, s: State, lba: nat, off: nat, name: string, run: seq<nat>)
    requires EnterShape(s, lba, off, name, run)
    ensures run != []
    ensures EnterState(L, s, lba, off, name, run)
         == OrphanState(s, lba, off, name, run).(table := s.table + [NewEntry(L, lba, off, name, run)],
                                                 chains := s.chains + [run])
  {
    hide OrphanState, NewEntry;
  }

  // ---------- unlink ----------

  ghost predicate UnlinkShape(L: Layout, s: State, i: nat) {
    && i < |s.table| == |s.chains| && s.table[i].dirLba < |s.disk| && s.table[i].dirOff + 96 <= 512
    && Fits(L.g, |s.disk|) && BitmapCovers(L.g, L.bc) && Clusters(L.g, s.chains[i])
  }

  /** The disk with the three slots of row `i` marked unused. */
  ghost function UnlistDisk(s: State, i: nat): (d': Disk)
    requires i < |s.table| && s.table[i].dirLba < |s.disk| && s.table[i].dirOff + 96 <= 512
    ensures |d'| == |s.disk|
  {
    s.disk[s.table[i].dirLba := Deleted(s.disk[s.table[i].dirLba], s.table[i].dirOff, 3)]
  }

  ghost function FreeDisk(g: Geometry, bc: seq<nat>, d: Disk, ch: seq<nat>): (d': Disk)
    requires Fits(g, |d|) && BitmapCovers(g, bc) && Clusters(g, ch)
    ensures |d'| == |d|
  {
    ZeroClusters(g, ReleaseChain(g, bc, d, ch, |ch|), ch, |ch|)
  }

  ghost function UnlinkState(L: Layout, s: State, i: nat): State
    requires UnlinkShape(L, s, i)
  {
    State(FreeDisk(L.g, L.bc, UnlistDisk(s, i), s.chains[i]), s.table[i := BLANK], s.chains[i := []],
          s.added - Elements(s.chains[i]))
  }

  lemma FreeDiskIs(g: Geometry, bc: seq<nat>, d: Disk, ch: seq<nat>)
    requires Fits(g, |d|) && BitmapCovers(g, bc) && Clusters(g, ch)
    ensures FreeDisk(g, bc, d, ch) == ZeroClusters(g, ReleaseChain(g, bc, d, ch, |ch|), ch, |ch|)
  {
    hide Fits, BitmapCovers, Clusters, ReleaseChain, ZeroClusters;
  }

  lemma FreeDiskChanges(g: Geometry, bc: seq<nat>, d: Disk, ch: seq<nat>)
    requires Fits(g, |d|) && BitmapCovers(g, bc) && Clusters(g, ch) && Misses(ch, Elements(bc))
    ensures Changes(g, bc, d, FreeDisk(g, bc, d, ch), Elements(ch), Elements(ch), Elements(bc) + Elements(ch))
  {
    hide Fits, BitmapCovers, Clusters, Misses, Changes, ReleaseChain, ZeroClusters;
    var e := ReleaseChain(g, bc, d, ch, |ch|);
    assert ch[..|ch|] == ch;
    ReleaseChainChanges(g, bc, d, ch, |ch|);
    ZeroClustersChanges(g, bc, e, ch, |ch|);
    ChangesTrans(g, bc, d, e, FreeDisk(g, bc, d, ch), Elements(ch), Elements(ch), Elements(bc), {}, {}, Elements(ch));
    Units(Elements(ch));
  }

  lemma UnlinkParts(L: Layout, s: State, i: nat)
    requires Ok(L, s) && i < |s.table| && s.table[i].writable
    ensures UnlinkShape(L, s, i) && |s.table| == |s.chains| && s.table[i].dirOff % 32 == 0
    ensures Fits(L.g, |s.disk|) && BitmapCovers(L.g, L.bc) && Clusters(L.g, s.chains[i]) && s.chains[i] != []
    ensures s.table[i].dirLba < |s.disk| && s.table[i].dirOff + 96 <= 512
    ensures LayoutOk(L, |s.disk|) && InRoot(L, |s.disk|, s.table[i].dirLba)
    ensures |UnlistDisk(s, i)| == |s.disk|
  {
    OkParts(L, s);
    OkWritable(L, s, i);
    FileOkParts(L, s.disk, s.table[i], s.chains[i]);
    ShapeParts(L, |s.disk|, s.table[i], s.chains[i]);
    hide Ok, BaseOk, LayoutOk, TableOk, AddedOk, Fits, BitmapCovers, Clusters, FileOk, FileShape, Linked, Ends,
         InRoot, Misses, EncodedSet;
  }

  lemma UnlinkIs(L: Layout, s: State, i: nat)
    requires UnlinkShape(L, s, i)
    ensures i < |s.table| == |s.chains| && s.table[i].dirLba < |s.disk| && s.table[i].dirOff + 96 <= 512
    ensures Fits(L.g, |UnlistDisk(s, i)|) && BitmapCovers(L.g, L.bc) && Clusters(L.g, s.chains[i])
    ensures var s' := UnlinkState(L, s, i);
            && s'.disk == FreeDisk(L.g, L.bc, UnlistDisk(s, i), s.chains[i]) && |s'.disk| == |s.disk|
            && s'.table == s.table[i := BLANK] && s'.chains == s.chains[i := []]
            && s'.added == s.added - Elements(s.chains[i])
  {
    hide Fits, BitmapCovers, Clusters, FreeDisk, Deleted;
  }

  lemma DeletedSlice(t: Sector, off: nat, a: nat)
    requires off + 96 <= 512 && a + 96 <= 512 && (a + 96 <= off || off + 96 <= a)
    ensures Deleted(t, off, 3)[a..a + 96] == t[a..a + 96]
  {
    hide Deleted;
  }

  lemma UnlistRow(L: Layout, s: State, i: nat, j: nat)
    requires Ok(L, s) && i < |s.table| && s.table[i].writable && UnlinkShape(L, s, i) && j < |s.table| && j != i
    ensures LayoutOk(L, |s.disk|) && RowOk(L, UnlistDisk(s, i), s.table[j], s.chains[j])
  {
    hide *;
    UnlinkParts(L, s, i);
    OkRow(L, s, j);
    OkSeparate(L, s, i, j);
    UnlistIs(s, i);
    var e := s.table[i];
    var t := Deleted(s.disk[e.dirLba], e.dirOff, 3);
    if s.table[j].writable && s.table[j].dirLba == e.dirLba {
      OkWritable(L, s, j);
      ShapeParts(L, |s.disk|, s.table[j], s.chains[j]);
      SeparateSlots(s.table[j], s.chains[j], e, s.chains[i]);
      DeletedSlice(s.disk[e.dirLba], e.dirOff, s.table[j].dirOff);
    }
    RootWriteRow(L, s.disk, e.dirLba, t, s.table[j], s.chains[j]);
  }

  lemma UnlistIs(s: State, i: nat)
    requires i < |s.table| && s.table[i].dirLba < |s.disk| && s.table[i].dirOff + 96 <= 512
    ensures UnlistDisk(s, i) == s.disk[s.table[i].dirLba := Deleted(s.disk[s.table[i].dirLba], s.table[i].dirOff, 3)]
  {
    hide Deleted;
  }

  lemma SeparateSlots(a: Entry, cha: seq<nat>, b: Entry, chb: seq<nat>)
    requires Separate(a, cha, b, chb) && a.writable && b.writable && a.dirLba == b.dirLba
    ensures a.dirOff + 96 <= b.dirOff || b.dirOff + 96 <= a.dirOff
  {
  }

  lemma BlankRow(L: Layout, d: Disk)
    requires LayoutOk(L, |d|)
    ensures RowOk(L, d, BLANK, [])
  {
    hide LayoutOk;
    LayoutParts(L, |d|);
    assert BLANK.streamFlags & 2 == 0;
  }

  lemma BlankSeparate(L: Layout, s: State, j: nat)
    requires Ok(L, s) && j < |s.table|
    ensures |s.table| == |s.chains| && Separate(s.table[j], s.chains[j], BLANK, [])
  {
    OkRow(L, s, j);
    if s.table[j].writable {
      OkWritable(L, s, j);
      ShapeParts(L, |s.disk|, s.table[j], s.chains[j]);
    }
    hide Ok, LayoutOk, RowOk, FileOk, FileShape, Clusters, Misses;
  }

  lemma AddedShrink(L: Layout, d: Disk, added: set<nat>, gone: set<nat>)
    requires LayoutOk(L, |d|) && AddedOk(L, d, added)
    ensures AddedOk(L, d, added - gone)
  {
    hide LayoutOk, Fits, BitmapCovers, FatAt, BitAt;
  }

  /** Unlinking a file keeps the invariant. */
  lemma UnlinkStateOk(L: Layout, s: State, i: nat)
    requires Ok(L, s) && i < |s.table| && s.table[i].writable
    ensures UnlinkShape(L, s, i) && Ok(L, UnlinkState(L, s, i))
  {
    hide *;
    OkParts(L, s);
    UnlinkParts(L, s, i);
    UnlinkIs(L, s, i);
    UnlistIs(s, i);
    ChainOutside(L, s, i);
    RootBitmapApart(L, |s.disk|);
    var e, ch := s.table[i], s.chains[i];
    var d := UnlistDisk(s, i);
    var s' := UnlinkState(L, s, i);
    var data := Elements(L.bc) + Elements(ch);
    RootWriteChanges(L, s.disk, e.dirLba, d[e.dirLba]);
    assert d == s.disk[e.dirLba := d[e.dirLba]];
    BaseFrame(L, s.disk, d, {}, {}, Elements(L.rc));
    AddedFrame(L, s.disk, d, s.added, {}, {}, Elements(L.rc));
    AddedShrink(L, d, s.added, Elements(ch));
    FreeDiskChanges(L.g, L.bc, d, ch);
    BaseFrame(L, d, s'.disk, Elements(ch), Elements(ch), data);
    AddedFrame(L, d, s'.disk, s'.added, Elements(ch), Elements(ch), data);
    forall j: nat | j < |s.table| ensures RowOk(L, s'.disk, s'.table[j], s'.chains[j]) {
      if j == i {
        LayoutOf(L, s'.disk);
        BlankRow(L, s'.disk);
      } else {
        UnlistRow(L, s, i, j);
        OthersMiss(L, s, i, j);
        RowFrame(L, d, s'.disk, s.table[j], s.chains[j], Elements(ch), Elements(ch), data);
      }
    }
    forall j: nat | j < |s.table| && j != i ensures Separate(s.table[j], s.chains[j], s'.table[i], s'.chains[i]) {
      BlankSeparate(L, s, j);
    }
    TableReplace(L, s, s', i);
    LayoutOf(L, s'.disk);
    OkIs(L, s');
  }

  /** Unlinking a file leaves every other file's bytes as they were. */
  lemma UnlinkStateBytes(L: Layout, s: State, i: nat, j: nat)
    requires Ok(L, s) && i < |s.table| && s.table[i].writable && j < |s.table| && j != i && s.chains[j] != []
    ensures UnlinkShape(L, s, i) && Ok(L, UnlinkState(L, s, i))
    ensures |UnlinkState(L, s, i).table| == |s.table| && UnlinkState(L, s, i).chains[j] == s.chains[j]
    ensures FileBytes(L, UnlinkState(L, s, i), j) == FileBytes(L, s, j)
  {
    hide *;
    OkParts(L, s);
    UnlinkStateOk(L, s, i);
    UnlinkParts(L, s, i);
    UnlinkIs(L, s, i);
    UnlistIs(s, i);
    ChainOutside(L, s, i);
    var e, ch := s.table[i], s.chains[i];
    var d := UnlistDisk(s, i);
    var s' := UnlinkState(L, s, i);
    RootWriteChanges(L, s.disk, e.dirLba, d[e.dirLba]);
    assert d == s.disk[e.dirLba := d[e.dirLba]];
    FreeDiskChanges(L.g, L.bc, d, ch);
    ChangesTrans(L.g, L.bc, s.disk, d, s'.disk, {}, {}, Elements(L.rc), Elements(ch), Elements(ch),
                 Elements(L.bc) + Elements(ch));
    var data := Elements(L.rc) + (Elements(L.bc) + Elements(ch));
    ChangesFat(L.g, L.bc, s.disk, s'.disk, {} + Elements(ch), {} + Elements(ch), data);
    RowMissesRoot(L, s, j);
    OthersMiss(L, s, i, j);
    MissesBoth(s.chains[j], Elements(L.bc), Elements(ch));
    MissesBoth(s.chains[j], Elements(L.rc), Elements(L.bc) + Elements(ch));
    BytesFrame(L, s, s', j, data);
  }
}
