/** What creating a file by path does: which clusters and slots it picks and the state it leads to. */
module CreateSpec {
  import opened Bytes
  import opened Arithmetic
  import opened Volume
  import opened Frames
  import opened Chains
  import opened Allocation
  import opened Options
  import opened Paths
  import opened EntrySet
  import opened Transaction
  import opened FileSystem
  import opened FileOps
  import opened CreateUnlink
  import opened Edits
  import opened Search

  /** A path the write path can create: an 8.3 name in the root directory. */
  ghost predicate ShortPath(path: string) {
    path != "" && path[0] == '/' && ShortName(path[1..])
  }

  ghost predicate HasRun(L: Layout, d: Disk, n: nat) {
    Fits(L.g, |d|) && BitmapCovers(L.g, L.bc) && exists c: nat :: RunFree(L, d, c, n)
  }

  /** The lowest free run. */
  ghost predicate ChosenRun(L: Layout, d: Disk, run: seq<nat>, n: nat) {
    && Fits(L.g, |d|) && BitmapCovers(L.g, L.bc)
    && |run| == n && n >= 1 && run == Run(run[0], n) && RunFree(L, d, run[0], n)
    && forall c: nat :: c < run[0] ==> !RunFree(L, d, c, n)
  }

  /** The first run of three free slots, which must not straddle a sector boundary. */
  ghost predicate ChosenSlot(L: Layout, d: Disk, j: nat) {
    SlotRun(L, d, j) && (forall i: nat :: i < j ==> !SlotRun(L, d, i)) && j % 16 * 32 + 96 <= 512
  }

  ghost predicate HasSlot(L: Layout, d: Disk) {
    exists j: nat :: ChosenSlot(L, d, j)
  }

  ghost predicate SlotPlace(L: Layout, n: nat, slot: nat) {
    Fits(L.g, n) && Clusters(L.g, L.rc) && slot / 16 < RootSectors(L) && slot % 16 * 32 + 96 <= 512
    && RootLba(L, n, slot / 16) < n
  }

  ghost predicate CreateShape(L: Layout, s: State, path: string, run: seq<nat>, slot: nat) {
    && path != "" && AllocShape(L, s, run) && SlotPlace(L, |s.disk|, slot)
    && EnterShape(AllocState(L, s, run), RootLba(L, |s.disk|, slot / 16), slot % 16 * 32, path[1..], run)
  }

  /** The file exists: clusters allocated, set on disk, row in the table. */
  ghost function CreateState(L: Layout, s: State, path: string, run: seq<nat>, slot: nat): State
    requires CreateShape(L, s, path, run, slot)
  {
    EnterState(L, AllocState(L, s, run), RootLba(L, |s.disk|, slot / 16), slot % 16 * 32, path[1..], run)
  }

  /** The table was full: clusters allocated and set on disk, but no row. */
  ghost function LeakState(L: Layout, s: State, path: string, run: seq<nat>, slot: nat): State
    requires CreateShape(L, s, path, run, slot)
  {
    OrphanState(AllocState(L, s, run), RootLba(L, |s.disk|, slot / 16), slot % 16 * 32, path[1..], run)
  }

  /** Everything that lets a create go ahead. */
  ghost predicate CanCreate(L: Layout, s: State, path: string, n: nat, run: seq<nat>, slot: nat) {
    && Ok(L, s) && ShortPath(path) && LookupPath(s.table, path) == None && 1 <= n <= MAX_CLUSTERS
    && ChosenRun(L, s.disk, run, n) && ChosenSlot(L, s.disk, slot)
  }

  lemma CanCreateRun(L: Layout, s: State, path: string, n: nat, run: seq<nat>, slot: nat)
    requires CanCreate(L, s, path, n, run, slot)
    ensures Ok(L, s) && FreshRun(L, s, run) && run != [] && |run| == n && 1 <= |run| <= 3 && run == Run(run[0], |run|)
  {
    hide Ok, ShortPath, LookupPath, Fits, BitmapCovers, RunFree, ChosenSlot;
    FreeRunIsFresh(L, s, run[0], n);
  }

  lemma CanCreatePlace(L: Layout, s: State, path: string, n: nat, run: seq<nat>, slot: nat)
    requires CanCreate(L, s, path, n, run, slot)
    ensures SlotPlace(L, |s.disk|, slot) && path != "" && |path[1..]| <= 15 && ShortName(path[1..])
    ensures LayoutOk(L, |s.disk|) && InRoot(L, |s.disk|, RootLba(L, |s.disk|, slot / 16))
    ensures SlotsFree(s.disk[RootLba(L, |s.disk|, slot / 16)], slot % 16 * 32)
  {
    hide Ok, LookupPath, ChosenRun, SlotFree, LayoutOk, Fits, Clusters, InRoot, RootLba, SlotUsed, ShortName,
         RootSectors;
    SlotRunInSector(L, s.disk, slot);
    ShortNameShape(path[1..]);
  }

  /** The disk under the directory slot is the same before and after the allocation. */
  lemma AllocKeepsRoot(L: Layout, s: State, run: seq<nat>, lba: nat)
    requires Ok(L, s) && FreshRun(L, s, run) && LayoutOk(L, |s.disk|) && InRoot(L, |s.disk|, lba)
    ensures AllocShape(L, s, run) && lba < |s.disk| == |AllocState(L, s, run).disk|
    ensures AllocState(L, s, run).disk[lba] == s.disk[lba]
  {
    hide *;
    AllocParts(L, s, run);
    FreshOutside(L, s, run);
    AllocDiskChanges(L.g, L.bc, s.disk, run);
    RootBitmapApart(L, |s.disk|);
    var c, k := RootSector(L, |s.disk|, lba);
    var d' := AllocState(L, s, run).disk;
    ChangesFat(L.g, L.bc, s.disk, d', Elements(run), Elements(run), Elements(run) + Elements(L.bc));
    SectorFrame(L.g, s.disk, d', Elements(run) + Elements(L.bc), c, lba);
  }

  lemma CreateFits(L: Layout, s: State, path: string, n: nat, run: seq<nat>, slot: nat)
    requires CanCreate(L, s, path, n, run, slot)
    ensures CreateShape(L, s, path, run, slot) && AllocShape(L, s, run) && SlotPlace(L, |s.disk|, slot) && path != ""
    ensures CanOrphan(L, s, RootLba(L, |s.disk|, slot / 16), slot % 16 * 32, path[1..], run)
    ensures CanOrphan(L, AllocState(L, s, run), RootLba(L, |s.disk|, slot / 16), slot % 16 * 32, path[1..], run)
  {
    hide *;
    CanCreateRun(L, s, path, n, run, slot);
    CanCreatePlace(L, s, path, n, run, slot);
    SlotPlaceIs(L, |s.disk|, slot);
    var lba, off := RootLba(L, |s.disk|, slot / 16), slot % 16 * 32;
    AllocKeepsRoot(L, s, run, lba);
    AllocStateOk(L, s, run);
    var a := AllocState(L, s, run);
    CanOrphanFrom(L, s, lba, off, path[1..], run);
    CanOrphanFrom(L, a, lba, off, path[1..], run);
    CanOrphanIs(L, a, lba, off, path[1..], run);
    CreateShapeIs(L, s, path, run, slot);
  }

  lemma SlotPlaceIs(L: Layout, n: nat, slot: nat)
    requires SlotPlace(L, n, slot)
    ensures Fits(L.g, n) && Clusters(L.g, L.rc) && slot / 16 < RootSectors(L) && slot % 16 * 32 + 96 <= 512
    ensures RootLba(L, n, slot / 16) < n
  {
  }

  lemma CanOrphanFrom(L: Layout, s: State, lba: nat, off: nat, name: string, run: seq<nat>)
    requires Ok(L, s) && ShortName(name) && run != [] && LayoutOk(L, |s.disk|) && InRoot(L, |s.disk|, lba)
    requires lba < |s.disk| && SlotsFree(s.disk[lba], off)
    ensures CanOrphan(L, s, lba, off, name, run)
  {
    hide Ok, ShortName, LayoutOk, InRoot, SlotsFree;
  }

  lemma CreateShapeIs(L: Layout, s: State, path: string, run: seq<nat>, slot: nat)
    requires path != "" && AllocShape(L, s, run) && SlotPlace(L, |s.disk|, slot)
    requires Fits(L.g, |s.disk|) && Clusters(L.g, L.rc) && slot / 16 < RootSectors(L)
    requires EnterShape(AllocState(L, s, run), RootLba(L, |s.disk|, slot / 16), slot % 16 * 32, path[1..], run)
    ensures CreateShape(L, s, path, run, slot)
  {
    hide AllocShape, SlotPlace, EnterShape;
  }

  lemma CreateEnters(L: Layout, s: State, path: string, n: nat, run: seq<nat>, slot: nat)
    requires CanCreate(L, s, path, n, run, slot) && |s.table| < MAX_ENTRIES
    ensures CreateShape(L, s, path, run, slot) && AllocShape(L, s, run) && SlotPlace(L, |s.disk|, slot) && path != ""
    ensures CanEnter(L, AllocState(L, s, run), RootLba(L, |s.disk|, slot / 16), slot % 16 * 32, path[1..], run)
  {
    hide *;
    CreateFits(L, s, path, n, run, slot);
    SlotPlaceIs(L, |s.disk|, slot);
    CanCreateRun(L, s, path, n, run, slot);
    OkParts(L, s);
    AllocParts(L, s, run);
    AllocatedChain(L.g, L.bc, s.disk, run);
    FreshOutside(L, s, run);
    NameUnused(L, s, path, n, run, slot);
    var a := AllocState(L, s, run);
    CanEnterFrom(L, a, RootLba(L, |s.disk|, slot / 16), slot % 16 * 32, path[1..], run);
  }

  lemma NameUnused(L: Layout, s: State, path: string, n: nat, run: seq<nat>, slot: nat)
    requires CanCreate(L, s, path, n, run, slot)
    ensures path != "" && forall j: nat :: j < |s.table| ==> s.table[j].parent != "/" || s.table[j].name != path[1..]
  {
    hide Ok, ChosenRun, ChosenSlot, ShortName;
    ShortPathKey(path);
    var key := ("/", path[1..]);
    assert Lookup(s.table, key) == None;
    assert forall j: nat :: j < |s.table| ==> !Matches(s.table[j], key);
  }

  lemma CanEnterFrom(L: Layout, s: State, lba: nat, off: nat, name: string, run: seq<nat>)
    requires CanOrphan(L, s, lba, off, name, run)
    requires |s.table| == |s.chains| < MAX_ENTRIES && |run| <= 3
    requires Fits(L.g, |s.disk|) && Clusters(L.g, run) && Linked(L.g, s.disk, run) && Ends(L.g, s.disk, run)
    requires Misses(run, L.reserved)
    requires forall j: nat :: j < |s.table| ==> Misses(run, Elements(s.chains[j]))
    requires forall j: nat :: j < |s.table| ==> s.table[j].parent != "/" || s.table[j].name != name
    ensures CanEnter(L, s, lba, off, name, run)
  {
    hide CanOrphan, Fits, Clusters, Linked, Ends, Misses;
  }

  /** Creating a file keeps the invariant. */
  lemma CreateStateOk(L: Layout, s: State, path: string, n: nat, run: seq<nat>, slot: nat)
    requires CanCreate(L, s, path, n, run, slot)
    ensures CreateShape(L, s, path, run, slot)
    ensures Ok(L, LeakState(L, s, path, run, slot))
    ensures |s.table| < MAX_ENTRIES ==> Ok(L, CreateState(L, s, path, run, slot))
  {
    hide *;
    CreateFits(L, s, path, n, run, slot);
    SlotPlaceIs(L, |s.disk|, slot);
    var a := AllocState(L, s, run);
    var lba, off := RootLba(L, |s.disk|, slot / 16), slot % 16 * 32;
    OrphanStateOk(L, a, lba, off, path[1..], run);
    CreateIs(L, s, path, run, slot);
    if |s.table| < MAX_ENTRIES {
      CreateEnters(L, s, path, n, run, slot);
      EnterStateOk(L, a, lba, off, path[1..], run);
    }
  }

  lemma CreateIs(L: Layout, s: State, path: string, run: seq<nat>, slot: nat)
    requires CreateShape(L, s, path, run, slot)
    ensures path != "" && run != [] && AllocShape(L, s, run) && SlotPlace(L, |s.disk|, slot)
    ensures Fits(L.g, |s.disk|) && Clusters(L.g, L.rc) && slot / 16 < RootSectors(L)
    ensures var a, lba, off := AllocState(L, s, run), RootLba(L, |s.disk|, slot / 16), slot % 16 * 32;
            && EnterShape(a, lba, off, path[1..], run)
            && CreateState(L, s, path, run, slot) == EnterState(L, a, lba, off, path[1..], run)
            && LeakState(L, s, path, run, slot) == OrphanState(a, lba, off, path[1..], run)
  {
    hide AllocState, RootLba, EnterState, OrphanState, Fits, BitmapCovers, Clusters, RootSectors;
  }

  /** The new file is empty, occupies the chosen run, and no other row changed. */
  lemma CreateStateRows(L: Layout, s: State, path: string, n: nat, run: seq<nat>, slot: nat)
    requires CanCreate(L, s, path, n, run, slot) && |s.table| < MAX_ENTRIES
    ensures CreateShape(L, s, path, run, slot) && path != "" && run != [] && |run| == n
    ensures var s' := CreateState(L, s, path, run, slot);
            && |s'.table| == |s.table| + 1 && s'.chains == s.chains + [run] && s'.added == s.added + Elements(run)
            && s'.table[..|s.table|] == s.table
            && s'.table[|s.table|].name == path[1..] && s'.table[|s.table|].parent == "/"
            && s'.table[|s.table|].size == 0 && s'.table[|s.table|].writable
            && s'.table[|s.table|].capacity == Capacity(L.g, n)
  {
    hide *;
    CreateFits(L, s, path, n, run, slot);
    CanCreateRun(L, s, path, n, run, slot);
    CreateIs(L, s, path, run, slot);
    AllocParts(L, s, run);
    var a, lba, off := AllocState(L, s, run), RootLba(L, |s.disk|, slot / 16), slot % 16 * 32;
    OrphanParts(a, lba, off, path[1..], run);
    EnterIs(L, a, lba, off, path[1..], run);
    NewEntryIs(L, lba, off, path[1..], run);
  }

  lemma NewEntryIs(L: Layout, lba: nat, off: nat, name: string, run: seq<nat>)
    requires run != []
    ensures NewEntry(L, lba, off, name, run) ==
              Entry("/", name, 0, Capacity(L.g, |run|), lba, off, run[0], 0, false, true)
  {
    hide Capacity;
  }

  /** Creating a file, or leaking one, changes the bytes of no existing file. */
  lemma CreateStateBytes(L: Layout, s: State, path: string, n: nat, run: seq<nat>, slot: nat, j: nat)
    requires CanCreate(L, s, path, n, run, slot) && j < |s.table| == |s.chains| && s.chains[j] != []
    ensures CreateShape(L, s, path, run, slot) && Ok(L, LeakState(L, s, path, run, slot))
    ensures LeakState(L, s, path, run, slot).table == s.table && LeakState(L, s, path, run, slot).chains == s.chains
    ensures FileBytes(L, LeakState(L, s, path, run, slot), j) == FileBytes(L, s, j)
    ensures |s.table| < MAX_ENTRIES ==>
              var s' := CreateState(L, s, path, run, slot);
              Ok(L, s') && j < |s'.table| == |s'.chains| && s'.chains[j] == s.chains[j]
              && FileBytes(L, s', j) == FileBytes(L, s, j)
  {
    hide *;
    CanCreateRun(L, s, path, n, run, slot);
    CreateFits(L, s, path, n, run, slot);
    CreateStateOk(L, s, path, n, run, slot);
    CreateIs(L, s, path, run, slot);
    AllocStateBytes(L, s, run, j);
    var a, lba, off := AllocState(L, s, run), RootLba(L, |s.disk|, slot / 16), slot % 16 * 32;
    CanOrphanIs(L, a, lba, off, path[1..], run);
    OrphanParts(a, lba, off, path[1..], run);
    var o := OrphanState(a, lba, off, path[1..], run);
    RootWriteChanges(L, a.disk, lba, o.disk[lba]);
    assert o.disk == a.disk[lba := o.disk[lba]];
    ChangesFat(L.g, L.bc, a.disk, o.disk, {}, {}, Elements(L.rc));
    RowMissesRoot(L, a, j);
    BytesFrame(L, a, o, j, Elements(L.rc));
    if |s.table| < MAX_ENTRIES {
      EnterIs(L, a, lba, off, path[1..], run);
      BytesFrame(L, a, CreateState(L, s, path, run, slot), j, Elements(L.rc));
    }
  }
}
