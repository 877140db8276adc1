/** The mounted volume: the methods of the write path, proved against the specification state. */
module Mounts {
  import opened Bytes
  import opened Arithmetic
  import opened Volume
  import opened Frames
  import opened Chains
  import opened Allocation
  import opened Options
  import opened Paths
  import opened EntrySet
  import opened DirectoryParser
  import opened Transaction
  import opened FileSystem
  import opened FileOps
  import opened CreateUnlink
  import opened Edits
  import opened Search
  import opened CreateSpec
  import opened WriteSpec
  import opened FileView
  import opened MountProofs
  import opened RootScan

  class Mount {
    const g: Geometry
    const device: BlockDevice
    const commitReady: bool
    const planDirOffset: nat
    var table: seq<Entry>
    ghost const L: Layout
    ghost var chains: seq<seq<nat>>
    ghost var added: set<nat>

    ghost function Now(): State
      reads this, device
    {
      State(device.sectors, table, chains, added)
    }

    ghost predicate Valid()
      reads this, device
    {
      L.g == g && Ok(L, Now())
    }

    /** A mounted volume in any state that satisfies the invariant. */
    constructor (g: Geometry, device: BlockDevice, commitReady: bool, planDirOffset: nat, table: seq<Entry>,
                 ghost L: Layout, ghost chains: seq<seq<nat>>)
      requires L.g == g && Ok(L, State(device.sectors, table, chains, {}))
      ensures Valid() && this.device == device && this.table == table && this.L == L && this.chains == chains
      ensures added == {}
      ensures this.g == g && this.commitReady == commitReady && this.planDirOffset == planDirOffset
    {
      this.g, this.device, this.commitReady, this.planDirOffset, this.table := g, device, commitReady, planDirOffset,
          table;
      this.L, this.chains, this.added := L, chains, {};
    }

    /** The root directory and the bitmap can be followed; all that the searches rely on. */
    ghost predicate Ready()
      reads this, device
    {
      L.g == g && BaseOk(L, device.sectors)
    }

    lemma ValidIsReady()
      requires Valid()
      ensures Ready() && L.g == g && Ok(L, Now())
    {
      OkParts(L, Now());
      hide Ok, BaseOk, LayoutOk, TableOk, AddedOk, Fits, BitmapCovers;
    }

    lemma ValidFrom()
      requires L.g == g && Ok(L, Now())
      ensures Valid()
    {
    }

    lemma NowIs()
      ensures Now() == State(device.sectors, table, chains, added)
    {
    }

    lemma ReadyIs()
      requires L.g == g && BaseOk(L, device.sectors)
      ensures Ready()
    {
    }

    lemma ReadyParts()
      requires Ready()
      ensures L.g == g && LayoutOk(L, |device.sectors|) && BaseOk(L, device.sectors)
      ensures Fits(g, |device.sectors|) && BitmapCovers(g, L.bc)
    {
      LayoutOf(L, device.sectors);
      LayoutParts(L, |device.sectors|);
      hide BaseOk, LayoutOk, Fits, BitmapCovers, Clusters;
    }

    method ReadFatEntry(c: nat) returns (ok: bool, next: nat)
      requires Fits(g, |device.sectors|)
      ensures ok == ClusterValid(g, c)
      ensures ok ==> next == FatAt(g, device.sectors, c)
    {
      hide *;
      ClusterValidIs(g, c);
      next := EOF_MARK;
      if !ClusterValid(g, c) {
        return false, next;
      }
      FatAtIs(g, device.sectors, c);
      var fatSector, sectorOffset := g.fatOffset + c * 4 / 512, c * 4 % 512;
      if fatSector >= g.fatOffset + g.fatLength || sectorOffset + 4 > 512 {
        return false, next;
      }
      var s;
      ok, s := device.Read(fatSector);
      if ok {
        next := Le32(s, sectorOffset);
      }
    }

    method ResolveCluster(first: nat, flags: Byte, index: nat) returns (r: Option<nat>)
      requires Fits(g, |device.sectors|)
      ensures r == Resolved(g, device.sectors, first, flags, index)
    {
      hide Fits, FatAt;
      if !ClusterValid(g, first) {
        return None;
      }
      if flags & 2 != 0 {
        var c := (first + index % 0x1_0000_0000) % 0x1_0000_0000;
        return if ClusterValid(g, c) then Some(c) else None;
      }
      var cluster: nat := first;
      for i := 0 to index
        invariant ClusterValid(g, cluster)
        invariant Walk(g, device.sectors, first, index) == Walk(g, device.sectors, cluster, index - i)
      {
        var ok, next := ReadFatEntry(cluster);
        if !ok || next >= EOF_MIN || !ClusterValid(g, next) {
          return None;
        }
        cluster := next;
      }
      r := Some(cluster);
    }

    /** The sector, byte and bit position of a cluster's allocation bit. */
    method LocateBit(c: nat) returns (ok: bool, lba: nat, off: nat, pos: nat)
      requires Ready()
      ensures Fits(g, |device.sectors|) && BitmapCovers(g, L.bc)
      ensures ok == ClusterValid(g, c)
      ensures ok ==> lba == BitLba(g, L.bc, c) && off == BitOff(c) && pos == BitPos(c)
    {
      hide *;
      ReadyParts();
      ok, lba, off, pos := false, 0, 0, 0;
      var cIsValid := c >= 2 && c < g.clusterCount + 2;
      assert cIsValid == ClusterValid(g, c) by { ClusterValidIs(g, c); }
      if !cIsValid {
        return;
      }
      BitLocation(L, device.sectors, c);
      var byteIndex := (c - 2) / 8;
      if g.sectorsPerCluster == 0 || byteIndex >= g.bitmapSize {
        return;
      }
      var r := ResolveCluster(g.bitmapCluster, 0, ClusterIndexOf(g, byteIndex));
      if r.None? || SectorIndexOf(g, byteIndex) >= g.sectorsPerCluster {
        return;
      }
      ok, lba, off, pos := true, ClusterLba(g, r.value) + SectorIndexOf(g, byteIndex), SectorOffsetOf(g, byteIndex),
          (c - 2) % 8;
    }

    method ReadBit(c: nat) returns (ok: bool, used: bool)
      requires Ready()
      ensures Fits(g, |device.sectors|) && BitmapCovers(g, L.bc)
      ensures ok == ClusterValid(g, c)
      ensures ok ==> used == BitAt(g, L.bc, device.sectors, c)
    {
      hide *;
      used := true;
      var lba, off, pos;
      ok, lba, off, pos := LocateBit(c);
      if ok {
        BitAtIs(g, L.bc, device.sectors, c);
        var readOk, s := device.Read(lba);
        ok := readOk;
        used := s[off] & Mask(pos) != 0;
      }
    }

    // ---------- directory slots and table rows ----------

    /** Looks at the 16 slots of root directory sector number `t`, continuing a run of `run` free slots. */
    method ScanRootSector(ghost t: nat, lba: nat, sector: Sector, run: nat, runLba: nat, runSlot: nat)
      returns (found: bool, run': nat, runLba': nat, runSlot': nat, ghost j: nat)
      requires Ready() && RootSectorAt(L, device.sectors, t, lba) && device.sectors[lba] == sector
      requires SlotScan(L, device.sectors, 16 * t, run)
      requires run > 0 ==> RunStart(L, device.sectors, 16 * t - run, runLba, runSlot)
      ensures found ==> SlotRun(L, device.sectors, j) && RunStart(L, device.sectors, j, runLba', runSlot')
      ensures found ==> forall i: nat :: i < j ==> !SlotRun(L, device.sectors, i)
      ensures !found ==> SlotScan(L, device.sectors, 16 * t + 16, run') && run' <= 16 * t + 16
      ensures !found && run' > 0 ==> RunStart(L, device.sectors, 16 * t + 16 - run', runLba', runSlot')
    {
      hide *;
      run', runLba', runSlot', found, j := run, runLba, runSlot, false, 0;
      var slot := 0;
      SlotScanBound(L, device.sectors, 16 * t, run);
      while slot < 16
        invariant slot <= 16
        invariant SlotScan(L, device.sectors, 16 * t + slot, run')
        invariant run' <= 16 * t + slot
        invariant run' > 0 ==> RunStart(L, device.sectors, 16 * t + slot - run', runLba', runSlot')
      {
        SlotScanBound(L, device.sectors, 16 * t + slot, run');
        SlotScanStep(L, device.sectors, 16 * t + slot, run');
        SlotFreeIs(L, device.sectors, t, lba, slot);
        if !SlotUsed(sector[slot * 32]) {
          if run' == 0 {
            runLba', runSlot' := lba, slot;
          }
          run' := run' + 1;
          if run' >= 3 {
            found, j := true, 16 * t + slot - 2;
            return;
          }
        } else {
          run' := 0;
        }
        slot := slot + 1;
      }
    }

    /** The first run of three free slots of the root directory, counted through sector and cluster ends. */
    method FindRootSlot() returns (ok: bool, lba: nat, off: nat, ghost j: nat)
      requires Ready()
      ensures ok ==> SlotRun(L, device.sectors, j) && forall i: nat :: i < j ==> !SlotRun(L, device.sectors, i)
      ensures ok ==> RunStart(L, device.sectors, j, lba, off / 32) && off % 32 == 0
      ensures !ok ==> forall i: nat :: !SlotRun(L, device.sectors, i)
    {
      hide *;
      ReadyParts();
      ok, lba, off, j := false, 0, 0, 0;
      SlotScanStart(L, device.sectors);
      var run, runLba, runSlot := 0, 0, 0;
      var index := 0;
      ghost var t := 0;
      while index < g.clusterCount
        invariant t == index * g.sectorsPerCluster && index <= |L.rc|
        invariant SlotScan(L, device.sectors, 16 * t, run) && run <= 16 * t
        invariant run > 0 ==> RunStart(L, device.sectors, 16 * t - run, runLba, runSlot)
      {
        var c := ResolveCluster(g.rootCluster, 0, index);
        RootWalk(L, device.sectors, index);
        if c.None? {
          break;
        }
        var k := 0;
        while k < g.sectorsPerCluster
          invariant k <= g.sectorsPerCluster && t == index * g.sectorsPerCluster + k
          invariant SlotScan(L, device.sectors, 16 * t, run) && run <= 16 * t
          invariant run > 0 ==> RunStart(L, device.sectors, 16 * t - run, runLba, runSlot)
        {
          RootSectorOf(L, device.sectors, index, k);
          var readOk, sector := device.Read(ClusterLba(g, c.value) + k);
          ok, run, runLba, runSlot, j := ScanRootSector(t, ClusterLba(g, c.value) + k, sector, run, runLba, runSlot);
          if ok {
            RunStartSlot(L, device.sectors, j, runLba, runSlot);
            lba, off := runLba, runSlot * 32;
            return;
          }
          t := t + 1;
          k := k + 1;
        }
        NextRow(index, g.sectorsPerCluster);
        index := index + 1;
      }
      RootCovered(L, device.sectors, index);
      forall i: nat ensures !SlotRun(L, device.sectors, i) {
        SlotScanEnd(L, device.sectors, 16 * t, run, i);
      }
    }

    /** Reads the whole root directory, as a mount does: the file sets in order, up to the end mark. */
    method ScanRoot() returns (found: seq<Parsed>)
      requires Ready()
      ensures RootReady(L, |device.sectors|) && found == Scan(L, device.sectors, 0)
    {
      hide *;
      ReadyParts();
      RootReadyFrom(L, |device.sectors|);
      found := [];
      ghost var all := Scan(L, device.sectors, 0);
      ScanEmpty(all);
      var index, stop := 0, false;
      ghost var t := 0;
      while index < g.clusterCount && !stop
        invariant index <= |L.rc| && (!stop ==> t == index * g.sectorsPerCluster)
        invariant all == if stop then found else found + Scan(L, device.sectors, t)
        decreases g.clusterCount - index, !stop
      {
        var c := ResolveCluster(g.rootCluster, 0, index);
        RootWalk(L, device.sectors, index);
        if c.None? {
          break;
        }
        var k := 0;
        while k < g.sectorsPerCluster && !stop
          invariant k <= g.sectorsPerCluster && t == index * g.sectorsPerCluster + k
          invariant all == if stop then found else found + Scan(L, device.sectors, t)
          decreases g.sectorsPerCluster - k, !stop
        {
          RootSectorOf(L, device.sectors, index, k);
          var readOk, sector := device.Read(ClusterLba(g, c.value) + k);
          var sets;
          sets, stop := ParseDirectorySector(sector);
          RootSectorParts(L, device.sectors, t, ClusterLba(g, c.value) + k);
          ScanStep(L, device.sectors, t, ClusterLba(g, c.value) + k, found);
          found := found + sets;
          if !stop { t, k := t + 1, k + 1; }
        }
        if !stop {
          NextRow(index, g.sectorsPerCluster);
          index := index + 1;
        }
      }
      if !stop {
        RootCovered(L, device.sectors, index);
        ScanEnd(L, device.sectors, t, found);
      }
    }

    method FindRootEntry(path: string) returns (r: Option<nat>)
      ensures r == LookupPath(table, path)
    {
      var key := SplitPath(path);
      if key.None? {
        return None;
      }
      for i := 0 to |table|
        invariant Lookup(table, key.value) == LookupFrom(table, key.value, i)
      {
        if table[i].parent == key.value.0 && table[i].name == key.value.1 {
          return Some(i);
        }
      }
      r := None;
    }

    // ---------- creating ----------

    method ZeroCluster(c: nat) returns (ok: bool)
      requires Fits(g, |device.sectors|) && ClusterValid(g, c)
      modifies device
      ensures ok && device.sectors == ZeroSectors(g, old(device.sectors), c, g.sectorsPerCluster)
    {
      hide Fits, ClusterLba, ZeroSector;
      ghost var d := device.sectors;
      ClusterInHeap(g, |d|, c);
      for i := 0 to g.sectorsPerCluster
        invariant device.sectors == ZeroSectors(g, d, c, i)
      {
        ok := device.WriteChecked(ClusterLba(g, c) + i, ZeroSector());
        if !ok {
          return;
        }
      }
      ok := true;
    }

    method ZeroAll(cs: seq<nat>) returns (ok: bool)
      requires Fits(g, |device.sectors|) && Clusters(g, cs)
      modifies device
      ensures ok && device.sectors == ZeroClusters(g, old(device.sectors), cs, |cs|)
    {
      hide Fits, ZeroSectors;
      ghost var d := device.sectors;
      for i := 0 to |cs|
        invariant device.sectors == ZeroClusters(g, d, cs, i)
      {
        ok := ZeroCluster(cs[i]);
        if !ok {
          return;
        }
      }
      ok := true;
    }

    /** The edits that mark `cs` used and link it into a chain. */
    method BuildMarkEdits(cs: seq<nat>) returns (ok: bool, edits: seq<Edit>)
      requires Ready() && Clusters(g, cs)
      ensures Fits(g, |device.sectors|) && g.sectorsPerCluster >= 1 && BitmapCovers(g, L.bc)
      ensures ok && edits == MarkEdits(g, L.bc, cs, |cs|)
    {
      ReadyParts();
      hide Ready, BitmapCovers, BitLba, BitEdit, FatEdit;
      edits := [];
      for i := 0 to |cs|
        invariant edits == MarkEdits(g, L.bc, cs, i)
      {
        var lba, off, pos;
        ok, lba, off, pos := LocateBit(cs[i]);
        if !ok || FatLba(g, cs[i]) >= g.fatOffset + g.fatLength {
          assert false by { FatInRange(g, |device.sectors|, cs[i]); }
          return;
        }
        BitEditIs(g, L.bc, cs[i], true);
        FatEditIs(g, cs[i], NextLink(cs, i));
        edits := edits + [Edit(lba, BitPatch(off, pos, true))] +
            [Edit(FatLba(g, cs[i]), U32Patch(FatOff(cs[i]), NextLink(cs, i)))];
      }
      ok := true;
    }

    /** Zeroes the clusters, then marks them and stores the directory set in one transaction. */
    method CommitCreate(run: seq<nat>, name: string, lba: nat, off: nat) returns (ok: bool)
      requires Valid() && FreshRun(L, Now(), run) && |run| <= 3 && run != [] && run == Run(run[0], |run|)
      requires CanOrphan(L, Now(), lba, off, name, run)
      modifies device
      ensures AllocShape(L, old(Now()), run) && EnterShape(AllocState(L, old(Now()), run), lba, off, name, run)
      ensures ok && device.sectors == OrphanState(AllocState(L, old(Now()), run), lba, off, name, run).disk
    {
      hide *;
      ValidIsReady();
      NowIs();
      ghost var s := Now();
      AllocParts(L, s, run);
      CanOrphanIs(L, s, lba, off, name, run);
      FreshOutside(L, s, run);
      ReadyParts();
      ok := ZeroAll(run);
      ghost var d := device.sectors;
      ZeroKeepsReady(L, s.disk, run);
      ReadyIs();
      var built, edits := BuildMarkEdits(run);
      var entries := EncodeFileEntries(name, run[0], 0);
      edits := edits + [Edit(lba, BytesPatch(off, entries[..]))];
      CreateEdits(L, s, run, name, lba, off);
      ok := RunTransaction(device, edits);
    }

    /** Creates an empty file of `n` consecutive clusters. The set reaches the disk before the table row is taken,
        so a full table leaves the set without a row and reports failure. */
    method Create(path: string, n: nat) returns (ok: bool, ghost made: bool, ghost run: seq<nat>, ghost slot: nat)
      requires Valid()
      modifies this, device
      ensures Valid()
      ensures made == (commitReady && 1 <= n <= MAX_CLUSTERS && ShortPath(path) && LookupPath(old(table), path) == None
                       && HasRun(L, old(device.sectors), n) && HasSlot(L, old(device.sectors)))
      ensures made ==> ChosenRun(L, old(device.sectors), run, n) && ChosenSlot(L, old(device.sectors), slot)
      ensures made ==> CreateShape(L, old(Now()), path, run, slot)
      ensures made && |old(table)| < MAX_ENTRIES ==> ok && Now() == CreateState(L, old(Now()), path, run, slot)
      ensures made && |old(table)| >= MAX_ENTRIES ==> !ok && Now() == LeakState(L, old(Now()), path, run, slot)
      ensures !made ==> !ok && Now() == old(Now())
    {
      hide *;
      ValidIsReady();
      NowIs();
      ReadyParts();
      ghost var s := Now();
      ok, made, run, slot := false, false, [], 0;
      var nameOk, name := ParseShortName(path);
      ShortPathIs(path);
      var existing := FindRootEntry(path);
      var runOk, clusters := FindFreeRun(n);
      var slotOk, lba, off;
      slotOk, lba, off, slot := FindRootSlot();
      SearchDecides(L, device.sectors, n, runOk, clusters, slotOk, slot);
      if slotOk { OffsetOf(L, device.sectors, slot, lba, off); }
      if !commitReady || n == 0 || n > MAX_CLUSTERS || !nameOk || existing.Some? || !runOk || !slotOk
         || off + 96 > 512 {
        return;
      }
      made, run := true, clusters;
      CreateAllowed(L, s, path, n, run, slot, lba, off);
      CreateStep(L, s, path, n, run, slot, lba, off);
      ok := CommitCreate(clusters, name, lba, off);
      added := added + Elements(run);
      if |table| >= MAX_ENTRIES {
        NowIs();
        ValidFrom();
        return false, made, run, slot;
      }
      table := table + [Entry("/", name, 0, ClusterBytes(g, n), lba, off, clusters[0], 0, false, true)];
      chains := chains + [run];
      NowIs();
      ValidFrom();
    }

    // ---------- extending ----------

    /** Follows the FAT from the first cluster of a file, at most three clusters far. */
    method CollectChain(i: nat) returns (ok: bool, clusters: seq<nat>)
      requires Valid() && i < |table| && table[i].writable
      ensures |chains| == |table| && ok && clusters == chains[i]
    {
      hide *;
      ValidIsReady();
      NowIs();
      ReadyParts();
      OwnChain(L, Now(), i);
      clusters := [];
      var cluster := table[i].first;
      for k := 0 to MAX_CLUSTERS
        invariant 0 <= k < |chains[i]| && clusters == chains[i][..k] && cluster == chains[i][k]
      {
        var next;
        ChainNext(L, Now(), i, k);
        ok, next := ReadFatEntry(cluster);
        if !ok {
          return;
        }
        clusters := clusters + [cluster];
        if next >= EOF_MIN {
          return true, clusters;
        }
        if !ClusterValid(g, next) {
          return false, clusters;
        }
        cluster := next;
      }
      assert false;
    }

    /** Appends clusters so that the file has `required`; a file that has them already is left alone. */
    method Extend(i: nat, required: nat) returns (ok: bool, ghost more: seq<nat>)
      requires Valid() && i < |table| && table[i].writable
      modifies this, device
      ensures Valid() && |old(chains)| == |old(table)|
      ensures ok == (1 <= required <= MAX_CLUSTERS && |old(chains[i])| <= required
                     && (|old(chains[i])| < required ==> HasRun(L, old(device.sectors), required - |old(chains[i])|)))
      ensures ok && |old(chains[i])| < required ==>
                && ChosenRun(L, old(device.sectors), more, required - |old(chains[i])|)
                && |old(chains[i])| + |more| == required && CanExtend(L, old(Now()), i, more)
                   && ExtendShape(L, old(Now()), i, more)
                && Now() == ExtendState(L, old(Now()), i, more)
      ensures !(ok && |old(chains[i])| < required) ==> Now() == old(Now())
    {
      hide *;
      ValidIsReady();
      NowIs();
      ReadyParts();
      ghost var s := Now();
      OwnChain(L, s, i);
      ok, more := false, [];
      var collected, current := CollectChain(i);
      if required == 0 || required > MAX_CLUSTERS || !collected || current == [] || |current| > required {
        return;
      }
      if |current| == required {
        ok := true;
        return;
      }
      var addCount := required - |current|;
      var runOk, clusters := FindFreeRun(addCount);
      RunDecides(L, device.sectors, addCount, runOk, clusters);
      if !runOk {
        return;
      }
      more := clusters;
      ExtendAllowed(L, s, i, addCount, more);
      ok := ZeroAll(clusters);
      ZeroKeepsReady(L, s.disk, more);
      ReadyIs();
      var built, edits := BuildMarkEdits(clusters);
      var last := current[|current| - 1];
      edits := [Edit(FatLba(g, last), U32Patch(FatOff(last), clusters[0]))] + edits;
      FatEditIs(g, last, clusters[0]);
      LastValid(L.g, s.chains[i]);
      ExtendEdits(L, s, i, more);
      ok := RunTransaction(device, edits);
      ExtendStep(L, s, i, more);
      table := table[i := table[i].(capacity := ClusterBytes(g, required))];
      chains := chains[i := chains[i] + more];
      added := added + Elements(more);
      NowIs();
      ValidFrom();
    }

    // ---------- size and name ----------

    /** Stores a new size in the directory set and in the row. */
    method Refresh(i: nat, size: nat) returns (ok: bool)
      requires Valid() && i < |table| && table[i].writable
      modifies this, device
      ensures Valid()
      ensures ok == (commitReady && size <= old(table[i].capacity))
      ensures ok ==>
                CanRelabel(L, old(Now()), i, old(table[i].name), size) && LabelShape(old(Now()), i, old(table[i].name))
                     && Now() == RelabelState(L, old(Now()), i, old(table[i].name), size)
      ensures !ok ==> Now() == old(Now())
    {
      hide *;
      ValidIsReady();
      NowIs();
      ghost var s := Now();
      var e := table[i];
      RowFields(L, s, i);
      ok := false;
      if !commitReady || !e.writable || e.dirOff + 96 > 512 || size > e.capacity {
        return;
      }
      var readOk, sector := device.Read(e.dirLba);
      if !readOk {
        return;
      }
      var buffer := new Byte[512](k requires 0 <= k < 512 => sector[k]);
      assert buffer[..] == sector;
      RefreshGives(L, s, i, size);
      ok := RefreshSector(buffer, e.dirOff, size);
      if !ok {
        return;
      }
      ok := device.WriteChecked(e.dirLba, buffer[..]);
      table := table[i := e.(size := size)];
      RelabelStep(L, s, i, e.name, size);
      NowIs();
      ValidFrom();
    }

    /** The first writable file of the root directory. */
    method FindTestFile() returns (r: Option<nat>)
      ensures r == FirstTestFile(table, 0)
    {
      for i := 0 to |table|
        invariant FirstTestFile(table, 0) == FirstTestFile(table, i)
      {
        if table[i].writable && table[i].parent == "/" && !table[i].isDir {
          return Some(i);
        }
      }
      r := None;
    }

    /** Gives the still empty initial file the name of `path`, unless that path already exists. */
    method Rename(path: string) returns (ok: bool, ghost renamed: Option<nat>)
      requires Valid()
      modifies this, device
      ensures Valid()
      ensures renamed == if commitReady && ShortPath(path) && planDirOffset + 96 <= 512
                            && LookupPath(old(table), path) == None
                         then RenameTarget(old(table)) else None
      ensures renamed.Some? ==> renamed.value < |old(table)| && ok && path != ""
                                && CanRelabel(L, old(Now()), renamed.value, path[1..], 0)
                                   && LabelShape(old(Now()), renamed.value, path[1..])
                                && Now() == RelabelState(L, old(Now()), renamed.value, path[1..], 0)
      ensures renamed.None? ==> Now() == old(Now())
      ensures renamed.None? ==>
                ok == (commitReady && ShortPath(path) && planDirOffset + 96 <= 512
                       && LookupPath(old(table), path).Some?)
    {
      hide *;
      ValidIsReady();
      NowIs();
      ghost var s := Now();
      ok, renamed := false, None;
      var nameOk, name := ParseShortName(path);
      ShortPathIs(path);
      if !commitReady || !nameOk || planDirOffset + 96 > 512 {
        return;
      }
      var existing := FindRootEntry(path);
      if existing.Some? {
        ok := true;
        return;
      }
      var target := FindTestFile();
      RenameTargetIs(table);
      if target.None? || table[target.value].size != 0 || table[target.value].name != PLAN_NAME {
        return;
      }
      var i := target.value;
      var e := table[i];
      RowFields(L, s, i);
      if e.dirOff + 96 > 512 {
        return;
      }
      var readOk, sector := device.Read(e.dirLba);
      if !readOk {
        return;
      }
      var buffer := new Byte[512](k requires 0 <= k < 512 => sector[k]);
      assert buffer[..] == sector;
      RenameGives(L, s, i, path);
      ok := RenameSector(buffer, e.dirOff, name);
      if !ok {
        return;
      }
      ok := device.WriteChecked(e.dirLba, buffer[..]);
      table := table[i := e.(name := name)];
      renamed := Some(i);
      RelabelStep(L, s, i, path[1..], 0);
      NowIs();
      ValidFrom();
    }

    // ---------- reading and writing bytes ----------

    /** The sector that holds byte `pos` of the stream of row `i`. */
    method LocateByte(i: nat, pos: nat) returns (ok: bool, lba: nat)
      requires Valid() && i < |table|
      ensures |chains| == |table| && Fits(g, |device.sectors|)
      ensures chains[i] != [] && pos < Capacity(g, |chains[i]|) ==>
                Clusters(g, chains[i]) && InChain(g, chains[i], pos) && ok
                && lba == FileLba(g, chains[i], pos) < |device.sectors|
      ensures ok ==> lba < |device.sectors|
    {
      hide *;
      ValidIsReady();
      NowIs();
      ReadyParts();
      SpcPositive(g, |device.sectors|);
      OkSizes(L, Now());
      ok, lba := false, 0;
      var e := table[i];
      ghost var inside := chains[i] != [] && pos < Capacity(g, |chains[i]|);
      if inside { BytePlace(L, Now(), i, pos); }
      var c := ResolveCluster(e.first, e.streamFlags, ClusterIndexOf(g, pos));
      if c.None? || SectorIndexOf(g, pos) >= g.sectorsPerCluster {
        return;
      }
      ok, lba := true, ClusterLba(g, c.value) + SectorIndexOf(g, pos);
      ClusterInHeap(g, |device.sectors|, c.value);
    }

    /** Reads up to `len` bytes of row `i` from `offset` on, one sector at a time. */
    method ReadFile(i: nat, offset: nat, len: nat) returns (r: Option<seq<Byte>>)
      requires Valid() && i < |table|
      ensures |chains| == |table|
      ensures r.Some? ==> !table[i].isDir && ClusterValid(g, table[i].first)
      ensures chains[i] != [] && !table[i].isDir ==>
                r == Some(Slice(FileBytes(L, Now(), i), offset, len))
    {
      hide *;
      ValidIsReady();
      NowIs();
      ReadyParts();
      OkSizes(L, Now());
      var e := table[i];
      ghost var live := chains[i] != [] && !e.isDir;
      ghost var bytes: seq<Byte> := if live then FileBytes(L, Now(), i) else [];
      if live { RowStarts(L, Now(), i); }
      if e.isDir || !ClusterValid(g, e.first) {
        return None;
      }
      if offset >= e.size || len == 0 {
        if live { SliceEmpty(bytes, offset, len); }
        return Some([]);
      }
      var out: seq<Byte> := [];
      while |out| < len && offset + |out| < e.size
        invariant |out| <= len && offset + |out| <= e.size
        invariant live ==> out == bytes[offset..offset + |out|]
        decreases e.size - offset - |out|
      {
        var pos := offset + |out|;
        var n := ChunkLength(pos, if len - |out| < e.size - pos then len - |out| else e.size - pos);
        if live { RowSize(L, Now(), i); }
        var ok, lba := LocateByte(i, pos);
        if !ok {
          return None;
        }
        var readOk, sector := device.Read(lba);
        if live { ChunkReads(L, Now(), i, pos, n); }
        ChunkFits(pos, if len - |out| < e.size - pos then len - |out| else e.size - pos);
        var chunk := sector[pos % 512..pos % 512 + n];
        if live {
          JoinSlices(bytes, offset, pos, pos + n);
        }
        out := out + chunk;
      }
      if live { SliceIs(bytes, offset, len, out); }
      r := Some(out);
    }

    /** Overwrites bytes inside the capacity of a file, one sector at a time. */
    method WriteBuffer(i: nat, offset: nat, bytes: seq<Byte>) returns (ok: bool)
      requires Valid() && i < |table| && CanWrite(L, Now(), i, offset, bytes)
      modifies device
      ensures Valid() && ok && WriteShape(L, old(Now()), i, offset, bytes)
      ensures Now() == WriteState(L, old(Now()), i, offset, bytes)
    {
      hide *;
      ValidIsReady();
      NowIs();
      ghost var s := Now();
      CanWriteIs(L, s, i, offset, bytes);
      WriteFits(L, s, i, offset, bytes);
      WriteStateIs(L, s, i, offset, bytes);
      ghost var ch := chains[i];
      var written := 0;
      assert bytes[0..] == bytes;
      while written < |bytes|
        invariant written <= |bytes| && |device.sectors| == |s.disk|
        invariant Valid() && Now() == s.(disk := device.sectors)
        invariant WriteBytes(g, s.disk, ch, offset, bytes) ==
                    WriteBytes(g, device.sectors, ch, offset + written, bytes[written..])
      {
        var pos := offset + written;
        var n := ChunkLength(pos, |bytes| - written);
        ChunkFits(pos, |bytes| - written);
        var lba;
        ok, lba := LocateByte(i, pos);
        if !ok {
          return;
        }
        var readOk, sector := device.Read(lba);
        ValidIsReady();
        WriteOne(L, Now(), i, pos, bytes[written..]);
        Rest(bytes, written, n);
        ok := device.WriteChecked(lba, Splice(sector, pos % 512, bytes[written..written + n]));
        NowIs();
        ValidFrom();
        written := written + n;
      }
      WriteDone(g, device.sectors, ch, offset + written, bytes[written..]);
      ok := true;
    }

    /** Writes at `offset`, extending the chain first when the range ends past the capacity, and raising the size. */
    method WriteFile(i: nat, offset: nat, bytes: seq<Byte>) returns (written: Option<nat>, ghost more: seq<nat>)
      requires Valid() && i < |table|
      modifies this, device
      ensures Valid() && |old(chains)| == |old(table)|
      ensures written.Some? == (commitReady && old(table[i].writable) && offset + |bytes| <= U64_MAX
                                && (offset + |bytes| > old(table[i].capacity) ==>
                                      CanGrow(L, old(Now()), i, offset + |bytes|)))
      ensures written.Some? ==> written.value == |bytes| && CanGrowBy(L, old(Now()), i, offset + |bytes|, more)
                                && WriteFileShape(L, old(Now()), i, offset, bytes, more)
                                && Now() == WriteFileState(L, old(Now()), i, offset, bytes, more)
      ensures written.Some? && offset + |bytes| > old(table[i].capacity) ==>
                ChosenRun(L, old(device.sectors), more, |more|)
      ensures written.None? ==> Now() == old(Now())
    {
      hide *;
      ValidIsReady();
      NowIs();
      ghost var s := Now();
      OkSizes(L, s);
      written, more := None, [];
      var e := table[i];
      if e.writable { RowFields(L, s, i); }
      if !commitReady || !e.writable || e.parent != "/" || offset + |bytes| > U64_MAX {
        return;
      }
      var end := offset + |bytes|;
      if end > e.capacity {
        GrowDecides(L, s, i, end);
        var required := ClusterCountFor(g, end);
        if required == 0 {
          return;
        }
        var extended;
        extended, more := Extend(i, required);
        if !extended {
          return;
        }
        GrowStep(L, s, i, end, more);
        NowIs();
      } else {
        GrowNone(L, s, i, end, more);
      }
      WriteAllowed(L, s, i, offset, bytes, more);
      GrownRows(L, s, i, end, more);
      NowIs();
      var ok := WriteBuffer(i, offset, bytes);
      WriteFileIs(L, s, i, offset, bytes, more);
      WriteKeepsRow(L, s, i, offset, bytes, more);
      NowIs();
      if end > table[i].size {
        ok := Refresh(i, end);
      }
      written := Some(|bytes|);
    }

    // ---------- unlinking ----------

    /** The edits that clear the bits and FAT entries of `cs`. */
    method BuildReleaseEdits(cs: seq<nat>) returns (ok: bool, edits: seq<Edit>)
      requires Ready() && Clusters(g, cs)
      ensures Fits(g, |device.sectors|) && g.sectorsPerCluster >= 1 && BitmapCovers(g, L.bc)
      ensures ok && edits == ReleaseEdits(g, L.bc, cs, |cs|)
    {
      ReadyParts();
      hide Ready, BitmapCovers, BitLba, BitEdit, FatEdit;
      edits := [];
      for i := 0 to |cs|
        invariant edits == ReleaseEdits(g, L.bc, cs, i)
      {
        var lba, off, pos;
        ok, lba, off, pos := LocateBit(cs[i]);
        if !ok || FatLba(g, cs[i]) >= g.fatOffset + g.fatLength {
          assert false by { FatInRange(g, |device.sectors|, cs[i]); }
          return;
        }
        BitEditIs(g, L.bc, cs[i], false);
        FatEditIs(g, cs[i], 0);
        edits := edits + [Edit(lba, BitPatch(off, pos, false))] + [Edit(FatLba(g, cs[i]), U32Patch(FatOff(cs[i]), 0))];
      }
      ok := true;
    }

    /** Removes a file: directory slots and clusters are released in one transaction, then the clusters are zeroed. */
    method Unlink(path: string) returns (ok: bool, ghost i: nat)
      requires Valid()
      modifies this, device
      ensures Valid() && |old(chains)| == |old(table)|
      ensures ok == (commitReady && ShortPath(path) && LookupPath(old(table), path).Some?
                     && old(table)[LookupPath(old(table), path).value].writable
                     && UnlinkFits(L, old(Now()), LookupPath(old(table), path).value))
      ensures ok ==>
                LookupPath(old(table), path) == Some(i) && UnlinkShape(L, old(Now()), i)
                && Now() == UnlinkState(L, old(Now()), i)
      ensures !ok ==> Now() == old(Now())
    {
      hide *;
      ValidIsReady();
      NowIs();
      ghost var s := Now();
      OkSizes(L, s);
      ok, i := false, 0;
      var nameOk, name := ParseShortName(path);
      ShortPathIs(path);
      if !commitReady || !nameOk {
        return;
      }
      var found := FindRootEntry(path);
      if found.None? || !table[found.value].writable {
        return;
      }
      i := found.value;
      var e := table[found.value];
      RowFields(L, s, i);
      if e.isDir || e.parent != "/" || e.dirOff + 96 > 512 {
        return;
      }
      var collected, clusters := CollectChain(found.value);
      UnlinkParts(L, s, i);
      var built, edits := BuildReleaseEdits(clusters);
      edits := [Edit(e.dirLba, DeletePatch(e.dirOff, 3))] + edits;
      UnlinkEdits(L, s, i);
      ok := RunTransaction(device, edits);
      if !ok {
        NowIs();
        ValidFrom();
        return;
      }
      UnlinkCommit(L, s, i);
      var zeroed := ZeroAll(clusters);
      table := table[found.value := BLANK];
      chains := chains[i := []];
      added := added - Elements(clusters);
      NowIs();
      ValidFrom();
    }

    // ---------- operations by path ----------

    /** Writes to the file a path names; at offset 0 a missing file is created first. */
    method Write(path: string, offset: nat, bytes: seq<Byte>) returns (written: Option<nat>)
      requires Valid()
      modifies this, device
      ensures Valid()
      ensures written.Some? == WriteAccepted(L, old(Now()), commitReady, path, offset, bytes)
      ensures written.Some? ==> written.value == |bytes|
      ensures Step(old(Files(L, Now())), WriteOp(path, offset, bytes), written.Some?, Files(L, Now()))
      ensures StaticSame(L, old(Now()), Now())
      ensures DirOk(L, old(device.sectors)) ==> DirOk(L, device.sectors)
    {
      hide *;
      ValidIsReady();
      NowIs();
      ghost var s := Now();
      written := None;
      StepRefused(Files(L, s), WriteOp(path, offset, bytes));
      StaticRefl(L, s);
      WriteAcceptedIs(L, s, commitReady, path, offset, bytes);
      var found := FindRootEntry(path);
      if found.Some? {
        ghost var more;
        written, more := WriteFile(found.value, offset, bytes);
        if written.Some? {
          ExistingWriteStep(L, s, path, offset, bytes, found.value, more);
          if DirOk(L, s.disk) { WriteFileDir(L, s, found.value, offset, bytes, more); }
        }
        NowIs();
        return;
      }
      CreateAcceptedIs(L, s, commitReady, path, |bytes|);
      var n := ClusterCountFor(g, |bytes|);
      if offset != 0 || n == 0 {
        return;
      }
      CountHolds(L, s, |bytes|);
      var created;
      ghost var made, run, slot;
      created, made, run, slot := Create(path, n);
      if made {
        CanCreateFrom(L, s, path, n, run, slot);
        LeakView(L, s, path, n, run, slot);
        if DirOk(L, s.disk) { CreateDir(L, s, path, n, run, slot); }
      }
      NowIs();
      if !created {
        return;
      }
      NewRowFound(L, s, path, n, run, slot);
      ghost var s1 := Now();
      found := FindRootEntry(path);
      ghost var more;
      written, more := WriteFile(found.value, offset, bytes);
      NewWriteStep(L, s, path, bytes, n, run, slot, more);
      if DirOk(L, s1.disk) { WriteFileDir(L, s1, found.value, offset, bytes, more); }
      NowIs();
    }

    /** Sets the size of the file a path names; a missing file is the renamed initial file or a new one. */
    method Truncate(path: string, size: nat) returns (ok: bool)
      requires Valid()
      modifies this, device
      ensures Valid()
      ensures ok == TruncateAccepted(L, old(Now()), commitReady, planDirOffset + 96 <= 512, path, size)
      ensures Step(old(Files(L, Now())), TruncateOp(path, size), ok, Files(L, Now()))
      ensures !ok && !RenamesFirst(L, old(Now()), commitReady, planDirOffset + 96 <= 512, path, size) ==>
                Files(L, Now()) == old(Files(L, Now()))
      ensures !ok && RenamesFirst(L, old(Now()), commitReady, planDirOffset + 96 <= 512, path, size) ==>
                Renamed(old(Files(L, Now())), Files(L, Now()), RenameTarget(old(table)).value, path, 0)
      ensures StaticSame(L, old(Now()), Now())
      ensures DirOk(L, old(device.sectors)) ==> DirOk(L, device.sectors)
    {
      hide *;
      ValidIsReady();
      NowIs();
      ghost var s := Now();
      ok := false;
      StepRefused(Files(L, s), TruncateOp(path, size));
      StaticRefl(L, s);
      TruncateAcceptedIs(L, s, commitReady, planDirOffset + 96 <= 512, path, size);
      CreateAcceptedIs(L, s, commitReady, path, size);
      RenamesFirstIs(L, s, commitReady, planDirOffset + 96 <= 512, path, size);
      if !commitReady {
        return;
      }
      var found := FindRootEntry(path);
      if found.Some? {
        ok := Resize(found.value, size);
        if ok { ExistingTruncateStep(L, s, path, size, found.value); }
        NowIs();
        return;
      }
      var n := ClusterCountFor(g, size);
      if n == 0 {
        return;
      }
      CountHolds(L, s, size);
      var renamed;
      ghost var i;
      renamed, i := Rename(path);
      if renamed {
        RenamedRowFound(L, s, i.value, path);
        RenameStep(L, s, i.value, path, size);
        NowIs();
        if DirOk(L, s.disk) { RelabelDir(L, s, i.value, path[1..], 0); }
        found := FindRootEntry(path);
        ok := Resize(found.value, size);
        NowIs();
        if ok { RenameTruncateStep(L, s, i.value, path, size); }
        return;
      }
      NowIs();
      var created;
      ghost var made, run, slot;
      created, made, run, slot := Create(path, n);
      if made {
        CanCreateFrom(L, s, path, n, run, slot);
        LeakView(L, s, path, n, run, slot);
        if DirOk(L, s.disk) { CreateDir(L, s, path, n, run, slot); }
      }
      NowIs();
      if !created {
        return;
      }
      NewRowFound(L, s, path, n, run, slot);
      NowIs();
      found := FindRootEntry(path);
      ok := Resize(found.value, size);
      NowIs();
      NewTruncateStep(L, s, path, size, n, run, slot);
    }

    /** The tail of a truncate: checks the row and stores the size. */
    method Resize(i: nat, size: nat) returns (ok: bool)
      requires Valid() && i < |table|
      modifies this, device
      ensures Valid()
      ensures ok == (commitReady && old(table[i].writable) && size <= old(table[i].capacity))
      ensures ok ==>
                CanRelabel(L, old(Now()), i, old(table[i].name), size) && LabelShape(old(Now()), i, old(table[i].name))
                     && Now() == RelabelState(L, old(Now()), i, old(table[i].name), size)
      ensures !ok ==> Now() == old(Now())
      ensures DirOk(L, old(device.sectors)) ==> DirOk(L, device.sectors)
    {
      hide *;
      ValidIsReady();
      NowIs();
      ghost var s := Now();
      if table[i].writable { RowFields(L, Now(), i); }
      if table[i].parent != "/" || !table[i].writable || size > table[i].capacity || table[i].isDir {
        return false;
      }
      ok := Refresh(i, size);
      if ok && DirOk(L, s.disk) { RelabelDir(L, s, i, s.table[i].name, size); }
      NowIs();
    }

    /** Runs any sequence of operations: whatever came before, every one of them succeeds exactly when it is acceptable
        and refines its abstract step. */
    method RunAll(ops: seq<Op>) returns (oks: seq<bool>, ghost states: seq<State>)
      requires Valid()
      modifies this, device
      ensures Valid() && StaticSame(L, old(Now()), Now())
      ensures DirOk(L, old(device.sectors)) ==> DirOk(L, device.sectors)
      ensures |oks| == |ops| && |states| == |ops| + 1 && states[0] == old(Now()) && states[|ops|] == Now()
      ensures forall k: nat :: k < |ops| ==>
                Refines(L, states[k], commitReady, planDirOffset + 96 <= 512, ops[k], oks[k], states[k + 1])
    {
      hide *;
      ValidIsReady();
      ghost var s, renames := Now(), planDirOffset + 96 <= 512;
      StaticRefl(L, s);
      oks, states := [], [s];
      for k := 0 to |ops|
        invariant Valid() && StaticSame(L, s, Now())
        invariant DirOk(L, old(device.sectors)) ==> DirOk(L, device.sectors)
        invariant |oks| == k && |states| == k + 1 && states[0] == s && states[k] == Now()
        invariant forall j: nat :: j < k ==> Refines(L, states[j], commitReady, renames, ops[j], oks[j], states[j + 1])
      {
        ghost var before := Now();
        ValidIsReady();
        var ok;
        match ops[k] {
          case WriteOp(path, offset, bytes) =>
            var written := Write(path, offset, bytes);
            ok := written.Some?;
          case TruncateOp(path, size) =>
            ok := Truncate(path, size);
          case UnlinkOp(path) =>
            ok := Remove(path);
        }
        ValidIsReady();
        RefinesIs(L, before, commitReady, renames, ops[k], ok, Now());
        StaticTrans(L, s, before, Now());
        oks := oks + [ok];
        states := states + [Now()];
      }
    }

    /** After any run, a fresh scan of the root directory finds every writable file: name, size and first cluster. */
    method RunThenScan(ops: seq<Op>) returns (found: seq<Parsed>)
      requires Valid() && DirOk(L, device.sectors)
      modifies this, device
      ensures Valid() && DirOk(L, device.sectors)
      ensures forall i: nat :: i < |table| && table[i].writable ==>
                Parsed(table[i].name, table[i].size, table[i].first, 0x20, 0) in found
    {
      hide *;
      ghost var states;
      var oks;
      oks, states := RunAll(ops);
      ValidIsReady();
      NowIs();
      found := ScanRoot();
      forall i: nat | i < |table| && table[i].writable
        ensures Parsed(table[i].name, table[i].size, table[i].first, 0x20, 0) in found
      {
        RowFound(L, Now(), i);
      }
    }

    /** Unlinking by path, as the abstract removal. */
    method Remove(path: string) returns (ok: bool)
      requires Valid()
      modifies this, device
      ensures Valid() && ok == UnlinkAccepted(L, old(Now()), commitReady, path)
      ensures Step(old(Files(L, Now())), UnlinkOp(path), ok, Files(L, Now()))
      ensures StaticSame(L, old(Now()), Now())
      ensures DirOk(L, old(device.sectors)) ==> DirOk(L, device.sectors)
    {
      hide *;
      ValidIsReady();
      NowIs();
      ghost var s := Now();
      StepRefused(Files(L, s), UnlinkOp(path));
      StaticRefl(L, s);
      UnlinkAcceptedIs(L, s, commitReady, path);
      ghost var i;
      ok, i := Unlink(path);
      if ok {
        FileView.UnlinkStep(L, s, path, i);
        if DirOk(L, s.disk) { UnlinkDir(L, s, i); }
      }
      NowIs();
    }

    method LooksFree(c: nat) returns (ok: bool, free: bool)
      requires Ready() && 2 <= c < g.clusterCount + 2
      ensures Fits(g, |device.sectors|) && BitmapCovers(g, L.bc)
      ensures ok && free == FreeAt(L, device.sectors, c)
    {
      hide *;
      ReadyParts();
      ClusterValidIs(g, c);
      FreeAtIs(L, device.sectors, c);
      var used, fatOk, next;
      ok, used := ReadBit(c);
      fatOk, next := ReadFatEntry(c);
      free := !used && fatOk && next == 0;
    }

    /** The lowest run of `n` consecutive free clusters, if there is one. */
    method FindFreeRun(n: nat) returns (ok: bool, clusters: seq<nat>)
      requires Ready()
      ensures Fits(g, |device.sectors|) && BitmapCovers(g, L.bc)
      ensures ok ==> 1 <= n <= MAX_CLUSTERS && |clusters| == n && clusters == Run(clusters[0], n)
      ensures ok ==> RunFree(L, device.sectors, clusters[0], n)
      ensures ok ==> forall c: nat :: c < clusters[0] ==> !RunFree(L, device.sectors, c, n)
      ensures !ok && 1 <= n <= MAX_CLUSTERS ==> forall c: nat :: !RunFree(L, device.sectors, c, n)
    {
      hide *;
      ok, clusters := false, [];
      ReadyParts();
      if n == 0 || n > MAX_CLUSTERS {
        return;
      }
      var cluster := 2;
      RunScanStart(L, device.sectors, n);
      assert clusters == Run(2, 0);
      while cluster < g.clusterCount + 2
        invariant 2 <= cluster && |clusters| <= cluster - 2 && |clusters| < n
        invariant RunScan(L, device.sectors, cluster, |clusters|, n)
        invariant clusters == Run(cluster - |clusters|, |clusters|)
      {
        var bitOk, free := LooksFree(cluster);
        if !bitOk {
          return;
        }
        RunScanStep(L, device.sectors, cluster, |clusters|, n);
        if free {
          RunGrows(cluster - |clusters|, |clusters|);
          clusters := clusters + [cluster];
          if |clusters| >= n {
            return true, clusters;
          }
        } else {
          clusters := [];
          assert clusters == Run(cluster + 1, 0);
        }
        cluster := cluster + 1;
      }
      forall c: nat ensures !RunFree(L, device.sectors, c, n) {
        RunScanEnd(L, device.sectors, cluster, |clusters|, n, c);
      }
    }
  }
}
