/** The state of the write path (disk, in-memory table, chain of each file), its invariant, and what
    every operation does to both. */
module FileSystem {
  import opened Bytes
  import opened Arithmetic
  import opened Volume
  import opened Frames
  import opened Chains
  import opened Allocation
  import opened Options
  import opened Paths
  import opened EntrySet
  import opened Transaction

  const MAX_ENTRIES: nat := 32
  const MAX_CLUSTERS: nat := 3

  /** One row of the in-memory table of files. */
  datatype Entry = Entry(
    parent: string, name: string, size: nat, capacity: nat, dirLba: nat, dirOff: nat,
    first: nat, streamFlags: Byte, isDir: bool, writable: bool)

  /** A row after its file was unlinked. */
  const BLANK: Entry := Entry("", "", 0, 0, 0, 0, 0, 0, false, false)

  /** The fixed parts of a mounted volume: the chains of the root directory and of the bitmap, and every
      cluster that belongs to them or to a file that cannot be written. */
  datatype Layout = Layout(g: Geometry, rc: seq<nat>, bc: seq<nat>, reserved: set<nat>)

  /** `chains[i]` is the cluster chain of `table[i]`; `added` holds the clusters that create and extend
      allocated and no unlink released. */
  datatype State = State(disk: Disk, table: seq<Entry>, chains: seq<seq<nat>>, added: set<nat>)

  // ---------- the invariant ----------

  ghost predicate LayoutOk(L: Layout, n: nat) {
    && Fits(L.g, n)
    && BitmapCovers(L.g, L.bc) && L.bc != [] && L.bc[0] == L.g.bitmapCluster
    && Clusters(L.g, L.bc)
    && Clusters(L.g, L.rc) && L.rc != [] && L.rc[0] == L.g.rootCluster
    && (forall x :: x in L.rc ==> x in L.reserved && x !in L.bc)
    && (forall x :: x in L.bc ==> x in L.reserved)
    && (forall x :: x in L.reserved ==> ClusterValid(L.g, x))
  }

  ghost predicate Taken(L: Layout, d: Disk, c: nat)
    requires LayoutOk(L, |d|) && ClusterValid(L.g, c)
  {
    !Free(L.g, L.bc, d, c)
  }

  /** Root directory and bitmap are intact, and no reserved cluster looks free. */
  ghost predicate BaseOk(L: Layout, d: Disk) {
    && LayoutOk(L, |d|)
    && Linked(L.g, d, L.bc)
    && Linked(L.g, d, L.rc) && Ends(L.g, d, L.rc)
    && (forall x :: x in L.reserved ==> Taken(L, d, x))
  }

  /** A sector of the root directory. */
  ghost predicate InRoot(L: Layout, n: nat, lba: nat)
    requires LayoutOk(L, n)
  {
    exists i :: 0 <= i < |L.rc| && ClusterLba(L.g, L.rc[i]) <= lba < ClusterLba(L.g, L.rc[i]) + L.g.sectorsPerCluster
  }

  /** What is true of a writable file whatever the disk holds. */
  ghost predicate FileShape(L: Layout, n: nat, e: Entry, ch: seq<nat>)
    requires LayoutOk(L, n)
  {
    && e.writable && !e.isDir && e.parent == "/" && e.streamFlags == 0 && ShortName(e.name)
    && 1 <= |ch| <= MAX_CLUSTERS && Clusters(L.g, ch) && Misses(ch, L.reserved)
    && e.first == ch[0]
    && e.capacity == Capacity(L.g, |ch|) && e.size <= e.capacity
    && InRoot(L, n, e.dirLba) && e.dirOff % 32 == 0 && e.dirOff + 96 <= 512
  }

  /** The directory holds exactly the set that encodes this row. */
  ghost predicate DirSet(d: Disk, e: Entry) {
    && e.dirLba < |d| && e.dirOff + 96 <= 512 && |e.name| <= 15
    && d[e.dirLba][e.dirOff..e.dirOff + 96] == EncodedSet(e.name, e.first, e.size)
  }

  ghost predicate FileOk(L: Layout, d: Disk, e: Entry, ch: seq<nat>)
    requires LayoutOk(L, |d|)
  {
    FileShape(L, |d|, e, ch) && Linked(L.g, d, ch) && Ends(L.g, d, ch) && DirSet(d, e)
  }

  /** A row that cannot be written keeps to reserved clusters outside the root directory and the bitmap. */
  ghost predicate StaticOk(L: Layout, d: Disk, e: Entry, ch: seq<nat>)
    requires LayoutOk(L, |d|)
  {
    && Clusters(L.g, ch)
    && (forall x :: x in ch ==> x in L.reserved && x !in L.rc && x !in L.bc)
    && (ch != [] ==> e.first == ch[0] && e.size <= Capacity(L.g, |ch|))
    && (e.streamFlags & 2 == 0 ==> Linked(L.g, d, ch))
    && (e.streamFlags & 2 != 0 ==> forall i :: 0 <= i < |ch| - 1 ==> ch[i + 1] == ch[i] + 1)
  }

  ghost predicate RowOk(L: Layout, d: Disk, e: Entry, ch: seq<nat>)
    requires LayoutOk(L, |d|)
  {
    if e.writable then FileOk(L, d, e, ch) else StaticOk(L, d, e, ch)
  }

  predicate SlotsApart(a: Entry, b: Entry) {
    a.dirLba != b.dirLba || a.dirOff + 96 <= b.dirOff || b.dirOff + 96 <= a.dirOff
  }

  /** Two writable files share no cluster and no directory slot; no two rows share a path with a writable one. */
  ghost predicate Separate(a: Entry, cha: seq<nat>, b: Entry, chb: seq<nat>) {
    && (a.writable && b.writable ==> (forall x :: x in cha ==> x !in chb) && SlotsApart(a, b))
    && (a.writable || b.writable ==> a.parent != b.parent || a.name != b.name)
  }

  ghost predicate TableOk(L: Layout, s: State)
    requires LayoutOk(L, |s.disk|)
  {
    && |s.table| == |s.chains| <= MAX_ENTRIES
    && (forall i :: 0 <= i < |s.table| ==> RowOk(L, s.disk, s.table[i], s.chains[i]))
    && (forall i, j :: 0 <= i < j < |s.table| ==> Separate(s.table[i], s.chains[i], s.table[j], s.chains[j]))
  }

  ghost predicate AddedOk(L: Layout, d: Disk, added: set<nat>)
    requires LayoutOk(L, |d|)
  {
    forall c :: c in added ==> ClusterValid(L.g, c) && BitAt(L.g, L.bc, d, c) && FatAt(L.g, d, c) != 0
  }

  ghost predicate Ok(L: Layout, s: State) {
    BaseOk(L, s.disk) && TableOk(L, s) && AddedOk(L, s.disk, s.added)
  }

  /** The bytes a reader of row `i` sees. */
  ghost function FileBytes(L: Layout, s: State, i: nat): (bs: seq<Byte>)
    requires Ok(L, s) && i < |s.table| && s.chains[i] != []
    ensures |bs| == s.table[i].size
  {
    RowBounds(L, s.disk, s.table[i], s.chains[i]);
    Contents(L.g, s.disk, s.chains[i], s.table[i].size)
  }

  lemma RowBounds(L: Layout, d: Disk, e: Entry, ch: seq<nat>)
    requires LayoutOk(L, |d|) && RowOk(L, d, e, ch) && ch != []
    ensures Clusters(L.g, ch) && e.size <= Capacity(L.g, |ch|)
  {
  }

  // ---------- rows not involved in a change ----------

  lemma MissesReserved(L: Layout, n: nat, ch: seq<nat>, fats: set<nat>)
    requires LayoutOk(L, n) && fats !! L.reserved
    requires forall x :: x in ch ==> x in L.reserved
    ensures Misses(ch, fats)
  {
  }

  /** Changes that spare the reserved clusters keep the root directory and the bitmap intact. */
  lemma BaseFrame(L: Layout, d: Disk, d': Disk, fats: set<nat>, bits: set<nat>, data: set<nat>)
    requires BaseOk(L, d) && Changes(L.g, L.bc, d, d', fats, bits, data)
    requires fats !! L.reserved && bits !! L.reserved
    ensures BaseOk(L, d')
  {
    hide Fits, FatAt, BitAt, BitmapCovers, DataSame, Linked, Ends;
    MissesReserved(L, |d|, L.bc, fats);
    MissesReserved(L, |d|, L.rc, fats);
    LinkedFrame(L.g, d, d', L.bc, fats);
    LinkedFrame(L.g, d, d', L.rc, fats);
  }

  lemma FileFrame(L: Layout, d: Disk, d': Disk, e: Entry, ch: seq<nat>, fats: set<nat>)
    requires LayoutOk(L, |d|) && FileOk(L, d, e, ch) && FatSame(L.g, d, d', fats) && Misses(ch, fats)
    requires DirSet(d', e)
    ensures FileOk(L, d', e, ch)
  {
    hide LayoutOk, DirSet, Linked, Ends, FatSame;
    assert |d'| == |d| by { FatSameLength(L.g, d, d', fats); }
    LinkedFrame(L.g, d, d', ch, fats);
  }

  lemma FatSameLength(g: Geometry, d: Disk, d': Disk, fats: set<nat>)
    requires FatSame(g, d, d', fats)
    ensures |d'| == |d|
  {
  }

  lemma StaticFrame(L: Layout, d: Disk, d': Disk, e: Entry, ch: seq<nat>, fats: set<nat>)
    requires LayoutOk(L, |d|) && StaticOk(L, d, e, ch) && FatSame(L.g, d, d', fats) && fats !! L.reserved
    ensures |d'| == |d| && StaticOk(L, d', e, ch)
  {
    FatSameLength(L.g, d, d', fats);
    MissesReserved(L, |d|, ch, fats);
    hide LayoutOk, Linked, FatSame;
    LinkedFrame(L.g, d, d', ch, fats);
  }

  /** A change that spares the root directory's sectors keeps every set in it. */
  lemma DirFrame(L: Layout, d: Disk, d': Disk, e: Entry, data: set<nat>)
    requires LayoutOk(L, |d|) && DirSet(d, e) && InRoot(L, |d|, e.dirLba)
    requires DataSame(L.g, d, d', data) && data !! Elements(L.rc)
    ensures DirSet(d', e)
  {
    hide EncodedSet, DataSame, ClusterLba, Fits, BitmapCovers;
    var i :| 0 <= i < |L.rc| && ClusterLba(L.g, L.rc[i]) <= e.dirLba < ClusterLba(L.g, L.rc[i]) + L.g.sectorsPerCluster;
    assert L.rc[i] in Elements(L.rc);
    SectorFrame(L.g, d, d', data, L.rc[i], e.dirLba);
  }

  lemma SectorFrame(g: Geometry, d: Disk, d': Disk, data: set<nat>, c: nat, lba: nat)
    requires DataSame(g, d, d', data) && ClusterValid(g, c) && c !in data
    requires ClusterLba(g, c) <= lba < ClusterLba(g, c) + g.sectorsPerCluster
    ensures lba < |d| == |d'| && d'[lba] == d[lba]
  {
    ClusterInHeap(g, |d|, c);
    assert SameCluster(g, d, d', c);
  }

  /** A row whose chain is spared, under a change that spares the reserved FAT entries and the root directory. */
  lemma RowFrame(L: Layout, d: Disk, d': Disk, e: Entry, ch: seq<nat>, fats: set<nat>, bits: set<nat>, data: set<nat>)
    requires LayoutOk(L, |d|) && RowOk(L, d, e, ch) && Changes(L.g, L.bc, d, d', fats, bits, data)
    requires fats !! L.reserved && data !! Elements(L.rc) && (e.writable ==> Misses(ch, fats))
    ensures |d'| == |d| && RowOk(L, d', e, ch)
  {
    FatSameLength(L.g, d, d', fats);
    if e.writable {
      assert DirSet(d, e) && InRoot(L, |d|, e.dirLba);
      assert FatSame(L.g, d, d', fats) && DataSame(L.g, d, d', data);
      hide *;
      DirFrame(L, d, d', e, data);
      RowIsFile(L, d, e, ch);
      FileFrame(L, d, d', e, ch, fats);
      RowIsFile(L, d', e, ch);
    } else {
      hide LayoutOk, StaticOk, FatSame, BitsSame, DataSame;
      StaticFrame(L, d, d', e, ch, fats);
    }
  }

  lemma RowIsFile(L: Layout, d: Disk, e: Entry, ch: seq<nat>)
    requires LayoutOk(L, |d|) && e.writable
    ensures RowOk(L, d, e, ch) == FileOk(L, d, e, ch)
  {
  }

  lemma SeparateSym(a: Entry, cha: seq<nat>, b: Entry, chb: seq<nat>)
    requires Separate(a, cha, b, chb)
    ensures Separate(b, chb, a, cha)
  {
  }

  /** Replacing one row of the table. */
  lemma TableReplace(L: Layout, s: State, s': State, i: nat)
    requires LayoutOk(L, |s.disk|) && TableOk(L, s) && |s'.disk| == |s.disk| && i < |s.table|
    requires |s'.table| == |s'.chains| == |s.table|
    requires forall j :: 0 <= j < |s.table| && j != i ==> s'.table[j] == s.table[j] && s'.chains[j] == s.chains[j]
    requires forall j :: 0 <= j < |s.table| ==> RowOk(L, s'.disk, s'.table[j], s'.chains[j])
    requires forall j :: 0 <= j < |s.table| && j != i ==> Separate(s.table[j], s.chains[j], s'.table[i], s'.chains[i])
    ensures TableOk(L, s')
  {
    hide LayoutOk, RowOk, Separate;
    forall j, k | 0 <= j < k < |s'.table| ensures Separate(s'.table[j], s'.chains[j], s'.table[k], s'.chains[k]) {
      if j == i { SeparateSym(s.table[k], s.chains[k], s'.table[i], s'.chains[i]); }
    }
  }

  // ---------- writing bytes into a file ----------

  /** Overwrites the bytes from `pos` on, one sector at a time. */
  ghost function WriteBytes(g: Geometry, d: Disk, ch: seq<nat>, pos: nat, bytes: seq<Byte>): (d': Disk)
    requires Fits(g, |d|) && Clusters(g, ch) && pos + |bytes| <= Capacity(g, |ch|)
    ensures |d'| == |d|
    decreases |bytes|
  {
    if bytes == [] then d
    else
      var n := ChunkLength(pos, |bytes|);
      WriteBytes(g, WriteChunk(g, d, ch, pos, bytes[..n]), ch, pos + n, bytes[n..])
  }

  /** What is left of the sector at `pos`, at most `len`. */
  function ChunkLength(pos: nat, len: nat): (n: nat)
    requires len > 0
    ensures 1 <= n <= len && pos % 512 + n <= 512
  {
    if len < 512 - pos % 512 then len else 512 - pos % 512
  }

  ghost function WriteChunk(g: Geometry, d: Disk, ch: seq<nat>, pos: nat, chunk: seq<Byte>): (d': Disk)
    requires Fits(g, |d|) && Clusters(g, ch) && pos < Capacity(g, |ch|) && pos % 512 + |chunk| <= 512
    ensures |d'| == |d|
  {
    InChainBySize(g, ch, pos);
    FileLbaBounds(g, |d|, ch, pos);
    var l := FileLba(g, ch, pos);
    d[l := Splice(d[l], pos % 512, chunk)]
  }

  lemma WriteChunkReads(g: Geometry, d: Disk, ch: seq<nat>, pos: nat, chunk: seq<Byte>, p: nat)
    requires Fits(g, |d|) && Clusters(g, ch) && pos < Capacity(g, |ch|) && pos % 512 + |chunk| <= 512
    requires InChain(g, ch, p)
    ensures FileByte(g, WriteChunk(g, d, ch, pos, chunk), ch, p)
         == if pos <= p < pos + |chunk| then chunk[p - pos] else FileByte(g, d, ch, p)
  {
    InChainBySize(g, ch, pos);
    hide FileLba, Clusters, Fits, InChain, ClusterSize;
    FileLbaBounds(g, |d|, ch, pos);
    FileLbaBounds(g, |d|, ch, p);
    if FileLba(g, ch, p) == FileLba(g, ch, pos) {
      FileLbaInjective(g, ch, p, pos);
    } else {
      assert p / 512 != pos / 512 by { if p / 512 == pos / 512 { SameSectorSameLba(g, ch, p, pos); } }
    }
  }

  lemma SameSectorSameLba(g: Geometry, ch: seq<nat>, p: nat, q: nat)
    requires Clusters(g, ch) && InChain(g, ch, p) && InChain(g, ch, q) && p / 512 == q / 512
    ensures FileLba(g, ch, p) == FileLba(g, ch, q)
  {
  }

  lemma WriteChunkChanges(g: Geometry, bc: seq<nat>, d: Disk, ch: seq<nat>, pos: nat, chunk: seq<Byte>)
    requires Fits(g, |d|) && BitmapCovers(g, bc) && Clusters(g, ch) && Misses(ch, Elements(bc))
    requires pos < Capacity(g, |ch|) && pos % 512 + |chunk| <= 512
    ensures Changes(g, bc, d, WriteChunk(g, d, ch, pos, chunk), {}, {}, Elements(ch))
  {
    hide *;
    var c, k, t := WriteChunkSector(g, d, ch, pos, chunk);
    assert c !in bc by { MissesAt(ch, Elements(bc), c); }
    HeapWriteChanges(g, bc, d, c, k, t);
    ChangesWiden(g, bc, d, d[ClusterLba(g, c) + k := t], {}, {}, {c}, {}, {}, Elements(ch));
  }

  lemma MissesAt(ch: seq<nat>, s: set<nat>, c: nat)
    requires Misses(ch, s) && c in ch
    ensures c !in s
  {
  }

  lemma WriteChunkSector(g: Geometry, d: Disk, ch: seq<nat>, pos: nat, chunk: seq<Byte>)
    returns (c: nat, k: nat, t: Sector)
    requires Fits(g, |d|) && Clusters(g, ch) && pos < Capacity(g, |ch|) && pos % 512 + |chunk| <= 512
    ensures ClusterValid(g, c) && c in ch && k < g.sectorsPerCluster
    ensures ClusterLba(g, c) + k < |d| && WriteChunk(g, d, ch, pos, chunk) == d[ClusterLba(g, c) + k := t]
  {
    InChainBySize(g, ch, pos);
    PositionBounds(g, ch, pos);
    FileLbaBounds(g, |d|, ch, pos);
    hide ClusterLba;
    c := FileCluster(g, ch, pos);
    k := pos / 512 % g.sectorsPerCluster;
    t := Splice(d[FileLba(g, ch, pos)], pos % 512, chunk);
  }

  /** After the write the file holds the new bytes there and the old bytes everywhere else. */
  lemma {:induction false} WriteBytesReads(g: Geometry, d: Disk, ch: seq<nat>, pos: nat, bytes: seq<Byte>, p: nat)
    requires Fits(g, |d|) && Clusters(g, ch) && pos + |bytes| <= Capacity(g, |ch|) && InChain(g, ch, p)
    ensures FileByte(g, WriteBytes(g, d, ch, pos, bytes), ch, p)
         == if pos <= p < pos + |bytes| then bytes[p - pos] else FileByte(g, d, ch, p)
    decreases |bytes|
  {
    hide Clusters, Fits, InChain, ClusterSize, WriteChunk, FileByte;
    if bytes != [] {
      var n := ChunkLength(pos, |bytes|);
      WriteChunkReads(g, d, ch, pos, bytes[..n], p);
      WriteBytesReads(g, WriteChunk(g, d, ch, pos, bytes[..n]), ch, pos + n, bytes[n..], p);
    }
  }

  lemma {:induction false} WriteBytesChanges(g: Geometry, bc: seq<nat>, d: Disk, ch: seq<nat>, pos: nat,
                                             bytes: seq<Byte>)
    requires Fits(g, |d|) && BitmapCovers(g, bc) && Clusters(g, ch) && Misses(ch, Elements(bc))
    requires pos + |bytes| <= Capacity(g, |ch|)
    ensures Changes(g, bc, d, WriteBytes(g, d, ch, pos, bytes), {}, {}, Elements(ch))
    decreases |bytes|
  {
    hide Clusters, Fits, ClusterSize, WriteChunk, Changes, BitmapCovers, Misses;
    if bytes == [] {
      ChangesRefl(g, bc, d);
      ChangesWiden(g, bc, d, d, {}, {}, {}, {}, {}, Elements(ch));
    } else {
      var n := ChunkLength(pos, |bytes|);
      var e := WriteChunk(g, d, ch, pos, bytes[..n]);
      WriteChunkChanges(g, bc, d, ch, pos, bytes[..n]);
      WriteBytesChanges(g, bc, e, ch, pos + n, bytes[n..]);
      ChangesTrans(g, bc, d, e, WriteBytes(g, d, ch, pos, bytes), {}, {}, Elements(ch), {}, {}, Elements(ch));
      Units({});
      Units(Elements(ch));
    }
  }
}
