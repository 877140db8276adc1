/** Every operation of the write path on the specification state, and the proof that each keeps the
    invariant, does to its own file what it should and leaves all other files as they were. */
module FileOps {
  import opened Bytes
  import opened Arithmetic
  import opened Volume
  import opened Frames
  import opened Chains
  import opened Allocation
  import opened Options
  import opened Paths
  import opened EntrySet
  import opened Transaction
  import opened FileSystem

  // ---------- files in a well-formed state ----------

  lemma OkParts(L: Layout, s: State)
    requires Ok(L, s)
    ensures BaseOk(L, s.disk) && LayoutOk(L, |s.disk|) && TableOk(L, s) && AddedOk(L, s.disk, s.added)
    ensures Fits(L.g, |s.disk|) && BitmapCovers(L.g, L.bc) && |s.table| == |s.chains|
  {
    hide Linked, Ends, Taken, RowOk, Separate, Fits, BitmapCovers, FatAt, BitAt;
  }

  lemma OkRow(L: Layout, s: State, j: nat)
    requires Ok(L, s) && j < |s.table|
    ensures LayoutOk(L, |s.disk|) && |s.table| == |s.chains| && RowOk(L, s.disk, s.table[j], s.chains[j])
  {
    hide Linked, Ends, Taken, RowOk, Separate, Fits, BitmapCovers, FatAt, BitAt;
  }

  lemma OkWritable(L: Layout, s: State, i: nat)
    requires Ok(L, s) && i < |s.table| && s.table[i].writable
    ensures LayoutOk(L, |s.disk|) && |s.table| == |s.chains|
    ensures FileOk(L, s.disk, s.table[i], s.chains[i]) && FileShape(L, |s.disk|, s.table[i], s.chains[i])
    ensures s.chains[i] != [] && Clusters(L.g, s.chains[i]) && Misses(s.chains[i], L.reserved)
  {
    OkRow(L, s, i);
    hide LayoutOk, Linked, Ends, DirSet, Clusters, Misses;
  }

  lemma OkSeparate(L: Layout, s: State, i: nat, j: nat)
    requires Ok(L, s) && i < |s.table| && j < |s.table| && i != j
    ensures |s.table| == |s.chains| && Separate(s.table[j], s.chains[j], s.table[i], s.chains[i])
  {
    hide Linked, Ends, Taken, RowOk, Separate, Fits, BitmapCovers, FatAt, BitAt;
    if i < j { SeparateSym(s.table[i], s.chains[i], s.table[j], s.chains[j]); }
  }

  /** The chain of a writable file lies outside the reserved clusters, hence outside root and bitmap. */
  lemma ChainOutside(L: Layout, s: State, i: nat)
    requires Ok(L, s) && i < |s.table| && s.table[i].writable
    ensures |s.table| == |s.chains| && Elements(s.chains[i]) !! L.reserved
    ensures Elements(s.chains[i]) !! Elements(L.rc) && Elements(s.chains[i]) !! Elements(L.bc)
    ensures Misses(s.chains[i], Elements(L.bc))
  {
    OkWritable(L, s, i);
    OkParts(L, s);
    hide Ok, BaseOk, TableOk, AddedOk, FileOk, Fits, BitmapCovers, Clusters;
  }

  /** No cluster of a writable file belongs to any other row. */
  lemma OthersMiss(L: Layout, s: State, i: nat, j: nat)
    requires Ok(L, s) && i < |s.table| && j < |s.table| && i != j && s.table[i].writable
    ensures |s.table| == |s.chains| && Misses(s.chains[j], Elements(s.chains[i]))
  {
    OkSeparate(L, s, i, j);
    OkRow(L, s, j);
    ChainOutside(L, s, i);
    hide Ok, LayoutOk, Linked, Ends, DirSet, FileShape, Clusters;
  }

  lemma AddedFrame(L: Layout, d: Disk, d': Disk, added: set<nat>, fats: set<nat>, bits: set<nat>, data: set<nat>)
    requires LayoutOk(L, |d|) && AddedOk(L, d, added) && Changes(L.g, L.bc, d, d', fats, bits, data)
    requires added !! fats && added !! bits
    ensures |d'| == |d| && AddedOk(L, d', added)
  {
    hide Fits, BitmapCovers, FatAt, BitAt;
    FatSameLength(L.g, d, d', fats);
  }

  /** A change confined to the sectors of clusters outside the root directory keeps the invariant. */
  lemma DataOnlyOk(L: Layout, s: State, d': Disk, data: set<nat>)
    requires Ok(L, s) && Changes(L.g, L.bc, s.disk, d', {}, {}, data) && data !! Elements(L.rc)
    ensures Ok(L, s.(disk := d'))
  {
    OkParts(L, s);
    hide *;
    FatSameLengthOf(L, s.disk, d', {}, {}, data);
    BaseFrame(L, s.disk, d', {}, {}, data);
    AddedFrame(L, s.disk, d', s.added, {}, {}, data);
    forall j: nat | j < |s.table| ensures RowOk(L, d', s.table[j], s.chains[j]) {
      OkRow(L, s, j);
      MissesNone(s.chains[j]);
      RowFrame(L, s.disk, d', s.table[j], s.chains[j], {}, {}, data);
    }
    TableSame(L, s, d');
    OkIs(L, s.(disk := d'));
  }

  lemma FatSameLengthOf(L: Layout, d: Disk, d': Disk, fats: set<nat>, bits: set<nat>, data: set<nat>)
    requires Changes(L.g, L.bc, d, d', fats, bits, data)
    ensures |d'| == |d|
  {
  }

  lemma MissesNone(ch: seq<nat>)
    ensures Misses(ch, {})
  {
  }

  lemma TableSame(L: Layout, s: State, d': Disk)
    requires LayoutOk(L, |s.disk|) && |d'| == |s.disk| && TableOk(L, s)
    requires forall j: nat :: j < |s.table| ==> RowOk(L, d', s.table[j], s.chains[j])
    ensures TableOk(L, s.(disk := d'))
  {
    hide LayoutOk, RowOk, Separate;
  }

  lemma OkIs(L: Layout, s: State)
    requires BaseOk(L, s.disk) && LayoutOk(L, |s.disk|) && TableOk(L, s) && AddedOk(L, s.disk, s.added)
    ensures Ok(L, s)
  {
  }

  lemma BytesFrame(L: Layout, s: State, s': State, j: nat, data: set<nat>)
    requires Ok(L, s) && Ok(L, s') && DataSame(L.g, s.disk, s'.disk, data)
    requires j < |s.table| == |s.chains| && j < |s'.table| == |s'.chains|
    requires s'.chains[j] == s.chains[j] != [] && s'.table[j].size == s.table[j].size && Misses(s.chains[j], data)
    ensures FileBytes(L, s', j) == FileBytes(L, s, j)
  {
    OkRow(L, s, j);
    OkRow(L, s', j);
    RowBounds(L, s.disk, s.table[j], s.chains[j]);
    RowBounds(L, s'.disk, s'.table[j], s'.chains[j]);
    hide Ok, LayoutOk, RowOk, DataSame, Clusters, Contents;
    ContentsFrame(L.g, s.disk, s'.disk, s.chains[j], data, s.table[j].size);
  }

  // ---------- write ----------

  ghost predicate CanWrite(L: Layout, s: State, i: nat, pos: nat, bytes: seq<Byte>) {
    Ok(L, s) && i < |s.table| == |s.chains| && s.table[i].writable && pos + |bytes| <= s.table[i].capacity
  }

  lemma WriteFits(L: Layout, s: State, i: nat, pos: nat, bytes: seq<Byte>)
    requires CanWrite(L, s, i, pos, bytes)
    ensures WriteShape(L, s, i, pos, bytes)
    ensures Fits(L.g, |s.disk|) && BitmapCovers(L.g, L.bc) && Clusters(L.g, s.chains[i]) && s.chains[i] != []
    ensures pos + |bytes| <= Capacity(L.g, |s.chains[i]|) == s.table[i].capacity
  {
    OkParts(L, s);
    OkWritable(L, s, i);
    hide Ok, BaseOk, LayoutOk, TableOk, AddedOk, FileOk, Fits, BitmapCovers, Clusters;
  }

  /** What the written bytes depend on; follows from CanWrite. */
  ghost predicate WriteShape(L: Layout, s: State, i: nat, pos: nat, bytes: seq<Byte>) {
    i < |s.chains| && Fits(L.g, |s.disk|) && Clusters(L.g, s.chains[i]) && pos + |bytes| <= Capacity(L.g, |s.chains[i]|)
  }

  ghost function WriteState(L: Layout, s: State, i: nat, pos: nat, bytes: seq<Byte>): State
    requires WriteShape(L, s, i, pos, bytes)
  {
    s.(disk := WriteBytes(L.g, s.disk, s.chains[i], pos, bytes))
  }

  lemma WriteStateOk(L: Layout, s: State, i: nat, pos: nat, bytes: seq<Byte>)
    requires CanWrite(L, s, i, pos, bytes)
    ensures WriteShape(L, s, i, pos, bytes) && Ok(L, WriteState(L, s, i, pos, bytes))
  {
    hide *;
    WriteFits(L, s, i, pos, bytes);
    CanWriteIs(L, s, i, pos, bytes);
    ChainOutside(L, s, i);
    var d' := WriteBytes(L.g, s.disk, s.chains[i], pos, bytes);
    WriteBytesChanges(L.g, L.bc, s.disk, s.chains[i], pos, bytes);
    DataOnlyOk(L, s, d', Elements(s.chains[i]));
    WriteStateIs(L, s, i, pos, bytes);
  }

  lemma CanWriteIs(L: Layout, s: State, i: nat, pos: nat, bytes: seq<Byte>)
    requires CanWrite(L, s, i, pos, bytes)
    ensures Ok(L, s) && i < |s.table| == |s.chains| && s.table[i].writable && pos + |bytes| <= s.table[i].capacity
  {
  }

  lemma WriteStateIs(L: Layout, s: State, i: nat, pos: nat, bytes: seq<Byte>)
    requires WriteShape(L, s, i, pos, bytes)
    ensures i < |s.chains| && Fits(L.g, |s.disk|) && Clusters(L.g, s.chains[i])
    ensures pos + |bytes| <= Capacity(L.g, |s.chains[i]|)
    ensures WriteState(L, s, i, pos, bytes) == s.(disk := WriteBytes(L.g, s.disk, s.chains[i], pos, bytes))
  {
    hide Fits, Clusters, Capacity;
  }

  /** A write changes the bytes of its own range, and no byte of any other file. */
  lemma WriteStateBytes(L: Layout, s: State, i: nat, pos: nat, bytes: seq<Byte>, j: nat)
    requires CanWrite(L, s, i, pos, bytes) && j < |s.table| && s.chains[j] != []
    ensures WriteShape(L, s, i, pos, bytes) && Ok(L, WriteState(L, s, i, pos, bytes))
    ensures j != i ==> FileBytes(L, WriteState(L, s, i, pos, bytes), j) == FileBytes(L, s, j)
    ensures j == i ==> forall p: nat :: p < s.table[i].size ==>
              FileBytes(L, WriteState(L, s, i, pos, bytes), i)[p]
              == if pos <= p < pos + |bytes| then bytes[p - pos] else FileBytes(L, s, i)[p]
  {
    hide *;
    WriteStateOk(L, s, i, pos, bytes);
    WriteFits(L, s, i, pos, bytes);
    CanWriteIs(L, s, i, pos, bytes);
    WriteStateIs(L, s, i, pos, bytes);
    var s' := WriteState(L, s, i, pos, bytes);
    WriteBytesChanges'(L, s, i, pos, bytes);
    if j != i {
      OthersMiss(L, s, i, j);
      BytesFrame(L, s, s', j, Elements(s.chains[i]));
    } else {
      forall p: nat | p < s.table[i].size
        ensures FileBytes(L, s', i)[p] == if pos <= p < pos + |bytes| then bytes[p - pos] else FileBytes(L, s, i)[p]
      {
        FileBytesAt(L, s, i, p);
        FileBytesAt(L, s', i, p);
        WriteBytesReads(L.g, s.disk, s.chains[i], pos, bytes, p);
      }
    }
  }

  lemma WriteBytesChanges'(L: Layout, s: State, i: nat, pos: nat, bytes: seq<Byte>)
    requires CanWrite(L, s, i, pos, bytes) && WriteShape(L, s, i, pos, bytes)
    ensures DataSame(L.g, s.disk, WriteState(L, s, i, pos, bytes).disk, Elements(s.chains[i]))
  {
    WriteFits(L, s, i, pos, bytes);
    ChainOutside(L, s, i);
    WriteBytesChanges(L.g, L.bc, s.disk, s.chains[i], pos, bytes);
    hide CanWrite, FatSame, BitsSame, DataSame, Fits, WriteBytes, Clusters;
  }

  lemma FileBytesAt(L: Layout, s: State, i: nat, p: nat)
    requires Ok(L, s) && i < |s.table| == |s.chains| && s.chains[i] != [] && p < s.table[i].size
    ensures Fits(L.g, |s.disk|) && Clusters(L.g, s.chains[i]) && InChain(L.g, s.chains[i], p)
    ensures FileBytes(L, s, i)[p] == FileByte(L.g, s.disk, s.chains[i], p)
  {
    OkParts(L, s);
    OkRow(L, s, i);
    RowBounds(L, s.disk, s.table[i], s.chains[i]);
    hide Ok, BaseOk, LayoutOk, TableOk, AddedOk, RowOk, Fits, BitmapCovers, Clusters, Contents, FileByte;
    ContentsAt(L.g, s.disk, s.chains[i], s.table[i].size, p);
  }

  // ---------- patching the directory ----------

  function PatchSector(d: Disk, lba: nat, off: nat, bs: seq<Byte>): (d': Disk)
    requires lba < |d| && off + |bs| <= 512
    ensures |d'| == |d|
  {
    d[lba := Splice(d[lba], off, bs)]
  }

  lemma RootSector(L: Layout, n: nat, lba: nat) returns (c: nat, k: nat)
    requires LayoutOk(L, n) && InRoot(L, n, lba)
    ensures lba < n && c in L.rc && c !in L.bc && c in L.reserved && ClusterValid(L.g, c)
    ensures k < L.g.sectorsPerCluster && lba == ClusterLba(L.g, c) + k
  {
    var i :| 0 <= i < |L.rc| && ClusterLba(L.g, L.rc[i]) <= lba < ClusterLba(L.g, L.rc[i]) + L.g.sectorsPerCluster;
    hide BitmapCovers, ClusterLba, InRoot, Fits;
    c, k := L.rc[i], lba - ClusterLba(L.g, L.rc[i]);
    ClusterInHeap(L.g, n, c);
  }

  lemma LayoutParts(L: Layout, n: nat)
    requires LayoutOk(L, n)
    ensures Fits(L.g, n) && BitmapCovers(L.g, L.bc) && Clusters(L.g, L.rc) && Clusters(L.g, L.bc)
  {
    hide Fits, BitmapCovers, Clusters;
  }

  /** Rewriting a root directory sector touches no FAT entry, no bit and no cluster outside the root. */
  lemma RootWriteChanges(L: Layout, d: Disk, lba: nat, t: Sector)
    requires LayoutOk(L, |d|) && InRoot(L, |d|, lba)
    ensures lba < |d| && Changes(L.g, L.bc, d, d[lba := t], {}, {}, Elements(L.rc))
  {
    hide *;
    LayoutParts(L, |d|);
    var c, k := RootSector(L, |d|, lba);
    HeapWriteChanges(L.g, L.bc, d, c, k, t);
    ChangesWiden(L.g, L.bc, d, d[lba := t], {}, {}, {c}, {}, {}, Elements(L.rc));
  }

  /** A row keeps its set when a directory sector is rewritten without touching its slots. */
  lemma RootWriteRow(L: Layout, d: Disk, lba: nat, t: Sector, e: Entry, ch: seq<nat>)
    requires LayoutOk(L, |d|) && RowOk(L, d, e, ch) && InRoot(L, |d|, lba) && lba < |d|
    requires e.writable && e.dirLba == lba ==>
               e.dirOff + 96 <= 512 && t[e.dirOff..e.dirOff + 96] == d[lba][e.dirOff..e.dirOff + 96]
    ensures RowOk(L, d[lba := t], e, ch)
  {
    RootWriteChanges(L, d, lba, t);
    var d' := d[lba := t];
    MissesNone(ch);
    assert FatSame(L.g, d, d', {}) by { hide FatSame, BitsSame, DataSame; }
    if e.writable {
      hide LayoutOk, FileShape, Linked, Ends, FatSame, EncodedSet, InRoot, Changes;
      FileFrame(L, d, d', e, ch, {});
    } else {
      hide LayoutOk, StaticOk, FatSame, InRoot, Changes;
      StaticFrame(L, d, d', e, ch, {});
    }
  }

  ghost predicate CanRelabel(L: Layout, s: State, i: nat, name: string, size: nat) {
    && Ok(L, s) && i < |s.table| == |s.chains| && s.table[i].writable
    && ShortName(name) && size <= s.table[i].capacity
    && (forall j :: 0 <= j < |s.table| && j != i ==> s.table[j].parent != "/" || s.table[j].name != name)
  }

  lemma RelabelFits(L: Layout, s: State, i: nat, name: string, size: nat)
    requires CanRelabel(L, s, i, name, size)
    ensures LabelShape(s, i, name)
    ensures |name| <= 15 && s.table[i].dirLba < |s.disk| && s.table[i].dirOff + 96 <= 512
    ensures LayoutOk(L, |s.disk|) && InRoot(L, |s.disk|, s.table[i].dirLba)
  {
    ShortNameShape(name);
    OkWritable(L, s, i);
    hide Ok, LayoutOk, Linked, Ends, EncodedSet, Clusters, Misses, InRoot, ShortName;
  }

  /** What the relabelled set depends on; follows from CanRelabel. */
  ghost predicate LabelShape(s: State, i: nat, name: string) {
    i < |s.table| && |name| <= 15 && s.table[i].dirLba < |s.disk| && s.table[i].dirOff + 96 <= 512
  }

  /** A new name and size for row `i`, in memory and in its directory set. Rename keeps the size, size refresh
      and truncation keep the name. */
  ghost function RelabelState(L: Layout, s: State, i: nat, name: string, size: nat): State
    requires LabelShape(s, i, name)
  {
    var e := s.table[i];
    s.(disk := PatchSector(s.disk, e.dirLba, e.dirOff, EncodedSet(name, e.first, size)),
       table := s.table[i := e.(name := name, size := size)])
  }

  lemma RelabelRow(L: Layout, s: State, i: nat, name: string, size: nat, j: nat)
    requires CanRelabel(L, s, i, name, size) && LabelShape(s, i, name) && j < |s.table|
    ensures LayoutOk(L, |s.disk|)
    ensures RowOk(L, RelabelState(L, s, i, name, size).disk, RelabelState(L, s, i, name, size).table[j], s.chains[j])
  {
    RelabelFits(L, s, i, name, size);
    OkRow(L, s, j);
    var e := s.table[i];
    var d' := PatchSector(s.disk, e.dirLba, e.dirOff, EncodedSet(name, e.first, size));
    var set' := EncodedSet(name, e.first, size);
    if j != i {
      OkSeparate(L, s, i, j);
      if s.table[j].writable { OkWritable(L, s, j); }
      SpliceSliceIf(s.disk[e.dirLba], e.dirOff, set', s.table[j]);
      hide Ok, LayoutOk, RowOk, EncodedSet, FileOk, Linked, Ends, InRoot, Clusters, Misses, ShortName;
      RootWriteRow(L, s.disk, e.dirLba, Splice(s.disk[e.dirLba], e.dirOff, set'), s.table[j], s.chains[j]);
    } else {
      OkWritable(L, s, i);
      RelabelOwnRow(L, s, i, name, size);
    }
  }

  lemma SpliceSliceIf(t: Sector, off: nat, bs: seq<Byte>, e: Entry)
    requires off + |bs| <= 512
    ensures e.dirOff + 96 <= 512 && (e.dirOff + 96 <= off || off + |bs| <= e.dirOff) ==>
              Splice(t, off, bs)[e.dirOff..e.dirOff + 96] == t[e.dirOff..e.dirOff + 96]
  {
    if e.dirOff + 96 <= 512 && (e.dirOff + 96 <= off || off + |bs| <= e.dirOff) {
      SpliceSlice(t, off, bs, e.dirOff, e.dirOff + 96);
    }
  }

  lemma RelabelOwnRow(L: Layout, s: State, i: nat, name: string, size: nat)
    requires CanRelabel(L, s, i, name, size) && LabelShape(s, i, name)
    ensures LayoutOk(L, |s.disk|)
    ensures RowOk(L, RelabelState(L, s, i, name, size).disk, s.table[i].(name := name, size := size), s.chains[i])
  {
    hide *;
    RelabelFits(L, s, i, name, size);
    CanRelabelIs(L, s, i, name, size);
    OkWritable(L, s, i);
    FileOkParts(L, s.disk, s.table[i], s.chains[i]);
    var e := s.table[i];
    var e' := e.(name := name, size := size);
    var set' := EncodedSet(name, e.first, size);
    var t: Sector := Splice(s.disk[e.dirLba], e.dirOff, set');
    var d' := s.disk[e.dirLba := t];
    RelabelDisk(L, s, i, name, size);
    RootWriteChanges(L, s.disk, e.dirLba, t);
    ChangesFat(L.g, L.bc, s.disk, d', {}, {}, Elements(L.rc));
    MissesNone(s.chains[i]);
    LinkedFrame(L.g, s.disk, d', s.chains[i], {});
    assert t[e.dirOff..e.dirOff + 96] == set' by { SpliceSlice(s.disk[e.dirLba], e.dirOff, set', 0, 0); }
    assert DirSet(d', e') by { DirSetIs(d', e'); }
    RelabelShape(L, |s.disk|, e, s.chains[i], name, size);
    FileOkIs(L, d', e', s.chains[i]);
  }

  lemma CanRelabelIs(L: Layout, s: State, i: nat, name: string, size: nat)
    requires CanRelabel(L, s, i, name, size)
    ensures Ok(L, s) && i < |s.table| == |s.chains| && s.table[i].writable && ShortName(name)
    ensures size <= s.table[i].capacity
  {
  }

  lemma RelabelDisk(L: Layout, s: State, i: nat, name: string, size: nat)
    requires LabelShape(s, i, name)
    ensures i < |s.table| && |name| <= 15 && s.table[i].dirLba < |s.disk| && s.table[i].dirOff + 96 <= 512
    ensures RelabelState(L, s, i, name, size).disk
         == s.disk[s.table[i].dirLba := Splice(s.disk[s.table[i].dirLba], s.table[i].dirOff,
                                               EncodedSet(name, s.table[i].first, size))]
    ensures RelabelState(L, s, i, name, size).table == s.table[i := s.table[i].(name := name, size := size)]
  {
    hide EncodedSet, Splice;
  }

  lemma ChangesFat(g: Geometry, bc: seq<nat>, d: Disk, d': Disk, fats: set<nat>, bits: set<nat>, data: set<nat>)
    requires Changes(g, bc, d, d', fats, bits, data)
    ensures FatSame(g, d, d', fats) && DataSame(g, d, d', data) && |d'| == |d|
  {
    hide BitsSame;
  }

  lemma FileOkParts(L: Layout, d: Disk, e: Entry, ch: seq<nat>)
    requires LayoutOk(L, |d|) && FileOk(L, d, e, ch)
    ensures FileShape(L, |d|, e, ch) && Clusters(L.g, ch) && Fits(L.g, |d|)
    ensures Linked(L.g, d, ch) && Ends(L.g, d, ch) && DirSet(d, e)
  {
    hide Linked, Ends, DirSet, Clusters, Misses, Fits, BitmapCovers;
  }

  lemma DirSetIs(d: Disk, e: Entry)
    requires e.dirLba < |d| && e.dirOff + 96 <= 512 && |e.name| <= 15
    requires d[e.dirLba][e.dirOff..e.dirOff + 96] == EncodedSet(e.name, e.first, e.size)
    ensures DirSet(d, e)
  {
  }

  lemma RelabelShape(L: Layout, n: nat, e: Entry, ch: seq<nat>, name: string, size: nat)
    requires LayoutOk(L, n) && FileShape(L, n, e, ch) && ShortName(name) && size <= e.capacity
    ensures FileShape(L, n, e.(name := name, size := size), ch)
  {
    hide LayoutOk, Clusters, Misses, InRoot, ShortName, Capacity;
  }

  lemma FileOkIs(L: Layout, d: Disk, e: Entry, ch: seq<nat>)
    requires LayoutOk(L, |d|) && FileShape(L, |d|, e, ch) && Fits(L.g, |d|) && Clusters(L.g, ch)
    requires Linked(L.g, d, ch) && Ends(L.g, d, ch) && DirSet(d, e)
    ensures FileOk(L, d, e, ch) && RowOk(L, d, e, ch)
  {
    hide LayoutOk, Clusters, Linked, Ends, DirSet, Misses, InRoot, ShortName, Fits;
  }

  lemma RelabelSeparate(L: Layout, s: State, i: nat, name: string, size: nat, j: nat)
    requires CanRelabel(L, s, i, name, size) && j < |s.table| && j != i
    ensures Separate(s.table[j], s.chains[j], s.table[i].(name := name, size := size), s.chains[i])
  {
    OkSeparate(L, s, i, j);
    OkWritable(L, s, i);
    hide Ok, LayoutOk, FileOk, Clusters, Misses, InRoot, ShortName, Capacity;
  }

  /** A new name or size keeps the invariant. */
  lemma RelabelStateOk(L: Layout, s: State, i: nat, name: string, size: nat)
    requires CanRelabel(L, s, i, name, size)
    ensures LabelShape(s, i, name) && Ok(L, RelabelState(L, s, i, name, size))
  {
    hide *;
    CanRelabelIs(L, s, i, name, size);
    RelabelFits(L, s, i, name, size);
    RelabelDisk(L, s, i, name, size);
    OkParts(L, s);
    var s' := RelabelState(L, s, i, name, size);
    var e := s.table[i];
    RelabelOther(L, s, i, name, size);
    RootWriteChanges(L, s.disk, e.dirLba, s'.disk[e.dirLba]);
    assert s'.disk == s.disk[e.dirLba := s'.disk[e.dirLba]];
    BaseFrame(L, s.disk, s'.disk, {}, {}, Elements(L.rc));
    AddedFrame(L, s.disk, s'.disk, s.added, {}, {}, Elements(L.rc));
    forall j: nat | j < |s.table| ensures RowOk(L, s'.disk, s'.table[j], s'.chains[j]) {
      RelabelRow(L, s, i, name, size, j);
    }
    forall j: nat | j < |s.table| && j != i ensures Separate(s.table[j], s.chains[j], s'.table[i], s'.chains[i]) {
      RelabelSeparate(L, s, i, name, size, j);
    }
    TableReplace(L, s, s', i);
    LayoutOf(L, s'.disk);
    OkIs(L, s');
  }

  lemma RelabelOther(L: Layout, s: State, i: nat, name: string, size: nat)
    requires LabelShape(s, i, name)
    ensures RelabelState(L, s, i, name, size).chains == s.chains && RelabelState(L, s, i, name, size).added == s.added
  {
    hide EncodedSet, PatchSector;
  }

  lemma LayoutOf(L: Layout, d: Disk)
    requires BaseOk(L, d)
    ensures LayoutOk(L, |d|)
  {
    hide LayoutOk;
  }

  lemma RowMissesRoot(L: Layout, s: State, j: nat)
    requires Ok(L, s) && j < |s.table|
    ensures |s.table| == |s.chains| && Misses(s.chains[j], Elements(L.rc)) && Misses(s.chains[j], Elements(L.bc))
  {
    OkRow(L, s, j);
    if s.table[j].writable { ChainOutside(L, s, j); }
    hide Ok, LayoutOk, Linked, Ends, DirSet, FileShape, Clusters;
  }

  /** A new name or size moves no file byte: what both sizes cover reads as before, in every file. */
  lemma RelabelStateBytes(L: Layout, s: State, i: nat, name: string, size: nat, j: nat)
    requires CanRelabel(L, s, i, name, size) && j < |s.table| && s.chains[j] != []
    ensures LabelShape(s, i, name) && Ok(L, RelabelState(L, s, i, name, size))
    ensures RelabelState(L, s, i, name, size).chains == s.chains
    ensures |RelabelState(L, s, i, name, size).table| == |s.table|
    ensures j != i ==> FileBytes(L, RelabelState(L, s, i, name, size), j) == FileBytes(L, s, j)
    ensures RelabelState(L, s, i, name, size).table[i].size == size
    ensures j == i ==> forall p: nat :: p < s.table[i].size && p < size ==>
              FileBytes(L, RelabelState(L, s, i, name, size), i)[p] == FileBytes(L, s, i)[p]
  {
    hide *;
    CanRelabelIs(L, s, i, name, size);
    RelabelStateOk(L, s, i, name, size);
    RelabelFits(L, s, i, name, size);
    RelabelDisk(L, s, i, name, size);
    RelabelOther(L, s, i, name, size);
    var s' := RelabelState(L, s, i, name, size);
    var e := s.table[i];
    RootWriteChanges(L, s.disk, e.dirLba, s'.disk[e.dirLba]);
    assert s'.disk == s.disk[e.dirLba := s'.disk[e.dirLba]];
    ChangesFat(L.g, L.bc, s.disk, s'.disk, {}, {}, Elements(L.rc));
    RowMissesRoot(L, s, j);
    if j != i {
      BytesFrame(L, s, s', j, Elements(L.rc));
    } else {
      assert s'.table[i].size == size;
      forall p: nat | p < s.table[i].size && p < size
        ensures FileBytes(L, s', i)[p] == FileBytes(L, s, i)[p]
      {
        FileBytesAt(L, s, i, p);
        FileBytesAt(L, s', i, p);
        FileByteFrame(L.g, s.disk, s'.disk, s.chains[i], Elements(L.rc), p);
      }
    }
  }

  // ---------- fresh clusters ----------

  /** Distinct clusters that all look free. */
  ghost predicate FreshRun(L: Layout, s: State, more: seq<nat>)
    requires Ok(L, s)
  {
    OkParts(L, s);
    more != [] && Clusters(L.g, more) && forall i :: 0 <= i < |more| ==> Free(L.g, L.bc, s.disk, more[i])
  }

  lemma FreeOutsideReserved(L: Layout, s: State, c: nat)
    requires Ok(L, s) && ClusterValid(L.g, c) && Fits(L.g, |s.disk|) && BitmapCovers(L.g, L.bc)
    requires Free(L.g, L.bc, s.disk, c)
    ensures c !in L.reserved && c !in L.rc && c !in L.bc && c !in s.added
  {
    OkParts(L, s);
    hide Fits, BitmapCovers, FatAt, BitAt, TableOk, Linked, Ends;
  }

  /** Every cluster of a live chain has a non-zero FAT entry. */
  lemma ChainMarked(g: Geometry, d: Disk, ch: seq<nat>, c: nat)
    requires Fits(g, |d|) && Clusters(g, ch) && Linked(g, d, ch) && Ends(g, d, ch) && c in ch
    ensures FatAt(g, d, c) != 0
  {
    hide FatAt, Fits;
    var i :| 0 <= i < |ch| && ch[i] == c;
    if i < |ch| - 1 { assert ClusterValid(g, ch[i + 1]); }
  }

  lemma FreeOutsideChains(L: Layout, s: State, c: nat, j: nat)
    requires Ok(L, s) && ClusterValid(L.g, c) && Fits(L.g, |s.disk|) && BitmapCovers(L.g, L.bc)
    requires Free(L.g, L.bc, s.disk, c) && j < |s.table|
    ensures |s.table| == |s.chains| && c !in s.chains[j]
  {
    OkRow(L, s, j);
    FreeOutsideReserved(L, s, c);
    if s.table[j].writable {
      OkWritable(L, s, j);
      FileOkParts(L, s.disk, s.table[j], s.chains[j]);
      hide Ok, LayoutOk, Fits, BitmapCovers, FatAt, BitAt, Linked, Ends, Clusters, FileOk, FileShape, DirSet;
      if c in s.chains[j] { ChainMarked(L.g, s.disk, s.chains[j], c); }
    } else {
      hide Ok, LayoutOk, Fits, BitmapCovers, FatAt, BitAt, Linked, Ends, Clusters;
    }
  }

  /** Fresh clusters belong to nothing: not to the reserved ones, not to any row. */
  lemma FreshOutside(L: Layout, s: State, more: seq<nat>)
    requires Ok(L, s) && FreshRun(L, s, more)
    ensures Elements(more) !! L.reserved && Elements(more) !! Elements(L.rc) && Elements(more) !! Elements(L.bc)
    ensures Elements(more) !! s.added && Misses(more, Elements(L.bc)) && Misses(more, L.reserved)
    ensures |s.table| == |s.chains|
    ensures forall j: nat :: j < |s.table| ==> Misses(s.chains[j], Elements(more))
    ensures forall j: nat :: j < |s.table| ==> Misses(more, Elements(s.chains[j]))
  {
    OkParts(L, s);
    hide Ok, BaseOk, LayoutOk, TableOk, AddedOk, Fits, BitmapCovers, Free, ClusterValid;
    forall c | c in more ensures c !in L.reserved && c !in L.rc && c !in L.bc && c !in s.added {
      FreeOutsideReserved(L, s, c);
    }
    forall j: nat, c | j < |s.table| && c in more ensures c !in s.chains[j] {
      FreeOutsideChains(L, s, c, j);
    }
  }

  // ---------- extend ----------

  ghost function ExtendDisk(g: Geometry, bc: seq<nat>, d: Disk, last: nat, more: seq<nat>): (d': Disk)
    requires Fits(g, |d|) && BitmapCovers(g, bc) && Clusters(g, more) && more != [] && ClusterValid(g, last)
    ensures |d'| == |d|
  {
    MarkChain(g, bc, SetFat(g, ZeroClusters(g, d, more, |more|), last, more[0]), more, |more|)
  }

  lemma ExtendDiskChanges(g: Geometry, bc: seq<nat>, d: Disk, last: nat, more: seq<nat>)
    requires Fits(g, |d|) && BitmapCovers(g, bc) && Clusters(g, more) && more != [] && ClusterValid(g, last)
    requires Misses(more, Elements(bc))
    ensures Changes(g, bc, d, ExtendDisk(g, bc, d, last, more), {last} + Elements(more), Elements(more),
                    Elements(more) + Elements(bc))
  {
    hide Fits, BitmapCovers, Changes, SetFat, MarkChain, ZeroClusters, Misses;
    var e := ZeroClusters(g, d, more, |more|);
    var f := SetFat(g, e, last, more[0]);
    var h := MarkChain(g, bc, f, more, |more|);
    assert more[..|more|] == more;
    ZeroClustersChanges(g, bc, d, more, |more|);
    ClusterFits32(g, |d|, more[0]);
    SetFatChanges(g, bc, e, last, more[0]);
    MarkChainChanges(g, bc, f, more, |more|);
    ChangesTrans(g, bc, d, e, f, {}, {}, Elements(more), {last}, {}, {});
    Units({last});
    Units({});
    Units(Elements(more));
    ChangesTrans(g, bc, d, f, h, {last}, {}, Elements(more), Elements(more), Elements(more), Elements(bc));
  }

  lemma ClusterFits32(g: Geometry, n: nat, c: nat)
    requires Fits(g, n) && ClusterValid(g, c)
    ensures c < EOF_MIN < EOF_MARK < 0x1_0000_0000
  {
  }

  /** The old end now links to the first new cluster, and the new clusters are linked, ended and marked. */
  lemma ExtendDiskAt(g: Geometry, bc: seq<nat>, d: Disk, last: nat, more: seq<nat>, i: nat)
    requires Fits(g, |d|) && BitmapCovers(g, bc) && Clusters(g, more) && ClusterValid(g, last)
    requires last !in more && i < |more|
    ensures var d' := ExtendDisk(g, bc, d, last, more);
            FatAt(g, d', last) == more[0] && FatAt(g, d', more[i]) == NextLink(more, i) && BitAt(g, bc, d', more[i])
  {
    hide Fits, BitmapCovers, Changes, SetFat, MarkChain, ZeroClusters, NextLink, FatAt, BitAt;
    var e := ZeroClusters(g, d, more, |more|);
    var f := SetFat(g, e, last, more[0]);
    var h := MarkChain(g, bc, f, more, |more|);
    assert more[..|more|] == more;
    ClusterFits32(g, |d|, more[0]);
    SetFatReads(g, e, last, more[0], last);
    MarkChainChanges(g, bc, f, more, |more|);
    FatSameAt(g, bc, f, h, Elements(more), Elements(more), Elements(bc), last);
    MarkChainAt(g, bc, f, more, |more|, i);
  }

  ghost predicate CanExtend(L: Layout, s: State, i: nat, more: seq<nat>) {
    && Ok(L, s) && i < |s.table| == |s.chains| && s.table[i].writable
    && FreshRun(L, s, more) && |s.chains[i]| + |more| <= MAX_CLUSTERS
  }

  /** What the extension writes depends on; follows from CanExtend. */
  ghost predicate ExtendShape(L: Layout, s: State, i: nat, more: seq<nat>) {
    && i < |s.table| == |s.chains| && s.chains[i] != [] && more != []
    && Fits(L.g, |s.disk|) && BitmapCovers(L.g, L.bc)
    && Clusters(L.g, s.chains[i]) && Clusters(L.g, more) && Clusters(L.g, s.chains[i] + more)
  }

  function Last(ch: seq<nat>): (c: nat)
    requires ch != []
    ensures c in ch
  {
    ch[|ch| - 1]
  }

  lemma CanExtendIs(L: Layout, s: State, i: nat, more: seq<nat>)
    requires CanExtend(L, s, i, more)
    ensures ExtendShape(L, s, i, more) && i < |s.table| == |s.chains|
    ensures Ok(L, s) && s.table[i].writable && FreshRun(L, s, more) && |s.chains[i]| + |more| <= MAX_CLUSTERS
  {
    OkParts(L, s);
    OkWritable(L, s, i);
    FreshOutside(L, s, more);
    hide Ok, BaseOk, LayoutOk, TableOk, AddedOk, Fits, BitmapCovers, FileOk, Free, FileShape;
    JoinClusters(L.g, s.chains[i], more);
  }

  ghost function ExtendState(L: Layout, s: State, i: nat, more: seq<nat>): State
    requires ExtendShape(L, s, i, more)
  {
    State(ExtendDisk(L.g, L.bc, s.disk, Last(s.chains[i]), more),
          s.table[i := s.table[i].(capacity := Capacity(L.g, |s.chains[i] + more|))],
          s.chains[i := s.chains[i] + more], s.added + Elements(more))
  }

  lemma ExtendDiskIs(L: Layout, s: State, i: nat, more: seq<nat>)
    requires ExtendShape(L, s, i, more)
    ensures i < |s.chains| && s.chains[i] != [] && more != [] && Clusters(L.g, more) && BitmapCovers(L.g, L.bc)
    ensures Fits(L.g, |s.disk|) && ClusterValid(L.g, Last(s.chains[i]))
    ensures ExtendState(L, s, i, more).disk
         == MarkChain(L.g, L.bc, SetFat(L.g, ZeroClusters(L.g, s.disk, more, |more|), Last(s.chains[i]), more[0]),
                      more, |more|)
  {
    hide Fits, BitmapCovers, MarkChain, SetFat, ZeroClusters;
  }

  /** The extended chain is linked and ended. */
  lemma ExtendedChain(L: Layout, s: State, i: nat, more: seq<nat>)
    requires ExtendShape(L, s, i, more) && Linked(L.g, s.disk, s.chains[i]) && Misses(more, Elements(L.bc))
    ensures Linked(L.g, ExtendState(L, s, i, more).disk, s.chains[i] + more)
    ensures Ends(L.g, ExtendState(L, s, i, more).disk, s.chains[i] + more)
  {
    hide Fits, BitmapCovers, ExtendDisk, FatAt, Misses;
    var ch, last := s.chains[i], Last(s.chains[i]);
    var d' := ExtendDisk(L.g, L.bc, s.disk, last, more);
    forall k | 0 <= k < |ch + more| - 1 ensures FatAt(L.g, d', (ch + more)[k]) == (ch + more)[k + 1] {
      ExtendedLink(L.g, L.bc, s.disk, ch, more, k);
    }
    LastApart(L.g, ch, more);
    ExtendDiskAt(L.g, L.bc, s.disk, last, more, |more| - 1);
    assert (ch + more)[|ch + more| - 1] == more[|more| - 1];
  }

  lemma LastApart(g: Geometry, ch: seq<nat>, more: seq<nat>)
    requires ch != [] && Clusters(g, ch + more)
    ensures Last(ch) !in more && ClusterValid(g, Last(ch))
  {
    assert (ch + more)[|ch| - 1] == Last(ch);
    forall m: nat | m < |more| ensures more[m] != Last(ch) {
      assert (ch + more)[|ch| + m] == more[m];
    }
  }

  lemma JoinClusters(g: Geometry, ch: seq<nat>, more: seq<nat>)
    requires Clusters(g, ch) && Clusters(g, more) && Misses(more, Elements(ch))
    ensures Clusters(g, ch + more)
  {
  }

  lemma ExtendedLink(g: Geometry, bc: seq<nat>, d: Disk, ch: seq<nat>, more: seq<nat>, k: nat)
    requires Fits(g, |d|) && BitmapCovers(g, bc) && Clusters(g, ch) && Clusters(g, more) && Clusters(g, ch + more)
    requires ch != [] && more != [] && Linked(g, d, ch) && Misses(more, Elements(bc)) && k < |ch + more| - 1
    ensures FatAt(g, ExtendDisk(g, bc, d, Last(ch), more), (ch + more)[k]) == (ch + more)[k + 1]
  {
    hide Fits, BitmapCovers, FatAt, ExtendDisk, Changes, Misses;
    var last := Last(ch);
    LastApart(g, ch, more);
    if k < |ch| - 1 {
      ExtendDiskChanges(g, bc, d, last, more);
      assert (ch + more)[k] !in {last} + Elements(more) by {
        forall m: nat | m < |more| ensures more[m] != ch[k] { assert (ch + more)[k] != (ch + more)[|ch| + m]; }
      }
      FatSameAt(g, bc, d, ExtendDisk(g, bc, d, last, more), {last} + Elements(more), Elements(more),
                Elements(more) + Elements(bc), ch[k]);
    } else {
      ExtendDiskAt(g, bc, d, last, more, if k < |ch| then 0 else k - |ch|);
    }
  }

  lemma ExtendStateChanges(L: Layout, s: State, i: nat, more: seq<nat>)
    requires ExtendShape(L, s, i, more) && Misses(more, Elements(L.bc))
    ensures Changes(L.g, L.bc, s.disk, ExtendState(L, s, i, more).disk,
                    {Last(s.chains[i])} + Elements(more), Elements(more), Elements(more) + Elements(L.bc))
  {
    hide Fits, BitmapCovers, ExtendDisk, Changes, Misses;
    LastApart(L.g, s.chains[i], more);
    ExtendDiskChanges(L.g, L.bc, s.disk, Last(s.chains[i]), more);
  }

  lemma RootBitmapApart(L: Layout, n: nat)
    requires LayoutOk(L, n)
    ensures Elements(L.bc) !! Elements(L.rc)
  {
    hide Fits, BitmapCovers, Clusters;
  }

  lemma ExtendOwnRow(L: Layout, s: State, i: nat, more: seq<nat>)
    requires CanExtend(L, s, i, more) && ExtendShape(L, s, i, more)
    ensures LayoutOk(L, |s.disk|)
    ensures RowOk(L, ExtendState(L, s, i, more).disk, ExtendState(L, s, i, more).table[i], s.chains[i] + more)
  {
    hide *;
    CanExtendIs(L, s, i, more);
    OkParts(L, s);
    OkWritable(L, s, i);
    FileOkParts(L, s.disk, s.table[i], s.chains[i]);
    FreshOutside(L, s, more);
    ExtendedChain(L, s, i, more);
    ExtendStateParts(L, s, i, more);
    ExtendStateChanges(L, s, i, more);
    RootBitmapApart(L, |s.disk|);
    ShapeParts(L, |s.disk|, s.table[i], s.chains[i]);
    var s' := ExtendState(L, s, i, more);
    ChangesFat(L.g, L.bc, s.disk, s'.disk, {Last(s.chains[i])} + Elements(more), Elements(more),
               Elements(more) + Elements(L.bc));
    DirFrame(L, s.disk, s'.disk, s.table[i], Elements(more) + Elements(L.bc));
    DirSetCapacity(s'.disk, s.table[i], Capacity(L.g, |s.chains[i] + more|));
    ExtendedShape(L, |s.disk|, s.table[i], s.chains[i], more);
    FileOkIs(L, s'.disk, s'.table[i], s.chains[i] + more);
  }

  lemma ExtendStateParts(L: Layout, s: State, i: nat, more: seq<nat>)
    requires ExtendShape(L, s, i, more)
    ensures i < |s.table| == |s.chains|
    ensures Clusters(L.g, s.chains[i] + more) && Fits(L.g, |s.disk|) && |ExtendState(L, s, i, more).disk| == |s.disk|
    ensures ExtendState(L, s, i, more).table ==
              s.table[i := s.table[i].(capacity := Capacity(L.g, |s.chains[i] + more|))]
    ensures ExtendState(L, s, i, more).chains == s.chains[i := s.chains[i] + more]
    ensures ExtendState(L, s, i, more).added == s.added + Elements(more)
  {
    hide Fits, BitmapCovers, Clusters, Capacity;
  }

  lemma ShapeParts(L: Layout, n: nat, e: Entry, ch: seq<nat>)
    requires LayoutOk(L, n) && FileShape(L, n, e, ch)
    ensures InRoot(L, n, e.dirLba) && e.parent == "/" && ch != [] && e.first == ch[0]
    ensures e.capacity == Capacity(L.g, |ch|) && e.size <= e.capacity && 1 <= |ch| <= MAX_CLUSTERS
    ensures e.dirOff % 32 == 0 && e.dirOff + 96 <= 512 && e.writable && !e.isDir && ShortName(e.name)
  {
    hide LayoutOk, Clusters, Misses, InRoot, ShortName, Capacity;
  }

  lemma DirSetCapacity(d: Disk, e: Entry, capacity: nat)
    requires DirSet(d, e)
    ensures DirSet(d, e.(capacity := capacity))
  {
    hide EncodedSet;
  }

  lemma ExtendedShape(L: Layout, n: nat, e: Entry, ch: seq<nat>, more: seq<nat>)
    requires LayoutOk(L, n) && FileShape(L, n, e, ch) && Clusters(L.g, ch + more) && Misses(more, L.reserved)
    requires |ch| + |more| <= MAX_CLUSTERS
    ensures FileShape(L, n, e.(capacity := Capacity(L.g, |ch + more|)), ch + more)
  {
    hide LayoutOk, Clusters, InRoot, ShortName, Capacity;
    CapacityGrows(L.g, |ch|, |ch + more|);
    assert Misses(ch + more, L.reserved);
  }

  lemma CapacityGrows(g: Geometry, m: nat, n: nat)
    requires m <= n
    ensures Capacity(g, m) <= Capacity(g, n)
  {
    MulLe(m, n, ClusterSize(g));
  }

  lemma ExtendSeparate(L: Layout, s: State, i: nat, more: seq<nat>, j: nat, capacity: nat)
    requires Ok(L, s) && i < |s.table| == |s.chains| && j < |s.table| && i != j
    requires Misses(more, Elements(s.chains[j]))
    ensures Separate(s.table[j], s.chains[j], s.table[i].(capacity := capacity), s.chains[i] + more)
  {
    OkSeparate(L, s, i, j);
    hide Ok;
    assert forall x :: x in s.chains[i] + more ==> x in s.chains[i] || x in more;
  }

  lemma ExtendAdded(L: Layout, s: State, i: nat, more: seq<nat>)
    requires Ok(L, s) && ExtendShape(L, s, i, more) && Misses(more, Elements(L.bc))
    ensures LayoutOk(L, |s.disk|) && AddedOk(L, ExtendState(L, s, i, more).disk, s.added + Elements(more))
  {
    hide *;
    OkParts(L, s);
    ExtendStateParts(L, s, i, more);
    var d' := ExtendState(L, s, i, more).disk;
    forall c | c in s.added + Elements(more)
      ensures ClusterValid(L.g, c) && BitAt(L.g, L.bc, d', c) && FatAt(L.g, d', c) != 0 {
      if c in s.added { AddedAt(L, s.disk, s.added, c); }
      ExtendAddedAt(L, s, i, more, c);
    }
    AddedIs(L, d', s.added + Elements(more));
  }

  lemma AddedAt(L: Layout, d: Disk, added: set<nat>, c: nat)
    requires LayoutOk(L, |d|) && AddedOk(L, d, added) && c in added
    ensures ClusterValid(L.g, c) && Fits(L.g, |d|) && BitmapCovers(L.g, L.bc) && BitAt(L.g, L.bc, d, c)
    ensures FatAt(L.g, d, c) != 0
  {
    hide Fits, BitmapCovers, BitAt, FatAt;
  }

  lemma AddedIs(L: Layout, d: Disk, added: set<nat>)
    requires LayoutOk(L, |d|) && Fits(L.g, |d|) && BitmapCovers(L.g, L.bc)
    requires forall c :: c in added ==> ClusterValid(L.g, c) && BitAt(L.g, L.bc, d, c) && FatAt(L.g, d, c) != 0
    ensures AddedOk(L, d, added)
  {
    hide LayoutOk, Fits, BitmapCovers, BitAt, FatAt;
  }

  lemma ExtendAddedAt(L: Layout, s: State, i: nat, more: seq<nat>, c: nat)
    requires ExtendShape(L, s, i, more) && Misses(more, Elements(L.bc))
    requires c in more || (ClusterValid(L.g, c) && BitAt(L.g, L.bc, s.disk, c) && FatAt(L.g, s.disk, c) != 0)
    ensures var d' := ExtendState(L, s, i, more).disk;
            ClusterValid(L.g, c) && BitAt(L.g, L.bc, d', c) && FatAt(L.g, d', c) != 0
  {
    hide Fits, BitmapCovers, FatAt, BitAt, Misses, ExtendDisk, Last, Clusters;
    LastApart(L.g, s.chains[i], more);
    ExtendDiskMarked(L.g, L.bc, s.disk, Last(s.chains[i]), more, c);
  }

  lemma ExtendDiskMarked(g: Geometry, bc: seq<nat>, d: Disk, last: nat, more: seq<nat>, c: nat)
    requires Fits(g, |d|) && BitmapCovers(g, bc) && Clusters(g, more) && more != [] && ClusterValid(g, last)
    requires last !in more
    requires Misses(more, Elements(bc))
    requires c in more || (ClusterValid(g, c) && BitAt(g, bc, d, c) && FatAt(g, d, c) != 0)
    ensures var d' := ExtendDisk(g, bc, d, last, more);
            ClusterValid(g, c) && BitAt(g, bc, d', c) && FatAt(g, d', c) != 0
  {
    hide *;
    LinksNonZero(g, more);
    if c in more {
      var k :| 0 <= k < |more| && more[k] == c;
      ExtendDiskAt(g, bc, d, last, more, k);
    } else {
      var d' := ExtendDisk(g, bc, d, last, more);
      var fats, data := {last} + Elements(more), Elements(more) + Elements(bc);
      ExtendDiskChanges(g, bc, d, last, more);
      BitsSameAt(g, bc, d, d', fats, Elements(more), data, c);
      if c == last {
        ExtendDiskAt(g, bc, d, last, more, 0);
      } else {
        FatSameAt(g, bc, d, d', fats, Elements(more), data, c);
      }
    }
  }

  lemma LinksNonZero(g: Geometry, cs: seq<nat>)
    requires Clusters(g, cs)
    ensures forall k :: 0 <= k < |cs| ==> ClusterValid(g, cs[k]) && cs[k] != 0 && NextLink(cs, k) != 0
  {
    forall k | 0 <= k < |cs| ensures NextLink(cs, k) != 0 {
      if k + 1 < |cs| { assert ClusterValid(g, cs[k + 1]); }
    }
  }

  /** Appending fresh clusters to a file keeps the invariant. */
  lemma ExtendStateOk(L: Layout, s: State, i: nat, more: seq<nat>)
    requires CanExtend(L, s, i, more)
    ensures ExtendShape(L, s, i, more) && Ok(L, ExtendState(L, s, i, more))
  {
    hide *;
    CanExtendIs(L, s, i, more);
    OkParts(L, s);
    FreshOutside(L, s, more);
    ExtendStateParts(L, s, i, more);
    ExtendStateChanges(L, s, i, more);
    ChainOutside(L, s, i);
    RootBitmapApart(L, |s.disk|);
    ExtendAdded(L, s, i, more);
    ExtendOwnRow(L, s, i, more);
    LastElement(s.chains[i]);
    var s' := ExtendState(L, s, i, more);
    var fats, data := {Last(s.chains[i])} + Elements(more), Elements(more) + Elements(L.bc);
    BaseFrame(L, s.disk, s'.disk, fats, Elements(more), data);
    forall j: nat | j < |s.table| ensures RowOk(L, s'.disk, s'.table[j], s'.chains[j]) {
      if j != i {
        OkRow(L, s, j);
        OthersMiss(L, s, i, j);
        MissesUnion(s.chains[j], Elements(s.chains[i]), Elements(more), Last(s.chains[i]));
        RowFrame(L, s.disk, s'.disk, s.table[j], s.chains[j], fats, Elements(more), data);
      }
    }
    forall j: nat | j < |s.table| && j != i ensures Separate(s.table[j], s.chains[j], s'.table[i], s'.chains[i]) {
      ExtendSeparate(L, s, i, more, j, Capacity(L.g, |s.chains[i] + more|));
    }
    TableReplace(L, s, s', i);
    LayoutOf(L, s'.disk);
    OkIs(L, s');
  }

  lemma LastElement(ch: seq<nat>)
    requires ch != []
    ensures Last(ch) in Elements(ch)
  {
  }

  lemma MissesUnion(ch: seq<nat>, a: set<nat>, b: set<nat>, x: nat)
    requires Misses(ch, a) && Misses(ch, b) && x in a
    ensures Misses(ch, {x} + b)
  {
  }

  /** Extending a file changes the bytes of none, itself included. */
  lemma ExtendStateBytes(L: Layout, s: State, i: nat, more: seq<nat>, j: nat)
    requires CanExtend(L, s, i, more) && j < |s.table| && s.chains[j] != []
    ensures ExtendShape(L, s, i, more) && Ok(L, ExtendState(L, s, i, more))
    ensures |ExtendState(L, s, i, more).table| == |s.table| && ExtendState(L, s, i, more).chains[j] != []
    ensures FileBytes(L, ExtendState(L, s, i, more), j) == FileBytes(L, s, j)
  {
    hide *;
    CanExtendIs(L, s, i, more);
    ExtendStateOk(L, s, i, more);
    FreshOutside(L, s, more);
    ExtendStateParts(L, s, i, more);
    ExtendStateChanges(L, s, i, more);
    var s' := ExtendState(L, s, i, more);
    var fats, data := {Last(s.chains[i])} + Elements(more), Elements(more) + Elements(L.bc);
    ChangesFat(L.g, L.bc, s.disk, s'.disk, fats, Elements(more), data);
    RowMissesRoot(L, s, j);
    MissesBoth(s.chains[j], Elements(more), Elements(L.bc));
    if j != i {
      BytesFrame(L, s, s', j, data);
    } else {
      forall p: nat | p < s.table[i].size ensures FileBytes(L, s', i)[p] == FileBytes(L, s, i)[p] {
        FileBytesAt(L, s, i, p);
        FileBytesAt(L, s', i, p);
        FileByteFrame(L.g, s.disk, s'.disk, s.chains[i], data, p);
        FileByteExtend(L.g, s'.disk, s.chains[i], more, p);
      }
    }
  }

  lemma MissesBoth(ch: seq<nat>, a: set<nat>, b: set<nat>)
    requires Misses(ch, a) && Misses(ch, b)
    ensures Misses(ch, a + b)
  {
  }
}
