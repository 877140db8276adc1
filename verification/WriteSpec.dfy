/** What a write does as a whole: grow the chain if needed, overwrite the range, raise the size. */
module WriteSpec {
  import opened Bytes
  import opened Arithmetic
  import opened Volume
  import opened Frames
  import opened Chains
  import opened Allocation
  import opened Options
  import opened Paths
  import opened EntrySet
  import opened Transaction
  import opened FileSystem
  import opened FileOps
  import opened Edits
  import opened Search
  import opened CreateSpec

  const U64_MAX: nat := 0xffff_ffff_ffff_ffff

  /** The clusters a file of `size` bytes needs: three for an empty one, and 0 when it cannot have that many. */
  function ClusterCountFor(g: Geometry, size: nat): (n: nat) {
    var cs := g.sectorsPerCluster * 512;
    if cs == 0 then 0
    else if size == 0 then MAX_CLUSTERS
    else if size > U64_MAX - (cs - 1) then 0
    else
      var q := (size + cs - 1) / cs;
      if q <= 0 || q > MAX_CLUSTERS then 0 else q
  }

  lemma CeilBounds(size: nat, cs: nat)
    requires cs > 0 && size > 0
    ensures var q := (size + cs - 1) / cs; q >= 1 && (q - 1) * cs < size <= q * cs
  {
    var q := (size + cs - 1) / cs;
    assert (size + cs - 1) == q * cs + (size + cs - 1) % cs;
    assert (q - 1) * cs == q * cs - cs;
  }

  /** Enough clusters, and not one more than needed; none exactly when three do not hold the bytes. */
  lemma ClusterCountBounds(g: Geometry, size: nat)
    requires 1 <= g.sectorsPerCluster <= 0x1_0000 && size > 0
    ensures var n := ClusterCountFor(g, size);
            && n <= MAX_CLUSTERS
            && (n == 0 <==> size > Capacity(g, MAX_CLUSTERS))
            && (n > 0 ==> Capacity(g, n - 1) < size <= Capacity(g, n))
  {
    var cs := g.sectorsPerCluster * 512;
    CeilBounds(size, cs);
    var q := (size + cs - 1) / cs;
    if q > MAX_CLUSTERS { MulLe(MAX_CLUSTERS, q - 1, cs); } else { MulLe(q, MAX_CLUSTERS, cs); }
  }

  ghost predicate CanGrow(L: Layout, s: State, i: nat, end: nat) {
    && i < |s.chains| && ClusterCountFor(L.g, end) > |s.chains[i]|
    && HasRun(L, s.disk, ClusterCountFor(L.g, end) - |s.chains[i]|)
  }

  /** The extension a write may start with. */
  ghost predicate GrownShape(L: Layout, s: State, i: nat, end: nat, more: seq<nat>) {
    && i < |s.table| == |s.chains|
    && (end > s.table[i].capacity ==> ExtendShape(L, s, i, more))
  }

  ghost function Grown(L: Layout, s: State, i: nat, end: nat, more: seq<nat>): State
    requires GrownShape(L, s, i, end, more)
  {
    if end > s.table[i].capacity then ExtendState(L, s, i, more) else s
  }

  ghost predicate CanGrowBy(L: Layout, s: State, i: nat, end: nat, more: seq<nat>) {
    && Ok(L, s) && i < |s.table| == |s.chains| && s.table[i].writable
    && (end > s.table[i].capacity ==> CanExtend(L, s, i, more) && |s.chains[i]| + |more| == ClusterCountFor(L.g, end))
  }

  ghost predicate WriteFileShape(L: Layout, s: State, i: nat, offset: nat, bytes: seq<Byte>, more: seq<nat>) {
    && GrownShape(L, s, i, offset + |bytes|, more)
    && WriteShape(L, Grown(L, s, i, offset + |bytes|, more), i, offset, bytes)
    && LabelShape(WriteState(L, Grown(L, s, i, offset + |bytes|, more), i, offset, bytes), i, s.table[i].name)
  }

  /** The state after the write. */
  ghost function WriteFileState(L: Layout, s: State, i: nat, offset: nat, bytes: seq<Byte>, more: seq<nat>): State
    requires WriteFileShape(L, s, i, offset, bytes, more)
  {
    var w := WriteState(L, Grown(L, s, i, offset + |bytes|, more), i, offset, bytes);
    if offset + |bytes| > s.table[i].size then RelabelState(L, w, i, s.table[i].name, offset + |bytes|) else w
  }

  // ---------- growing ----------

  lemma RowCapacity(L: Layout, s: State, i: nat)
    requires Ok(L, s) && i < |s.table| && s.table[i].writable
    ensures |s.table| == |s.chains| && 1 <= |s.chains[i]| <= MAX_CLUSTERS
    ensures s.table[i].capacity == Capacity(L.g, |s.chains[i]|)
    ensures s.table[i].size <= s.table[i].capacity
  {
    OkWritable(L, s, i);
    ShapeParts(L, |s.disk|, s.table[i], s.chains[i]);
    hide Ok, LayoutOk, FileOk, FileShape, Clusters, Misses, Capacity;
  }

  /** A range past the capacity needs more clusters than the file has. */
  lemma GrowDecides(L: Layout, s: State, i: nat, end: nat)
    requires Ok(L, s) && i < |s.table| == |s.chains| && s.table[i].writable && end > s.table[i].capacity
    ensures ClusterCountFor(L.g, end) <= MAX_CLUSTERS
    ensures ClusterCountFor(L.g, end) > 0 ==>
              ClusterCountFor(L.g, end) > |s.chains[i]| && end <= Capacity(L.g, ClusterCountFor(L.g, end))
    ensures CanGrow(L, s, i, end) ==
              (ClusterCountFor(L.g, end) > 0 && HasRun(L, s.disk, ClusterCountFor(L.g, end) - |s.chains[i]|))
  {
    hide *;
    OkParts(L, s);
    SpcBounds(L.g, |s.disk|);
    RowCapacity(L, s, i);
    ClusterCountBounds(L.g, end);
    var n := ClusterCountFor(L.g, end);
    assert n > 0 ==> n > |s.chains[i]| by {
      if n > 0 && n <= |s.chains[i]| { CapacityGrows(L.g, n, |s.chains[i]|); }
    }
    CanGrowIs(L, s, i, end);
  }

  lemma CanGrowIs(L: Layout, s: State, i: nat, end: nat)
    ensures CanGrow(L, s, i, end) == (i < |s.chains| && ClusterCountFor(L.g, end) > |s.chains[i]|
                                      && HasRun(L, s.disk, ClusterCountFor(L.g, end) - |s.chains[i]|))
  {
    hide ClusterCountFor, HasRun;
  }

  lemma GrowStep(L: Layout, s: State, i: nat, end: nat, more: seq<nat>)
    requires Ok(L, s) && i < |s.table| == |s.chains| && s.table[i].writable && end > s.table[i].capacity
    requires CanExtend(L, s, i, more) && ExtendShape(L, s, i, more)
    requires |s.chains[i]| + |more| == ClusterCountFor(L.g, end)
    ensures CanGrowBy(L, s, i, end, more) && GrownShape(L, s, i, end, more)
    ensures Grown(L, s, i, end, more) == ExtendState(L, s, i, more)
  {
    hide Ok, CanExtend, ExtendShape, ClusterCountFor, ExtendState;
  }

  lemma GrowNone(L: Layout, s: State, i: nat, end: nat, more: seq<nat>)
    requires Ok(L, s) && i < |s.table| == |s.chains| && s.table[i].writable && end <= s.table[i].capacity
    ensures CanGrowBy(L, s, i, end, more) && GrownShape(L, s, i, end, more) && Grown(L, s, i, end, more) == s
  {
    hide Ok;
  }

  lemma GrownIs(L: Layout, s: State, i: nat, end: nat, more: seq<nat>)
    requires CanGrowBy(L, s, i, end, more)
    ensures GrownShape(L, s, i, end, more) && Ok(L, s) && i < |s.table| == |s.chains| && s.table[i].writable
    ensures end > s.table[i].capacity ==> CanExtend(L, s, i, more) && ExtendShape(L, s, i, more)
    ensures end > s.table[i].capacity ==> |s.chains[i]| + |more| == ClusterCountFor(L.g, end)
    ensures end > s.table[i].capacity ==> Grown(L, s, i, end, more) == ExtendState(L, s, i, more)
    ensures end <= s.table[i].capacity ==> Grown(L, s, i, end, more) == s
  {
    hide Ok, CanExtend, ExtendShape, ClusterCountFor, ExtendState;
    if end > s.table[i].capacity { CanExtendIs(L, s, i, more); }
  }

  /** After growing, the range fits; the row keeps its name and size, the other rows everything. */
  lemma GrownRows(L: Layout, s: State, i: nat, end: nat, more: seq<nat>)
    requires CanGrowBy(L, s, i, end, more) && GrownShape(L, s, i, end, more)
    ensures var s1 := Grown(L, s, i, end, more);
            && Ok(L, s1) && |s1.table| == |s1.chains| == |s.table| == |s.chains| && i < |s.table|
            && s1.table == s.table[i := s.table[i].(capacity := s1.table[i].capacity)] && end <= s1.table[i].capacity
            && (forall j :: 0 <= j < |s.table| && j != i ==> s1.chains[j] == s.chains[j])
               && s.chains[i] <= s1.chains[i] && s.chains[i] != []
  {
    hide *;
    GrownIs(L, s, i, end, more);
    RowCapacity(L, s, i);
    if end > s.table[i].capacity {
      ExtendStateOk(L, s, i, more);
      ExtendStateParts(L, s, i, more);
      GrowDecides(L, s, i, end);
    }
  }

  lemma GrownBytes(L: Layout, s: State, i: nat, end: nat, more: seq<nat>, j: nat)
    requires CanGrowBy(L, s, i, end, more) && GrownShape(L, s, i, end, more) && j < |s.table| == |s.chains|
    requires s.chains[j] != []
    ensures var s1 := Grown(L, s, i, end, more);
            Ok(L, s1) && j < |s1.table| == |s1.chains| && s1.chains[j] != []
            && FileBytes(L, s1, j) == FileBytes(L, s, j)
  {
    hide *;
    GrownIs(L, s, i, end, more);
    GrownRows(L, s, i, end, more);
    if end > s.table[i].capacity {
      ExtendStateBytes(L, s, i, more, j);
    }
  }

  // ---------- the whole write ----------

  lemma CanWriteFrom(L: Layout, s: State, i: nat, pos: nat, bytes: seq<Byte>)
    requires Ok(L, s) && i < |s.table| == |s.chains| && s.table[i].writable && pos + |bytes| <= s.table[i].capacity
    ensures CanWrite(L, s, i, pos, bytes)
  {
    hide Ok;
  }

  lemma SelfNameUnique(L: Layout, s: State, i: nat)
    requires Ok(L, s) && i < |s.table| && s.table[i].writable
    ensures ShortName(s.table[i].name)
    ensures forall j :: 0 <= j < |s.table| && j != i ==> s.table[j].parent != "/" || s.table[j].name != s.table[i].name
  {
    hide *;
    OkWritable(L, s, i);
    ShapeParts(L, |s.disk|, s.table[i], s.chains[i]);
    forall j | 0 <= j < |s.table| && j != i ensures s.table[j].parent != "/" || s.table[j].name != s.table[i].name {
      OkSeparate(L, s, i, j);
      SeparatePaths(s.table[j], s.chains[j], s.table[i], s.chains[i]);
    }
  }

  lemma SeparatePaths(a: Entry, cha: seq<nat>, b: Entry, chb: seq<nat>)
    requires Separate(a, cha, b, chb) && b.writable
    ensures a.parent != b.parent || a.name != b.name
  {
  }

  lemma WriteAllowed(L: Layout, s: State, i: nat, offset: nat, bytes: seq<Byte>, more: seq<nat>)
    requires CanGrowBy(L, s, i, offset + |bytes|, more)
    ensures GrownShape(L, s, i, offset + |bytes|, more) && i < |s.table|
    ensures CanWrite(L, Grown(L, s, i, offset + |bytes|, more), i, offset, bytes)
    ensures WriteShape(L, Grown(L, s, i, offset + |bytes|, more), i, offset, bytes)
    ensures CanRelabel(L, WriteState(L, Grown(L, s, i, offset + |bytes|, more), i, offset, bytes), i, s.table[i].name,
                       offset + |bytes|)
    ensures WriteFileShape(L, s, i, offset, bytes, more)
  {
    hide *;
    var end := offset + |bytes|;
    GrownIs(L, s, i, end, more);
    GrownRows(L, s, i, end, more);
    var s1 := Grown(L, s, i, end, more);
    CanWriteFrom(L, s1, i, offset, bytes);
    WriteStateOk(L, s1, i, offset, bytes);
    WriteStateIs(L, s1, i, offset, bytes);
    var w := WriteState(L, s1, i, offset, bytes);
    SelfNameUnique(L, w, i);
    CanRelabelIf(L, w, i, s.table[i].name, end);
    RelabelFits(L, w, i, s.table[i].name, end);
    WriteFileShapeIs(L, s, i, offset, bytes, more);
  }

  lemma CanRelabelIf(L: Layout, s: State, i: nat, name: string, size: nat)
    requires Ok(L, s) && i < |s.table| == |s.chains| && s.table[i].writable && ShortName(name)
    requires size <= s.table[i].capacity
    requires forall j :: 0 <= j < |s.table| && j != i ==> s.table[j].parent != "/" || s.table[j].name != name
    ensures CanRelabel(L, s, i, name, size)
  {
    hide Ok, ShortName;
  }

  lemma WriteFileShapeIs(L: Layout, s: State, i: nat, offset: nat, bytes: seq<Byte>, more: seq<nat>)
    requires i < |s.table| && GrownShape(L, s, i, offset + |bytes|, more)
    requires WriteShape(L, Grown(L, s, i, offset + |bytes|, more), i, offset, bytes)
    requires LabelShape(WriteState(L, Grown(L, s, i, offset + |bytes|, more), i, offset, bytes), i, s.table[i].name)
    ensures WriteFileShape(L, s, i, offset, bytes, more)
  {
    hide GrownShape, WriteShape, LabelShape, Grown, WriteState;
  }

  lemma WriteFileIs(L: Layout, s: State, i: nat, offset: nat, bytes: seq<Byte>, more: seq<nat>)
    requires WriteFileShape(L, s, i, offset, bytes, more)
    ensures GrownShape(L, s, i, offset + |bytes|, more) && i < |s.table|
    ensures WriteShape(L, Grown(L, s, i, offset + |bytes|, more), i, offset, bytes)
    ensures LabelShape(WriteState(L, Grown(L, s, i, offset + |bytes|, more), i, offset, bytes), i, s.table[i].name)
    ensures var w := WriteState(L, Grown(L, s, i, offset + |bytes|, more), i, offset, bytes);
            WriteFileState(L, s, i, offset, bytes, more)
            == if offset + |bytes| > s.table[i].size then RelabelState(L, w, i, s.table[i].name, offset + |bytes|)
              else w
  {
    hide ExtendShape, WriteShape, LabelShape, Grown, WriteState, RelabelState;
  }

  /** The rows after a write: only its own size and capacity can differ, and its chain only by clusters appended. */
  lemma WriteFileRows(L: Layout, s: State, i: nat, offset: nat, bytes: seq<Byte>, more: seq<nat>)
    requires CanGrowBy(L, s, i, offset + |bytes|, more)
    ensures WriteFileShape(L, s, i, offset, bytes, more) && i < |s.table| == |s.chains|
    ensures var s' := WriteFileState(L, s, i, offset, bytes, more);
            var end := offset + |bytes|;
            && Ok(L, s') && |s'.table| == |s'.chains| == |s.table|
            && s'.table[i].size == (if end > s.table[i].size then end else s.table[i].size)
            && s'.table == s.table[i := s.table[i].(size := s'.table[i].size, capacity := s'.table[i].capacity)]
            && (forall j :: 0 <= j < |s.table| && j != i ==> s'.chains[j] == s.chains[j])
            && s.chains[i] <= s'.chains[i] && s.chains[i] != []
  {
    hide *;
    var end := offset + |bytes|;
    WriteAllowed(L, s, i, offset, bytes, more);
    WriteFileIs(L, s, i, offset, bytes, more);
    GrownIs(L, s, i, end, more);
    GrownRows(L, s, i, end, more);
    var s1 := Grown(L, s, i, end, more);
    WriteStateOk(L, s1, i, offset, bytes);
    WriteStateIs(L, s1, i, offset, bytes);
    var w := WriteState(L, s1, i, offset, bytes);
    RelabelStateOk(L, w, i, s.table[i].name, end);
    RelabelDisk(L, w, i, s.table[i].name, end);
    RelabelOther(L, w, i, s.table[i].name, end);
  }

  /** Every other file reads as before the write. */
  lemma WriteFileOthers(L: Layout, s: State, i: nat, offset: nat, bytes: seq<Byte>, more: seq<nat>, j: nat)
    requires CanGrowBy(L, s, i, offset + |bytes|, more) && j < |s.table| == |s.chains| && j != i && s.chains[j] != []
    ensures WriteFileShape(L, s, i, offset, bytes, more)
    ensures var s' := WriteFileState(L, s, i, offset, bytes, more);
            Ok(L, s') && j < |s'.table| == |s'.chains| && s'.chains[j] == s.chains[j]
            && FileBytes(L, s', j) == FileBytes(L, s, j)
  {
    hide *;
    var end := offset + |bytes|;
    WriteFileRows(L, s, i, offset, bytes, more);
    WriteAllowed(L, s, i, offset, bytes, more);
    WriteFileIs(L, s, i, offset, bytes, more);
    GrownIs(L, s, i, end, more);
    GrownRows(L, s, i, end, more);
    GrownBytes(L, s, i, end, more, j);
    var s1 := Grown(L, s, i, end, more);
    WriteStateBytes(L, s1, i, offset, bytes, j);
    WriteStateIs(L, s1, i, offset, bytes);
    RelabelStateBytes(L, WriteState(L, s1, i, offset, bytes), i, s.table[i].name, end, j);
  }

  /** The written range holds the new bytes; the file's other bytes below its old size are unchanged. */
  lemma WriteFileBytes(L: Layout, s: State, i: nat, offset: nat, bytes: seq<Byte>, more: seq<nat>, p: nat)
    requires CanGrowBy(L, s, i, offset + |bytes|, more)
    ensures WriteFileShape(L, s, i, offset, bytes, more) && i < |s.table| == |s.chains| && s.chains[i] != []
    ensures var s' := WriteFileState(L, s, i, offset, bytes, more);
            && Ok(L, s') && i < |s'.table| == |s'.chains| && s'.chains[i] != []
            && |FileBytes(L, s', i)| ==
                 (if offset + |bytes| > s.table[i].size then offset + |bytes| else s.table[i].size)
            && (offset <= p < offset + |bytes| ==> FileBytes(L, s', i)[p] == bytes[p - offset])
            && (p < s.table[i].size && !(offset <= p < offset + |bytes|) ==>
                  FileBytes(L, s', i)[p] == FileBytes(L, s, i)[p])
  {
    hide *;
    WriteFileRows(L, s, i, offset, bytes, more);
    var end := offset + |bytes|;
    var s' := WriteFileState(L, s, i, offset, bytes, more);
    ChainsNonEmpty(s.chains[i], s'.chains[i]);
    if p < s'.table[i].size && (offset <= p < end || p < s.table[i].size) {
      WriteFileByte(L, s, i, offset, bytes, more, p);
    }
  }

  lemma ChainsNonEmpty(a: seq<nat>, b: seq<nat>)
    requires a <= b && a != []
    ensures b != []
  {
  }

  lemma WriteFileByte(L: Layout, s: State, i: nat, offset: nat, bytes: seq<Byte>, more: seq<nat>, p: nat)
    requires CanGrowBy(L, s, i, offset + |bytes|, more) && i < |s.table| == |s.chains| && s.chains[i] != []
    requires offset <= p < offset + |bytes| || p < s.table[i].size
    ensures WriteFileShape(L, s, i, offset, bytes, more)
    ensures var s' := WriteFileState(L, s, i, offset, bytes, more);
            && Ok(L, s') && i < |s'.table| == |s'.chains| && s'.chains[i] != [] && p < |FileBytes(L, s', i)|
            && FileBytes(L, s', i)[p] == if offset <= p < offset + |bytes| then bytes[p - offset]
              else FileBytes(L, s, i)[p]
  {
    hide *;
    var end := offset + |bytes|;
    WriteFileRows(L, s, i, offset, bytes, more);
    WriteAllowed(L, s, i, offset, bytes, more);
    WriteFileIs(L, s, i, offset, bytes, more);
    GrownIs(L, s, i, end, more);
    GrownRows(L, s, i, end, more);
    var s1 := Grown(L, s, i, end, more);
    WriteStateOk(L, s1, i, offset, bytes);
    WriteStateIs(L, s1, i, offset, bytes);
    WriteFits(L, s1, i, offset, bytes);
    var w := WriteState(L, s1, i, offset, bytes);
    var s' := WriteFileState(L, s, i, offset, bytes, more);
    ChainsNonEmpty(s.chains[i], s1.chains[i]);
    ChainsNonEmpty(s.chains[i], s'.chains[i]);
    FileBytesAt(L, s', i, p);
    RelabelOther(L, w, i, s.table[i].name, end);
    LabelKeepsBytes(L, w, i, s.table[i].name, end, p);
    WriteBytesReads(L.g, s1.disk, s1.chains[i], offset, bytes, p);
    if !(offset <= p < end) {
      GrownBytes(L, s, i, end, more, i);
      FileBytesAt(L, s1, i, p);
    }
  }

  /** Relabelling moves no byte along the chain. */
  lemma LabelKeepsBytes(L: Layout, s: State, i: nat, name: string, size: nat, p: nat)
    requires CanRelabel(L, s, i, name, size) && i < |s.table| == |s.chains| && Fits(L.g, |s.disk|)
    requires Clusters(L.g, s.chains[i]) && InChain(L.g, s.chains[i], p)
    ensures LabelShape(s, i, name) && |RelabelState(L, s, i, name, size).disk| == |s.disk|
    ensures RelabelState(L, s, i, name, size).chains == s.chains
    ensures FileByte(L.g, RelabelState(L, s, i, name, size).disk, s.chains[i], p) ==
              FileByte(L.g, s.disk, s.chains[i], p)
  {
    hide *;
    CanRelabelIs(L, s, i, name, size);
    RelabelFits(L, s, i, name, size);
    RelabelDisk(L, s, i, name, size);
    RelabelOther(L, s, i, name, size);
    var e := s.table[i];
    var d' := RelabelState(L, s, i, name, size).disk;
    RootWriteChanges(L, s.disk, e.dirLba, d'[e.dirLba]);
    assert d' == s.disk[e.dirLba := d'[e.dirLba]];
    ChangesFat(L.g, L.bc, s.disk, d', {}, {}, Elements(L.rc));
    RowMissesRoot(L, s, i);
    FileByteFrame(L.g, s.disk, d', s.chains[i], Elements(L.rc), p);
  }
}
