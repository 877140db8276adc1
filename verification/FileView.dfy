/** The mounted volume seen as a table of named byte arrays, and the abstract operations on that table. */
module FileView {
  import opened Bytes
  import opened Arithmetic
  import opened Volume
  import opened Frames
  import opened Chains
  import opened Options
  import opened Paths
  import opened FileSystem
  import opened FileOps
  import opened CreateUnlink
  import opened Search
  import opened CreateSpec
  import opened WriteSpec

  datatype File = File(name: string, bytes: seq<Byte>)

  /** What row `j` shows: a writable file's name and bytes, or nothing. */
  ghost function ViewAt(L: Layout, s: State, j: nat): (f: Option<File>)
    requires Ok(L, s) && j < |s.table| == |s.chains|
  {
    if s.table[j].writable && s.chains[j] != [] then Some(File(s.table[j].name, FileBytes(L, s, j))) else None
  }

  ghost function Files(L: Layout, s: State): (v: seq<Option<File>>)
    requires Ok(L, s)
    ensures |v| == |s.table| == |s.chains|
    ensures forall j: nat :: j < |v| ==> v[j] == ViewAt(L, s, j)
  {
    OkSizes(L, s);
    seq(|s.table|, j requires 0 <= j < |s.table| => ViewAt(L, s, j))
  }

  lemma OkSizes(L: Layout, s: State)
    requires Ok(L, s)
    ensures |s.table| == |s.chains|
  {
    OkParts(L, s);
    hide Ok, BaseOk, LayoutOk, TableOk, AddedOk;
  }

  /** Rows that cannot be written keep their fields, their chains and their bytes. */
  ghost predicate StaticSame(L: Layout, s: State, s': State) {
    && Ok(L, s) && Ok(L, s') && |s.table| == |s.chains| <= |s'.table| == |s'.chains|
    && forall j: nat :: j < |s.table| && !s.table[j].writable ==> RowSame(L, s, s', j)
  }

  ghost predicate RowSame(L: Layout, s: State, s': State, j: nat) {
    && Ok(L, s) && Ok(L, s') && j < |s.table| == |s.chains| && j < |s'.table| == |s'.chains|
    && s'.table[j] == s.table[j] && s'.chains[j] == s.chains[j]
    && (s.chains[j] != [] ==> FileBytes(L, s', j) == FileBytes(L, s, j))
  }

  lemma StaticTrans(L: Layout, a: State, b: State, c: State)
    requires StaticSame(L, a, b) && StaticSame(L, b, c)
    ensures StaticSame(L, a, c)
  {
    hide Ok, FileBytes;
    forall j: nat | j < |a.table| && !a.table[j].writable ensures RowSame(L, a, c, j) {
      assert RowSame(L, a, b, j);
      assert RowSame(L, b, c, j);
    }
  }

  lemma RowSameView(L: Layout, s: State, s': State, j: nat)
    requires RowSame(L, s, s', j)
    ensures Ok(L, s) && Ok(L, s') && j < |s.table| == |s.chains| && j < |s'.table| == |s'.chains|
    ensures ViewAt(L, s', j) == ViewAt(L, s, j)
  {
    hide Ok, FileBytes;
  }

  /** A state that differs from `s` in row `i` only. */
  lemma ViewReplace(L: Layout, s: State, s': State, i: nat)
    requires Ok(L, s) && Ok(L, s') && i < |s.table| == |s.chains| == |s'.table| == |s'.chains| && s.table[i].writable
    requires forall j: nat :: j < |s.table| && j != i ==> RowSame(L, s, s', j)
    ensures Files(L, s') == Files(L, s)[i := ViewAt(L, s', i)] && StaticSame(L, s, s')
  {
    hide Ok, FileBytes, RowSame, ViewAt;
    forall j: nat | j < |s.table| && j != i ensures ViewAt(L, s', j) == ViewAt(L, s, j) {
      RowSameView(L, s, s', j);
    }
  }

  lemma RowSameIs(L: Layout, s: State, s': State, j: nat)
    requires Ok(L, s) && Ok(L, s') && j < |s.table| == |s.chains| && j < |s'.table| == |s'.chains|
    requires s'.table[j] == s.table[j] && s'.chains[j] == s.chains[j]
    requires s.chains[j] != [] ==> FileBytes(L, s', j) == FileBytes(L, s, j)
    ensures RowSame(L, s, s', j)
  {
    hide Ok, FileBytes;
  }

  // ---------- the view after each operation ----------

  lemma WriteFileView(L: Layout, s: State, i: nat, offset: nat, bytes: seq<Byte>, more: seq<nat>)
    requires CanGrowBy(L, s, i, offset + |bytes|, more)
    ensures WriteFileShape(L, s, i, offset, bytes, more) && Ok(L, s) && i < |s.table| == |s.chains|
    ensures var s' := WriteFileState(L, s, i, offset, bytes, more);
            && Ok(L, s') && i < |s'.table| == |s'.chains|
            && Files(L, s') == Files(L, s)[i := ViewAt(L, s', i)] && StaticSame(L, s, s')
  {
    hide *;
    GrownIs(L, s, i, offset + |bytes|, more);
    WriteFileRows(L, s, i, offset, bytes, more);
    var s' := WriteFileState(L, s, i, offset, bytes, more);
    forall j: nat | j < |s.table| && j != i ensures RowSame(L, s, s', j) {
      if s.chains[j] != [] { WriteFileOthers(L, s, i, offset, bytes, more, j); }
      RowSameIs(L, s, s', j);
    }
    ViewReplace(L, s, s', i);
  }

  lemma RelabelView(L: Layout, s: State, i: nat, name: string, size: nat)
    requires CanRelabel(L, s, i, name, size)
    ensures LabelShape(s, i, name) && Ok(L, s) && i < |s.table| == |s.chains|
    ensures var s' := RelabelState(L, s, i, name, size);
            && Ok(L, s') && i < |s'.table| == |s'.chains|
            && Files(L, s') == Files(L, s)[i := ViewAt(L, s', i)] && StaticSame(L, s, s')
  {
    hide *;
    CanRelabelIs(L, s, i, name, size);
    RelabelStateOk(L, s, i, name, size);
    RelabelDisk(L, s, i, name, size);
    RelabelOther(L, s, i, name, size);
    var s' := RelabelState(L, s, i, name, size);
    forall j: nat | j < |s.table| && j != i ensures RowSame(L, s, s', j) {
      if s.chains[j] != [] { RelabelStateBytes(L, s, i, name, size, j); }
      RowSameIs(L, s, s', j);
    }
    ViewReplace(L, s, s', i);
  }

  lemma UnlinkView(L: Layout, s: State, i: nat)
    requires Ok(L, s) && i < |s.table| && s.table[i].writable
    ensures UnlinkShape(L, s, i) && |s.table| == |s.chains|
    ensures var s' := UnlinkState(L, s, i);
            Ok(L, s') && Files(L, s') == Files(L, s)[i := None] && StaticSame(L, s, s')
  {
    hide *;
    OkSizes(L, s);
    UnlinkStateOk(L, s, i);
    UnlinkIs(L, s, i);
    var s' := UnlinkState(L, s, i);
    forall j: nat | j < |s.table| && j != i ensures RowSame(L, s, s', j) {
      if s.chains[j] != [] { UnlinkStateBytes(L, s, i, j); }
      RowSameIs(L, s, s', j);
    }
    ViewReplace(L, s, s', i);
    BlankView(L, s', i);
  }

  lemma BlankView(L: Layout, s: State, i: nat)
    requires Ok(L, s) && i < |s.table| == |s.chains| && s.chains[i] == []
    ensures ViewAt(L, s, i) == None
  {
    hide Ok;
  }

  lemma CreateView(L: Layout, s: State, path: string, n: nat, run: seq<nat>, slot: nat)
    requires CanCreate(L, s, path, n, run, slot) && |s.table| < MAX_ENTRIES
    ensures CreateShape(L, s, path, run, slot) && Ok(L, s) && path != "" && |s.table| == |s.chains|
    ensures var s' := CreateState(L, s, path, run, slot);
            Ok(L, s') && Files(L, s') == Files(L, s) + [Some(File(path[1..], []))] && StaticSame(L, s, s')
  {
    hide *;
    CanCreateRun(L, s, path, n, run, slot);
    OkSizes(L, s);
    CreateStateOk(L, s, path, n, run, slot);
    CreateStateRows(L, s, path, n, run, slot);
    var s' := CreateState(L, s, path, run, slot);
    OkSizes(L, s');
    forall j: nat | j < |s.table| ensures RowSame(L, s, s', j) {
      assert s'.table[j] == s'.table[..|s.table|][j];
      if s.chains[j] != [] { CreateStateBytes(L, s, path, n, run, slot, j); }
      RowSameIs(L, s, s', j);
    }
    ViewAppend(L, s, s');
    NewView(L, s', |s.table|);
  }

  lemma ViewAppend(L: Layout, s: State, s': State)
    requires Ok(L, s) && Ok(L, s') && |s.table| == |s.chains| && |s'.table| == |s'.chains| == |s.table| + 1
    requires forall j: nat :: j < |s.table| ==> RowSame(L, s, s', j)
    ensures Files(L, s') == Files(L, s) + [ViewAt(L, s', |s.table|)] && StaticSame(L, s, s')
  {
    hide Ok, FileBytes, RowSame, ViewAt;
    forall j: nat | j < |s.table| ensures ViewAt(L, s', j) == ViewAt(L, s, j) {
      RowSameView(L, s, s', j);
    }
  }

  lemma NewView(L: Layout, s: State, i: nat)
    requires Ok(L, s) && i < |s.table| == |s.chains| && s.table[i].writable && s.chains[i] != [] && s.table[i].size == 0
    ensures ViewAt(L, s, i) == Some(File(s.table[i].name, []))
  {
    hide Ok;
    assert |FileBytes(L, s, i)| == 0;
  }

  lemma LeakView(L: Layout, s: State, path: string, n: nat, run: seq<nat>, slot: nat)
    requires CanCreate(L, s, path, n, run, slot)
    ensures CreateShape(L, s, path, run, slot) && Ok(L, s)
    ensures var s' := LeakState(L, s, path, run, slot);
            Ok(L, s') && Files(L, s') == Files(L, s) && StaticSame(L, s, s')
  {
    hide *;
    CanCreateRun(L, s, path, n, run, slot);
    OkSizes(L, s);
    CreateStateOk(L, s, path, n, run, slot);
    LeakRows(L, s, path, n, run, slot);
    var s' := LeakState(L, s, path, run, slot);
    OkSizes(L, s');
    forall j: nat | j < |s.table| ensures RowSame(L, s, s', j) {
      if s.chains[j] != [] { CreateStateBytes(L, s, path, n, run, slot, j); }
      RowSameIs(L, s, s', j);
    }
    ViewSame(L, s, s');
  }

  lemma LeakRows(L: Layout, s: State, path: string, n: nat, run: seq<nat>, slot: nat)
    requires CanCreate(L, s, path, n, run, slot) && CreateShape(L, s, path, run, slot)
    ensures LeakState(L, s, path, run, slot).table == s.table && LeakState(L, s, path, run, slot).chains == s.chains
  {
    hide *;
    CanCreateRun(L, s, path, n, run, slot);
    CreateIs(L, s, path, run, slot);
    AllocParts(L, s, run);
    OrphanParts(AllocState(L, s, run), RootLba(L, |s.disk|, slot / 16), slot % 16 * 32, path[1..], run);
  }

  lemma ViewSame(L: Layout, s: State, s': State)
    requires Ok(L, s) && Ok(L, s') && |s.table| == |s.chains| == |s'.table| == |s'.chains|
    requires forall j: nat :: j < |s.table| ==> RowSame(L, s, s', j)
    ensures Files(L, s') == Files(L, s) && StaticSame(L, s, s')
  {
    hide Ok, FileBytes, RowSame, ViewAt;
    forall j: nat | j < |s.table| ensures ViewAt(L, s', j) == ViewAt(L, s, j) {
      RowSameView(L, s, s', j);
    }
  }

  // ---------- abstract operations ----------

  datatype Op =
    | WriteOp(path: string, offset: nat, bytes: seq<Byte>)
    | TruncateOp(path: string, size: nat)
    | UnlinkOp(path: string)

  /** Slot `i` of the table holds the file that `path` names. */
  predicate Named(v: seq<Option<File>>, i: nat, path: string) {
    i < |v| && v[i].Some? && (path == "/" + v[i].value.name || path == "//" + v[i].value.name)
  }

  ghost predicate Unnamed(v: seq<Option<File>>, path: string) {
    forall i: nat :: !Named(v, i, path)
  }

  ghost predicate Written(f: Option<File>, f': Option<File>, offset: nat, bytes: seq<Byte>) {
    && f.Some? && f'.Some? && f'.value.name == f.value.name
    && |f'.value.bytes| == (if offset + |bytes| > |f.value.bytes| then offset + |bytes| else |f.value.bytes|)
    && (forall p: nat :: offset <= p < offset + |bytes| ==> f'.value.bytes[p] == bytes[p - offset])
    && (forall p: nat :: p < |f.value.bytes| && !(offset <= p < offset + |bytes|) ==>
          f'.value.bytes[p] == f.value.bytes[p])
  }

  ghost predicate Resized(f: Option<File>, f': Option<File>, size: nat) {
    && f.Some? && f'.Some? && f'.value.name == f.value.name && |f'.value.bytes| == size
    && (forall p: nat :: p < size && p < |f.value.bytes| ==> f'.value.bytes[p] == f.value.bytes[p])
  }

  /** `v'` is `v` with slot `i` replaced. */
  ghost predicate Only(v: seq<Option<File>>, v': seq<Option<File>>, i: nat) {
    i < |v| == |v'| && forall j: nat :: j < |v| && j != i ==> v'[j] == v[j]
  }

  /** What an operation may do to the table of files, given its outcome. */
  ghost predicate Step(v: seq<Option<File>>, op: Op, ok: bool, v': seq<Option<File>>) {
    match op
    case WriteOp(path, offset, bytes) =>
      if ok then
        || (exists i: nat :: Named(v, i, path) && Only(v, v', i) && Written(v[i], v'[i], offset, bytes))
        || (Unnamed(v, path) && offset == 0 && path != "" && v' == v + [Some(File(path[1..], bytes))])
      else v' == v
    case UnlinkOp(path) =>
      if ok then exists i: nat :: Named(v, i, path) && v' == v[i := None] else v' == v
    case TruncateOp(path, size) =>
      if ok then
        || (exists i: nat :: Named(v, i, path) && Only(v, v', i) && Resized(v[i], v'[i], size))
        || (exists f: File :: Unnamed(v, path) && path == "/" + f.name && |f.bytes| == size && v' == v + [Some(f)])
        || (exists i: nat :: Unnamed(v, path) && Renamed(v, v', i, path, size))
      else
        || v' == v
        || (exists i: nat :: Unnamed(v, path) && Renamed(v, v', i, path, 0))
  }

  /** The empty initial file took the path as its name and got `size` bytes. */
  ghost predicate Renamed(v: seq<Option<File>>, v': seq<Option<File>>, i: nat, path: string, size: nat) {
    && Only(v, v', i) && v[i].Some? && v[i].value.bytes == [] && v'[i].Some?
    && path == "/" + v'[i].value.name && |v'[i].value.bytes| == size
  }

  // ---------- the methods' states refine the abstract operations ----------

  lemma LookupNamed(L: Layout, s: State, path: string, i: nat)
    requires Ok(L, s) && LookupPath(s.table, path) == Some(i) && s.table[i].writable
    ensures Named(Files(L, s), i, path)
  {
    OkSizes(L, s);
    OkWritable(L, s, i);
    ShapeParts(L, |s.disk|, s.table[i], s.chains[i]);
    RootKey(path, s.table[i].name);
    hide Ok, FileBytes, LayoutOk, FileOk, FileShape, Clusters, Misses, InRoot, ShortName, Capacity, PathKey;
  }

  lemma LookupUnnamed(L: Layout, s: State, path: string)
    requires Ok(L, s) && LookupPath(s.table, path) == None
    ensures Unnamed(Files(L, s), path)
  {
    hide FileBytes, PathKey;
    forall i: nat | i < |s.table| ensures !Named(Files(L, s), i, path) {
      RowParent(L, s, i);
      if s.table[i].writable { RootKey(path, s.table[i].name); }
      assert PathKey(path).Some? ==> !Matches(s.table[i], PathKey(path).value);
    }
  }

  lemma RowParent(L: Layout, s: State, i: nat)
    requires Ok(L, s) && i < |s.table|
    ensures s.table[i].writable ==> s.table[i].parent == "/" && ShortName(s.table[i].name)
  {
    if s.table[i].writable {
      OkWritable(L, s, i);
      ShapeParts(L, |s.disk|, s.table[i], s.chains[i]);
    }
    hide Ok, LayoutOk, FileOk, FileShape, Clusters, Misses, InRoot, ShortName, Capacity;
  }

  lemma WriteFileWritten(L: Layout, s: State, i: nat, offset: nat, bytes: seq<Byte>, more: seq<nat>)
    requires CanGrowBy(L, s, i, offset + |bytes|, more)
    ensures WriteFileShape(L, s, i, offset, bytes, more) && Ok(L, s) && i < |s.table| == |s.chains|
    ensures var s' := WriteFileState(L, s, i, offset, bytes, more);
            && Ok(L, s') && i < |s'.table| == |s'.chains|
            && Written(ViewAt(L, s, i), ViewAt(L, s', i), offset, bytes)
  {
    hide *;
    GrownIs(L, s, i, offset + |bytes|, more);
    WriteFileRows(L, s, i, offset, bytes, more);
    var s' := WriteFileState(L, s, i, offset, bytes, more);
    ChainsNonEmpty(s.chains[i], s'.chains[i]);
    ViewIs(L, s, i);
    ViewIs(L, s', i);
    var f, f' := ViewAt(L, s, i), ViewAt(L, s', i);
    forall p: nat
      ensures offset <= p < offset + |bytes| ==> p < |f'.value.bytes| && f'.value.bytes[p] == bytes[p - offset]
      ensures p < |f.value.bytes| && !(offset <= p < offset + |bytes|) ==>
                p < |f'.value.bytes| && f'.value.bytes[p] == f.value.bytes[p]
    {
      WriteFileBytes(L, s, i, offset, bytes, more, p);
    }
    WrittenIs(f, f', offset, bytes);
  }

  lemma WrittenIs(f: Option<File>, f': Option<File>, offset: nat, bytes: seq<Byte>)
    requires f.Some? && f'.Some? && f'.value.name == f.value.name
    requires |f'.value.bytes| == (if offset + |bytes| > |f.value.bytes| then offset + |bytes| else |f.value.bytes|)
    requires forall p: nat :: offset <= p < offset + |bytes| ==> f'.value.bytes[p] == bytes[p - offset]
    requires forall p: nat :: p < |f.value.bytes| && !(offset <= p < offset + |bytes|) ==>
               f'.value.bytes[p] == f.value.bytes[p]
    ensures Written(f, f', offset, bytes)
  {
  }

  lemma ViewIs(L: Layout, s: State, i: nat)
    requires Ok(L, s) && i < |s.table| == |s.chains| && s.table[i].writable && s.chains[i] != []
    ensures ViewAt(L, s, i) == Some(File(s.table[i].name, FileBytes(L, s, i)))
    ensures |FileBytes(L, s, i)| == s.table[i].size
  {
    hide Ok;
  }

  /** A write to an existing file is the abstract write. */
  lemma ExistingWriteStep(L: Layout, s: State, path: string, offset: nat, bytes: seq<Byte>, i: nat, more: seq<nat>)
    requires LookupPath(s.table, path) == Some(i) && CanGrowBy(L, s, i, offset + |bytes|, more)
    ensures WriteFileShape(L, s, i, offset, bytes, more) && Ok(L, s)
    ensures var s' := WriteFileState(L, s, i, offset, bytes, more);
            Ok(L, s') && Step(Files(L, s), WriteOp(path, offset, bytes), true, Files(L, s')) && StaticSame(L, s, s')
  {
    hide *;
    GrownIs(L, s, i, offset + |bytes|, more);
    WriteFileView(L, s, i, offset, bytes, more);
    WriteFileWritten(L, s, i, offset, bytes, more);
    LookupNamed(L, s, path, i);
    var s' := WriteFileState(L, s, i, offset, bytes, more);
    StepWritten(Files(L, s), Files(L, s'), path, offset, bytes, i);
  }

  lemma StepWritten(v: seq<Option<File>>, v': seq<Option<File>>, path: string, offset: nat, bytes: seq<Byte>, i: nat)
    requires Named(v, i, path) && i < |v| && |v'| == |v| && v' == v[i := v'[i]] && Written(v[i], v'[i], offset, bytes)
    ensures Step(v, WriteOp(path, offset, bytes), true, v')
  {
    hide Named, Written;
    assert Only(v, v', i);
  }

  /** Creating a file and writing it from offset 0 appends exactly the written bytes under the new name. */
  lemma NewWriteStep(L: Layout, s: State, path: string, bytes: seq<Byte>, n: nat, run: seq<nat>, slot: nat,
                     more: seq<nat>)
    requires CanCreate(L, s, path, n, run, slot) && |s.table| < MAX_ENTRIES && CreateShape(L, s, path, run, slot)
    requires CanGrowBy(L, CreateState(L, s, path, run, slot), |s.table|, 0 + |bytes|, more)
    requires WriteFileShape(L, CreateState(L, s, path, run, slot), |s.table|, 0, bytes, more)
    ensures Ok(L, s)
    ensures var s' := WriteFileState(L, CreateState(L, s, path, run, slot), |s.table|, 0, bytes, more);
            Ok(L, s') && Step(Files(L, s), WriteOp(path, 0, bytes), true, Files(L, s')) && StaticSame(L, s, s')
  {
    hide *;
    CreateView(L, s, path, n, run, slot);
    CanCreateLookup(L, s, path, n, run, slot);
    LookupUnnamed(L, s, path);
    var s1 := CreateState(L, s, path, run, slot);
    WriteFileView(L, s1, |s.table|, 0, bytes, more);
    WriteFileWritten(L, s1, |s.table|, 0, bytes, more);
    var s' := WriteFileState(L, s1, |s.table|, 0, bytes, more);
    StaticTrans(L, s, s1, s');
    StepNew(Files(L, s), Files(L, s1), Files(L, s'), path, bytes);
  }

  lemma CanCreateLookup(L: Layout, s: State, path: string, n: nat, run: seq<nat>, slot: nat)
    requires CanCreate(L, s, path, n, run, slot)
    ensures Ok(L, s) && LookupPath(s.table, path) == None && path != "" && ShortPath(path)
  {
    hide Ok, ShortName, LookupPath, ChosenRun, ChosenSlot;
  }

  lemma StepNew(v: seq<Option<File>>, v1: seq<Option<File>>, v': seq<Option<File>>, path: string, bytes: seq<Byte>)
    requires Unnamed(v, path) && path != "" && v1 == v + [Some(File(path[1..], []))]
    requires |v'| == |v1| && v' == v1[|v| := v'[|v|]] && Written(v1[|v|], v'[|v|], 0, bytes)
    ensures Step(v, WriteOp(path, 0, bytes), true, v')
  {
    hide Unnamed;
    var f := v'[|v|].value;
    assert f.bytes == bytes;
    assert v' == v + [Some(File(path[1..], bytes))];
  }

  lemma UnlinkStep(L: Layout, s: State, path: string, i: nat)
    requires Ok(L, s) && LookupPath(s.table, path) == Some(i) && s.table[i].writable && UnlinkShape(L, s, i)
    ensures var s' := UnlinkState(L, s, i);
            Ok(L, s') && Step(Files(L, s), UnlinkOp(path), true, Files(L, s')) && StaticSame(L, s, s')
  {
    hide *;
    UnlinkView(L, s, i);
    LookupNamed(L, s, path, i);
    StepGone(Files(L, s), Files(L, UnlinkState(L, s, i)), path, i);
  }

  lemma StepGone(v: seq<Option<File>>, v': seq<Option<File>>, path: string, i: nat)
    requires Named(v, i, path) && i < |v| && v' == v[i := None]
    ensures Step(v, UnlinkOp(path), true, v')
  {
    hide Named;
  }

  lemma RelabelResized(L: Layout, s: State, i: nat, name: string, size: nat)
    requires CanRelabel(L, s, i, name, size)
    ensures LabelShape(s, i, name) && Ok(L, s) && i < |s.table| == |s.chains|
    ensures var s' := RelabelState(L, s, i, name, size);
            && Ok(L, s') && i < |s'.table| == |s'.chains|
            && ViewAt(L, s, i).Some? && ViewAt(L, s', i).Some? && ViewAt(L, s', i).value.name == name
            && ViewAt(L, s, i).value.name == s.table[i].name && |ViewAt(L, s, i).value.bytes| == s.table[i].size
            && |ViewAt(L, s', i).value.bytes| == size
            && (name == s.table[i].name ==> Resized(ViewAt(L, s, i), ViewAt(L, s', i), size))
  {
    hide *;
    CanRelabelIs(L, s, i, name, size);
    OkWritable(L, s, i);
    RelabelStateOk(L, s, i, name, size);
    RelabelDisk(L, s, i, name, size);
    RelabelOther(L, s, i, name, size);
    RelabelStateBytes(L, s, i, name, size, i);
    var s' := RelabelState(L, s, i, name, size);
    ViewIs(L, s, i);
    ViewIs(L, s', i);
    if name == s.table[i].name {
      ResizedIs(ViewAt(L, s, i), ViewAt(L, s', i), size);
    }
  }

  lemma ResizedIs(f: Option<File>, f': Option<File>, size: nat)
    requires f.Some? && f'.Some? && f'.value.name == f.value.name && |f'.value.bytes| == size
    requires forall p: nat :: p < |f.value.bytes| && p < size ==> f'.value.bytes[p] == f.value.bytes[p]
    ensures Resized(f, f', size)
  {
  }

  /** Truncating an existing file is the abstract resize. */
  lemma ExistingTruncateStep(L: Layout, s: State, path: string, size: nat, i: nat)
    requires LookupPath(s.table, path) == Some(i) && CanRelabel(L, s, i, s.table[i].name, size)
    ensures LabelShape(s, i, s.table[i].name) && Ok(L, s)
    ensures var s' := RelabelState(L, s, i, s.table[i].name, size);
            Ok(L, s') && Step(Files(L, s), TruncateOp(path, size), true, Files(L, s')) && StaticSame(L, s, s')
  {
    hide *;
    CanRelabelIs(L, s, i, s.table[i].name, size);
    RelabelView(L, s, i, s.table[i].name, size);
    RelabelResized(L, s, i, s.table[i].name, size);
    LookupNamed(L, s, path, i);
    var s' := RelabelState(L, s, i, s.table[i].name, size);
    StepResized(Files(L, s), Files(L, s'), path, size, i);
  }

  lemma StepResized(v: seq<Option<File>>, v': seq<Option<File>>, path: string, size: nat, i: nat)
    requires Named(v, i, path) && i < |v| && |v'| == |v| && v' == v[i := v'[i]] && Resized(v[i], v'[i], size)
    ensures Step(v, TruncateOp(path, size), true, v')
  {
    hide Named, Resized;
    assert Only(v, v', i);
  }

  /** A failed operation that left the table of files alone. */
  lemma StepRefused(v: seq<Option<File>>, op: Op)
    ensures Step(v, op, false, v)
  {
  }

  lemma StaticRefl(L: Layout, s: State)
    requires Ok(L, s)
    ensures StaticSame(L, s, s)
  {
    OkSizes(L, s);
    hide Ok, FileBytes;
  }
}
