/** Reading the whole root directory, as a mount does: every file of the write path is found there again. */
module RootScan {
  import opened Bytes
  import opened Arithmetic
  import opened Volume
  import opened Frames
  import opened Chains
  import opened Options
  import opened Paths
  import opened EntrySet
  import opened DirectoryParser
  import opened Transaction
  import opened FileSystem
  import opened FileOps
  import opened CreateUnlink
  import opened Search
  import opened CreateSpec
  import opened WriteSpec

  // ---------- one sector ----------

  /** The type byte of directory entry `k`. */
  function TypeOf(t: Sector, k: nat): (b: Byte)
    requires k < 16
  {
    t[k * 32]
  }

  /** How many secondary entries entry `k` announces. */
  function CountOf(t: Sector, k: nat): (n: nat)
    requires k < 16
  {
    t[k * 32 + 1] as int
  }

  const FILE_ENTRY: Byte := 0x85

  /** A secondary entry: part of the set that started before it. */
  predicate Secondary(b: Byte) {
    0xc0 <= b
  }

  /** What a file entry announces as its secondary entries are secondary entries, as far as this sector goes. */
  ghost predicate Tidy(t: Sector) {
    forall k: nat, i: nat :: k < i < 16 && TypeOf(t, k) == FILE_ENTRY && i <= k + CountOf(t, k) ==>
      Secondary(TypeOf(t, i))
  }

  lemma SlotIs(t: Sector, k: nat)
    requires k < 16
    ensures Slot(t, k)[0] == TypeOf(t, k) && Slot(t, k)[1] as int == CountOf(t, k)
  {
  }

  lemma Types(b: Byte)
    ensures Secondary(b) ==> SlotUsed(b) && b != FILE_ENTRY && b != 0
    ensures b == FILE_ENTRY ==> SlotUsed(b)
    ensures b == 0 ==> !SlotUsed(b)
    ensures SlotUsed(b) ==> b & 0x7f != FILE_ENTRY
    ensures b == FILE_ENTRY || b == 0xc0 || b == 0xc1 ==> b & 0x7f != 0
  {
  }

  /** The parser comes to every file entry that no end mark precedes. */
  lemma {:induction false} ParseReaches(t: Sector, from: nat, k: nat)
    requires Tidy(t) && from <= k < 16 && TypeOf(t, k) == FILE_ENTRY && ParseSet(t, k).name != ""
    requires forall i: nat :: i < k ==> TypeOf(t, i) != 0
    ensures ParseSet(t, k) in ParseFrom(t, from).0
    decreases k - from
  {
    hide ParseSet, Slot, TypeOf, CountOf;
    SlotIs(t, from);
    Types(TypeOf(t, k));
    if from < k && TypeOf(t, from) == FILE_ENTRY {
      ParseReaches(t, from + CountOf(t, from) + 1, k);
    } else if from < k {
      ParseReaches(t, from + 1, k);
    }
  }

  /** Without an end mark the parser does not stop. */
  lemma {:induction false} ParseGoesOn(t: Sector, from: nat)
    requires forall i: nat :: i < 16 ==> TypeOf(t, i) != 0
    ensures !ParseFrom(t, from).1
    decreases 16 - from
  {
    hide ParseSet, Slot, TypeOf, CountOf;
    if from < 16 {
      SlotIs(t, from);
      ParseGoesOn(t, from + 1);
      ParseGoesOn(t, from + CountOf(t, from) + 1);
    }
  }

  // ---------- the whole directory ----------

  ghost predicate RootReady(L: Layout, n: nat) {
    LayoutOk(L, n) && Fits(L.g, n) && Clusters(L.g, L.rc)
  }

  lemma RootReadyFrom(L: Layout, n: nat)
    requires LayoutOk(L, n)
    ensures RootReady(L, n)
  {
    LayoutParts(L, n);
    hide LayoutOk, Fits, Clusters;
  }

  /** Sector `u` of the root directory. */
  function SectorAt(L: Layout, d: Disk, u: nat): (t: Sector)
    requires RootReady(L, |d|) && u < RootSectors(L)
  {
    RootLbaBounds(L, |d|, u);
    d[RootLba(L, |d|, u)]
  }

  /** The sets found from sector `u` on, up to the end mark. */
  ghost function Scan(L: Layout, d: Disk, u: nat): (found: seq<Parsed>)
    requires RootReady(L, |d|)
    decreases RootSectors(L) - u
  {
    if u >= RootSectors(L) then []
    else
      var r := ParseFrom(SectorAt(L, d, u), 0);
      if r.1 then r.0 else r.0 + Scan(L, d, u + 1)
  }

  lemma ScanEmpty(all: seq<Parsed>)
    ensures [] + all == all
  {
  }

  /** One sector of the scan, read at address `lba`. */
  lemma ScanStep(L: Layout, d: Disk, u: nat, lba: nat, found: seq<Parsed>)
    requires RootReady(L, |d|) && u < RootSectors(L) && Fits(L.g, |d|) && Clusters(L.g, L.rc)
    requires lba == RootLba(L, |d|, u) && lba < |d|
    ensures var r := ParseFrom(d[lba], 0);
            found + Scan(L, d, u) == if r.1 then found + r.0 else found + r.0 + Scan(L, d, u + 1)
  {
    hide LayoutOk, RootLba, Clusters, Fits, ParseFrom;
    SectorIs(L, d, u);
  }

  lemma ScanEnd(L: Layout, d: Disk, u: nat, found: seq<Parsed>)
    requires RootReady(L, |d|) && u >= RootSectors(L)
    ensures found + Scan(L, d, u) == found
  {
    hide RootReady;
  }

  /** An end mark at entry `k` of sector `u`. */
  ghost predicate EndAt(L: Layout, d: Disk, u: nat, k: nat) {
    RootReady(L, |d|) && u < RootSectors(L) && k < 16 && TypeOf(SectorAt(L, d, u), k) == 0
  }

  predicate NotAfter(L: Layout, u: nat, k: nat, v: nat, m: nat) {
    v < RootSectors(L) && m < 16 && (u < v || (u == v && k <= m))
  }

  /** After an end mark there are only end marks. */
  ghost predicate EndsOnce(L: Layout, d: Disk) {
    forall u: nat, k: nat, v: nat, m: nat :: EndAt(L, d, u, k) && NotAfter(L, u, k, v, m) ==> EndAt(L, d, v, m)
  }

  /** The root directory is one the parser can follow. */
  ghost predicate DirOk(L: Layout, d: Disk) {
    && RootReady(L, |d|) && EndsOnce(L, d)
    && forall u: nat :: u < RootSectors(L) ==> Tidy(SectorAt(L, d, u))
  }

  /** The scan comes to every file entry. */
  lemma {:induction false} ScanReaches(L: Layout, d: Disk, from: nat, u: nat, k: nat)
    requires DirOk(L, d) && from <= u < RootSectors(L) && k < 16
    requires TypeOf(SectorAt(L, d, u), k) == FILE_ENTRY && ParseSet(SectorAt(L, d, u), k).name != ""
    ensures ParseSet(SectorAt(L, d, u), k) in Scan(L, d, from)
    decreases u - from
  {
    hide RootReady, SectorAt, ParseSet, ParseFrom, Tidy, RootSectors;
    var t := SectorAt(L, d, from);
    if from == u {
      forall i: nat | i < k ensures TypeOf(t, i) != 0 { NoEndBefore(L, d, u, i, u, k); }
      assert Tidy(t);
      ParseReaches(t, 0, k);
    } else {
      forall i: nat | i < 16 ensures TypeOf(t, i) != 0 { NoEndBefore(L, d, from, i, u, k); }
      ParseGoesOn(t, 0);
      ScanReaches(L, d, from + 1, u, k);
    }
  }

  lemma NoEndBefore(L: Layout, d: Disk, u: nat, k: nat, v: nat, m: nat)
    requires DirOk(L, d) && u < RootSectors(L) && k < 16 && NotAfter(L, u, k, v, m)
    requires TypeOf(SectorAt(L, d, v), m) == FILE_ENTRY
    ensures TypeOf(SectorAt(L, d, u), k) != 0
  {
    hide RootReady, SectorAt, Tidy, RootSectors;
    assert EndAt(L, d, u, k) ==> EndAt(L, d, v, m);
  }

  // ---------- every file is found ----------

  /** The number of a root directory sector. */
  lemma SectorNumberOf(L: Layout, n: nat, lba: nat) returns (u: nat)
    requires RootReady(L, n) && InRoot(L, n, lba)
    ensures u < RootSectors(L) && RootLba(L, n, u) == lba
  {
    var i :| 0 <= i < |L.rc| && ClusterLba(L.g, L.rc[i]) <= lba < ClusterLba(L.g, L.rc[i]) + L.g.sectorsPerCluster;
    var k := lba - ClusterLba(L.g, L.rc[i]);
    hide LayoutOk, Fits, ClusterLba, InRoot;
    RowBelow(i, |L.rc|, L.g.sectorsPerCluster);
    u := i * L.g.sectorsPerCluster + k;
    DivModUnique(u, L.g.sectorsPerCluster, i, k);
  }

  lemma ShortIsPrintable(name: string)
    requires ShortName(name)
    ensures Printable(name) && 0 < |name| <= 15
  {
    ShortNameShape(name);
    hide ShortName;
  }

  lemma RowPlace(L: Layout, s: State, i: nat)
    requires Ok(L, s) && i < |s.table| && s.table[i].writable
    ensures |s.table| == |s.chains| && RootReady(L, |s.disk|) && InRoot(L, |s.disk|, s.table[i].dirLba)
    ensures s.table[i].dirLba < |s.disk|
    ensures s.table[i].dirOff % 32 == 0 && s.table[i].dirOff + 96 <= 512 && ShortName(s.table[i].name)
    ensures DirSet(s.disk, s.table[i]) && s.table[i].first < 0x1_0000_0000 && s.table[i].size < 0x1_0000_0000_0000_0000
  {
    OkParts(L, s);
    OkWritable(L, s, i);
    RootReadyFrom(L, |s.disk|);
    FileOkParts(L, s.disk, s.table[i], s.chains[i]);
    ShapeParts(L, |s.disk|, s.table[i], s.chains[i]);
    RowNumbers(L, |s.disk|, s.table[i], s.chains[i]);
    hide Ok, BaseOk, LayoutOk, TableOk, AddedOk, FileOk, FileShape, Clusters, Misses, Linked, Ends, EncodedSet,
         ShortName, Fits, RootReady, InRoot;
  }

  lemma RowNumbers(L: Layout, n: nat, e: Entry, ch: seq<nat>)
    requires LayoutOk(L, n) && FileShape(L, n, e, ch)
    ensures e.first < 0x1_0000_0000 && e.size < 0x1_0000_0000_0000_0000
  {
    hide BitmapCovers, InRoot, ShortName, Misses;
    assert ClusterValid(L.g, ch[0]);
    CapacityBound(L.g, |ch|);
  }

  lemma CapacityBound(g: Geometry, n: nat)
    requires g.sectorsPerCluster <= 0x1_0000 && n <= MAX_CLUSTERS
    ensures Capacity(g, n) < 0x1_0000_0000_0000_0000
  {
    assert n * ClusterSize(g) <= 3 * ClusterSize(g);
  }

  /** A scan of the root directory finds every writable file: its name, its first cluster and its size. */
  lemma RowFound(L: Layout, s: State, i: nat)
    requires Ok(L, s) && DirOk(L, s.disk) && i < |s.table| && s.table[i].writable
    ensures RootReady(L, |s.disk|)
    ensures var e := s.table[i]; Parsed(e.name, e.size, e.first, 0x20, 0) in Scan(L, s.disk, 0)
  {
    hide *;
    RowPlace(L, s, i);
    var e := s.table[i];
    var u := SectorNumberOf(L, |s.disk|, e.dirLba);
    SectorIs(L, s.disk, u);
    DirSetParts(s.disk, e);
    ShortIsPrintable(e.name);
    var t, k := SectorAt(L, s.disk, u), e.dirOff / 32;
    assert e.dirOff == 32 * k;
    EncodedSetParses(t, k, e.name, e.first, e.size);
    SlotIs(t, k);
    FileEntryIs();
    ScanReaches(L, s.disk, 0, u, k);
  }

  lemma FileEntryIs()
    ensures FILE_ENTRY == 0x85
  {
  }

  lemma SectorIs(L: Layout, d: Disk, u: nat)
    requires RootReady(L, |d|) && u < RootSectors(L)
    ensures LayoutOk(L, |d|) && Fits(L.g, |d|) && Clusters(L.g, L.rc)
    ensures RootLba(L, |d|, u) < |d| && InRoot(L, |d|, RootLba(L, |d|, u)) && SectorAt(L, d, u) == d[RootLba(L, |d|, u)]
  {
    RootLbaBounds(L, |d|, u);
    hide LayoutOk, Fits, Clusters, RootLba, InRoot, RootSectors;
  }

  lemma DirSetParts(d: Disk, e: Entry)
    requires DirSet(d, e)
    ensures e.dirLba < |d| && e.dirOff + 96 <= 512 && |e.name| <= 15
    ensures d[e.dirLba][e.dirOff..e.dirOff + 96] == EncodedSet(e.name, e.first, e.size)
  {
    hide EncodedSet;
  }

  // ---------- changing one sector ----------

  /** The entries have the same types and announce as much. */
  ghost predicate SameEntries(t: Sector, t': Sector) {
    forall k: nat :: k < 16 ==>
      TypeOf(t', k) == TypeOf(t, k) && (TypeOf(t, k) == FILE_ENTRY ==> CountOf(t', k) == CountOf(t, k))
  }

  lemma SameTidy(t: Sector, t': Sector)
    requires Tidy(t) && SameEntries(t, t')
    ensures Tidy(t')
  {
    hide TypeOf, CountOf, Secondary;
  }

  /** `bs` has the entries of a file set: file, stream, name. */
  predicate FileSet(bs: seq<Byte>) {
    |bs| == 96 && bs[0] == FILE_ENTRY && bs[1] == 2 && bs[32] == 0xc0 && bs[64] == 0xc1
  }

  lemma EncodedIsSet(name: string, first: nat, size: nat)
    requires |name| <= 15
    ensures FileSet(EncodedSet(name, first, size))
  {
    SetInUse(name, first, size);
    SetStartsWith(name, first, size);
    hide EncodedSet;
  }

  /** Types and counts after a set was written at entry `a`. */
  lemma SpliceEntries(t: Sector, a: nat, bs: seq<Byte>, k: nat)
    requires a <= 13 && FileSet(bs) && k < 16
    ensures var t' := Splice(t, a * 32, bs);
            && (k < a || a + 3 <= k ==> TypeOf(t', k) == TypeOf(t, k) && CountOf(t', k) == CountOf(t, k))
            && (k == a ==> TypeOf(t', k) == FILE_ENTRY && CountOf(t', k) == 2)
            && (k == a + 1 ==> TypeOf(t', k) == 0xc0) && (k == a + 2 ==> TypeOf(t', k) == 0xc1)
  {
    hide Splice;
  }

  /** A set written into free entries keeps the sector tidy. */
  lemma SpliceTidy(t: Sector, a: nat, bs: seq<Byte>)
    requires Tidy(t) && a <= 13 && FileSet(bs) && SlotsFree(t, a * 32)
    ensures Tidy(Splice(t, a * 32, bs))
  {
    var t' := Splice(t, a * 32, bs);
    FreeTypes(t, a);
    forall k: nat, i: nat | k < i < 16 && TypeOf(t', k) == FILE_ENTRY && i <= k + CountOf(t', k)
      ensures Secondary(TypeOf(t', i))
    {
      SpliceEntries(t, a, bs, k);
      SpliceEntries(t, a, bs, i);
      Types(TypeOf(t', k));
      hide Splice, TypeOf, CountOf, SlotsFree;
      assert Secondary(0xc0) && Secondary(0xc1);
    }
  }

  lemma FreeTypes(t: Sector, a: nat)
    requires a <= 13 && SlotsFree(t, a * 32)
    ensures !Secondary(TypeOf(t, a)) && !Secondary(TypeOf(t, a + 1)) && !Secondary(TypeOf(t, a + 2))
  {
    Types(TypeOf(t, a));
    Types(TypeOf(t, a + 1));
    Types(TypeOf(t, a + 2));
    hide Secondary, SlotUsed;
  }

  /** Writing a set over a set. */
  lemma OverwriteSame(t: Sector, a: nat, bs: seq<Byte>)
    requires a <= 13 && FileSet(bs) && FileSet(t[a * 32..a * 32 + 96])
    ensures SameEntries(t, Splice(t, a * 32, bs))
  {
    forall k: nat | k < 16
      ensures TypeOf(Splice(t, a * 32, bs), k) == TypeOf(t, k)
           && (TypeOf(t, k) == FILE_ENTRY ==> CountOf(Splice(t, a * 32, bs), k) == CountOf(t, k))
    {
      SpliceEntries(t, a, bs, k);
      OldEntries(t, a);
      hide Splice, TypeOf, CountOf, FileSet;
    }
  }

  lemma OldEntries(t: Sector, a: nat)
    requires a <= 13 && FileSet(t[a * 32..a * 32 + 96])
    ensures TypeOf(t, a) == FILE_ENTRY && CountOf(t, a) == 2 && TypeOf(t, a + 1) == 0xc0 && TypeOf(t, a + 2) == 0xc1
  {
    var bs := t[a * 32..a * 32 + 96];
    assert bs[0] == t[a * 32] && bs[1] == t[a * 32 + 1] && bs[32] == t[a * 32 + 32] && bs[64] == t[a * 32 + 64];
  }

  /** Types and counts after a set was deleted. */
  lemma DeletedEntries(t: Sector, a: nat, k: nat)
    requires a <= 13 && FileSet(t[a * 32..a * 32 + 96]) && k < 16
    ensures var t' := Deleted(t, a * 32, 3);
            && (k < a || a + 3 <= k ==> TypeOf(t', k) == TypeOf(t, k) && CountOf(t', k) == CountOf(t, k))
            && (a <= k < a + 3 ==> TypeOf(t', k) != FILE_ENTRY && TypeOf(t', k) != 0 && TypeOf(t, k) != 0)
  {
    OldEntries(t, a);
    Types(FILE_ENTRY);
    Types(0xc0);
    Types(0xc1);
    hide Deleted, FileSet, SlotUsed;
  }

  lemma DeletedTidy(t: Sector, a: nat)
    requires Tidy(t) && a <= 13 && FileSet(t[a * 32..a * 32 + 96])
    ensures Tidy(Deleted(t, a * 32, 3))
  {
    var t' := Deleted(t, a * 32, 3);
    OldEntries(t, a);
    forall k: nat, i: nat | k < i < 16 && TypeOf(t', k) == FILE_ENTRY && i <= k + CountOf(t', k)
      ensures Secondary(TypeOf(t', i))
    {
      DeletedEntries(t, a, k);
      DeletedEntries(t, a, i);
      Types(FILE_ENTRY);
      hide Deleted, TypeOf, CountOf, FileSet;
    }
  }

  // ---------- changing the directory ----------

  lemma RootLbaInjective(L: Layout, n: nat, u: nat, v: nat)
    requires RootReady(L, n) && u < RootSectors(L) && v < RootSectors(L) && RootLba(L, n, u) == RootLba(L, n, v)
    ensures u == v
  {
    var m := L.g.sectorsPerCluster;
    assert m >= 1;
    DivBelow(u, |L.rc|, m);
    DivBelow(v, |L.rc|, m);
    DivNatural(u, m);
    DivNatural(v, m);
    hide Fits, LayoutOk, ClusterLba;
    var i, j := u / m, v / m;
    SectorOwner(L.g, L.rc[i], u % m, L.rc[j], v % m);
    SameDivMod(u, v, m);
  }

  /** The directory where only sector `u` may differ. */
  ghost predicate OnlySector(L: Layout, d: Disk, d': Disk, u: nat) {
    && RootReady(L, |d|) && |d'| == |d| && u < RootSectors(L)
    && forall v: nat :: v < RootSectors(L) && v != u ==> SectorAt(L, d', v) == SectorAt(L, d, v)
  }

  lemma OnlySectorFrom(L: Layout, d: Disk, d': Disk, u: nat)
    requires RootReady(L, |d|) && |d'| == |d| && u < RootSectors(L) && RootLba(L, |d|, u) < |d|
    requires forall l: nat :: l < |d| && InRoot(L, |d|, l) && l != RootLba(L, |d|, u) ==> d'[l] == d[l]
    ensures OnlySector(L, d, d', u)
  {
    hide *;
    forall v: nat | v < RootSectors(L) && v != u ensures SectorAt(L, d', v) == SectorAt(L, d, v) {
      SectorIs(L, d, v);
      SectorIs(L, d', v);
      if RootLba(L, |d|, v) == RootLba(L, |d|, u) { RootLbaInjective(L, |d|, u, v); }
    }
    OnlySectorIs(L, d, d', u);
  }

  lemma OnlySectorIs(L: Layout, d: Disk, d': Disk, u: nat)
    requires RootReady(L, |d|) && |d'| == |d| && u < RootSectors(L)
    ensures OnlySector(L, d, d', u) ==
              (forall v: nat :: v < RootSectors(L) && v != u ==> SectorAt(L, d', v) == SectorAt(L, d, v))
  {
    hide RootReady, SectorAt, RootSectors;
  }

  /** Ends where it ended. */
  lemma EndsSame(L: Layout, d: Disk, d': Disk)
    requires EndsOnce(L, d) && forall u: nat, k: nat :: EndAt(L, d', u, k) == EndAt(L, d, u, k)
    ensures EndsOnce(L, d')
  {
    hide EndAt, NotAfter;
  }

  lemma DirOkFrom(L: Layout, d: Disk, d': Disk, u: nat)
    requires DirOk(L, d) && OnlySector(L, d, d', u) && RootReady(L, |d'|) && Tidy(SectorAt(L, d', u)) && EndsOnce(L, d')
    ensures DirOk(L, d')
  {
    hide RootReady, EndsOnce, Tidy, SectorAt, RootSectors;
    forall v: nat | v < RootSectors(L) ensures Tidy(SectorAt(L, d', v)) {
      assert v != u ==> SectorAt(L, d', v) == SectorAt(L, d, v);
    }
  }

  lemma DirOkParts(L: Layout, d: Disk)
    requires DirOk(L, d)
    ensures RootReady(L, |d|) && EndsOnce(L, d) && forall u: nat :: u < RootSectors(L) ==> Tidy(SectorAt(L, d, u))
  {
    hide RootReady, EndsOnce, Tidy, SectorAt, RootSectors;
  }

  /** A sector with the same end marks in place of another. */
  lemma DirReplaced(L: Layout, d: Disk, d': Disk, u: nat)
    requires DirOk(L, d) && OnlySector(L, d, d', u) && RootReady(L, |d|) && u < RootSectors(L) && |d'| == |d|
    requires Tidy(SectorAt(L, d', u))
    requires forall k: nat :: k < 16 ==> (TypeOf(SectorAt(L, d', u), k) == 0) == (TypeOf(SectorAt(L, d, u), k) == 0)
    ensures DirOk(L, d')
  {
    hide *;
    DirOkParts(L, d);
    forall v: nat, k: nat ensures EndAt(L, d', v, k) == EndAt(L, d, v, k) { EndReplaced(L, d, d', u, v, k); }
    EndsSame(L, d, d');
    DirOkFrom(L, d, d', u);
  }

  lemma EndReplaced(L: Layout, d: Disk, d': Disk, u: nat, v: nat, k: nat)
    requires OnlySector(L, d, d', u) && RootReady(L, |d|) && u < RootSectors(L) && |d'| == |d|
    requires forall k: nat :: k < 16 ==> (TypeOf(SectorAt(L, d', u), k) == 0) == (TypeOf(SectorAt(L, d, u), k) == 0)
    ensures EndAt(L, d', v, k) == EndAt(L, d, v, k)
  {
    hide RootReady, SectorAt, RootSectors, TypeOf;
  }

  /** The directory's sectors are all as they were. */
  lemma DirUnchanged(L: Layout, d: Disk, d': Disk)
    requires DirOk(L, d) && |d'| == |d| && forall l: nat :: l < |d| && InRoot(L, |d|, l) ==> d'[l] == d[l]
    requires LayoutOk(L, |d|)
    ensures DirOk(L, d')
  {
    hide *;
    DirOkParts(L, d);
    forall u: nat | u < RootSectors(L) ensures SectorAt(L, d', u) == SectorAt(L, d, u) {
      SectorIs(L, d, u);
      SectorIs(L, d', u);
    }
    forall v: nat, k: nat ensures EndAt(L, d', v, k) == EndAt(L, d, v, k) { EndEqual(L, d, d', v, k); }
    EndsSame(L, d, d');
    AllTidy(L, d, d');
  }

  lemma EndEqual(L: Layout, d: Disk, d': Disk, v: nat, k: nat)
    requires RootReady(L, |d|) && |d'| == |d|
    requires forall u: nat :: u < RootSectors(L) ==> SectorAt(L, d', u) == SectorAt(L, d, u)
    ensures EndAt(L, d', v, k) == EndAt(L, d, v, k)
  {
    hide RootReady, SectorAt, RootSectors, TypeOf;
  }

  lemma AllTidy(L: Layout, d: Disk, d': Disk)
    requires DirOk(L, d) && |d'| == |d| && RootReady(L, |d|) && EndsOnce(L, d')
    requires forall u: nat :: u < RootSectors(L) ==> SectorAt(L, d', u) == SectorAt(L, d, u)
    ensures DirOk(L, d')
  {
    hide RootReady, EndsOnce, Tidy, SectorAt, RootSectors;
  }

  // ---------- a new set ----------

  lemma EntryFreeIs(L: Layout, d: Disk, j: nat)
    requires RootReady(L, |d|) && j / 16 < RootSectors(L)
    ensures SlotFree(L, d, j) == !SlotUsed(TypeOf(SectorAt(L, d, j / 16), j % 16))
  {
    SectorIs(L, d, j / 16);
    hide LayoutOk, Fits, Clusters, RootLba, InRoot, RootSectors, SlotUsed, SectorAt;
  }

  /** An end mark is a free slot. */
  lemma EndIsFree(L: Layout, d: Disk, j: nat)
    requires EndAt(L, d, j / 16, j % 16)
    ensures SlotFree(L, d, j)
  {
    hide RootReady, SectorAt, RootSectors, TypeOf, SlotFree;
    EntryFreeIs(L, d, j);
    Types(TypeOf(SectorAt(L, d, j / 16), j % 16));
  }

  /** No end mark precedes the slot a create chooses: three of them would have been chosen. */
  lemma NoEndBeforeChosen(L: Layout, d: Disk, slot: nat, j: nat)
    requires EndsOnce(L, d) && ChosenSlot(L, d, slot) && slot / 16 < RootSectors(L) && j < slot
    ensures !EndAt(L, d, j / 16, j % 16)
  {
    if EndAt(L, d, j / 16, j % 16) {
      hide EndAt, SlotFree, RootSectors;
      assert slot % 16 <= 13;
      LaterSlot(L, slot, j, j);
      LaterSlot(L, slot, j, j + 1);
      LaterSlot(L, slot, j, j + 2);
      EndIsFree(L, d, j);
      EndIsFree(L, d, j + 1);
      EndIsFree(L, d, j + 2);
      ThreeFree(L, d, j);
    }
  }

  lemma ThreeFree(L: Layout, d: Disk, j: nat)
    requires SlotFree(L, d, j) && SlotFree(L, d, j + 1) && SlotFree(L, d, j + 2)
    ensures SlotRun(L, d, j)
  {
    hide SlotFree;
  }

  lemma LaterSlot(L: Layout, slot: nat, j: nat, i: nat)
    requires slot / 16 < RootSectors(L) && slot % 16 <= 13 && j < slot && j <= i <= j + 2
    ensures NotAfter(L, j / 16, j % 16, i / 16, i % 16)
  {
    hide RootSectors;
    assert i / 16 <= slot / 16;
  }

  lemma SlotParts(u: nat, k: nat)
    requires k < 16
    ensures (16 * u + k) / 16 == u && (16 * u + k) % 16 == k
  {
  }

  /** A new set in the chosen slots keeps the directory in order. */
  lemma NewSetKeeps(L: Layout, d: Disk, d': Disk, slot: nat, bs: seq<Byte>)
    requires DirOk(L, d) && ChosenSlot(L, d, slot) && slot / 16 < RootSectors(L) && FileSet(bs)
    requires RootReady(L, |d|) && OnlySector(L, d, d', slot / 16) && |d'| == |d| && slot % 16 <= 13
    requires SlotsFree(SectorAt(L, d, slot / 16), slot % 16 * 32)
    requires SectorAt(L, d', slot / 16) == Splice(SectorAt(L, d, slot / 16), slot % 16 * 32, bs)
    ensures DirOk(L, d')
  {
    hide *;
    DirOkParts(L, d);
    var u, a, t := slot / 16, slot % 16, SectorAt(L, d, slot / 16);
    SpliceTidy(t, a, bs);
    forall x: nat, k: nat, v: nat, m: nat | EndAt(L, d', x, k) && NotAfter(L, x, k, v, m) ensures EndAt(L, d', v, m) {
      NewSetEnds(L, d, d', slot, bs, x, k, v, m);
    }
    EndsOnceIs(L, d');
    DirOkFrom(L, d, d', u);
  }

  lemma EndsOnceIs(L: Layout, d: Disk)
    requires forall u: nat, k: nat, v: nat, m: nat :: EndAt(L, d, u, k) && NotAfter(L, u, k, v, m) ==> EndAt(L, d, v, m)
    ensures EndsOnce(L, d)
  {
    hide EndAt, NotAfter;
  }

  lemma NewSetEnds(L: Layout, d: Disk, d': Disk, slot: nat, bs: seq<Byte>, x: nat, k: nat, v: nat, m: nat)
    requires EndsOnce(L, d) && ChosenSlot(L, d, slot) && slot / 16 < RootSectors(L) && FileSet(bs)
    requires RootReady(L, |d|) && OnlySector(L, d, d', slot / 16) && |d'| == |d| && slot % 16 <= 13
    requires SectorAt(L, d', slot / 16) == Splice(SectorAt(L, d, slot / 16), slot % 16 * 32, bs)
    requires EndAt(L, d', x, k) && NotAfter(L, x, k, v, m)
    ensures EndAt(L, d', v, m)
  {
    var u, a, t := slot / 16, slot % 16, SectorAt(L, d, slot / 16);
    var j := 16 * x + k;
    SlotParts(x, k);
    SpliceEntries(t, a, bs, k);
    SpliceEntries(t, a, bs, m);
    if j < slot { NoEndBeforeChosen(L, d, slot, j); }
    hide RootReady, SectorAt, RootSectors, TypeOf, CountOf, Splice, FileSet, ChosenSlot;
    assert FILE_ENTRY != 0;
    assert x != u ==> SectorAt(L, d', x) == SectorAt(L, d, x);
    assert v != u ==> SectorAt(L, d', v) == SectorAt(L, d, v);
    assert EndAt(L, d, x, k);
    assert EndAt(L, d, v, m);
  }

  // ---------- what each operation does to the directory ----------

  /** Clusters outside the root directory may change as they like. */
  lemma DataKeepsDir(L: Layout, d: Disk, d': Disk, fats: set<nat>, bits: set<nat>, data: set<nat>)
    requires DirOk(L, d) && LayoutOk(L, |d|) && Changes(L.g, L.bc, d, d', fats, bits, data) && data !! Elements(L.rc)
    ensures DirOk(L, d') && |d'| == |d| && forall l: nat :: l < |d| && InRoot(L, |d|, l) ==> d'[l] == d[l]
  {
    hide *;
    ChangesFat(L.g, L.bc, d, d', fats, bits, data);
    forall l: nat | l < |d| && InRoot(L, |d|, l) ensures d'[l] == d[l] { RootKept(L, d, d', data, l); }
    DirUnchanged(L, d, d');
  }

  lemma RootKept(L: Layout, d: Disk, d': Disk, data: set<nat>, l: nat)
    requires LayoutOk(L, |d|) && DataSame(L.g, d, d', data) && data !! Elements(L.rc) && InRoot(L, |d|, l)
    ensures l < |d| == |d'| && d'[l] == d[l]
  {
    hide *;
    var c, k := RootSector(L, |d|, l);
    InList(L.rc, c);
    SectorFrame(L.g, d, d', data, c, l);
  }

  lemma InList(cs: seq<nat>, c: nat)
    ensures c in Elements(cs) <==> c in cs
  {
  }

  lemma WriteDir(L: Layout, s: State, i: nat, pos: nat, bytes: seq<Byte>)
    requires CanWrite(L, s, i, pos, bytes) && DirOk(L, s.disk)
    ensures WriteShape(L, s, i, pos, bytes) && DirOk(L, WriteState(L, s, i, pos, bytes).disk)
  {
    hide *;
    WriteFits(L, s, i, pos, bytes);
    CanWriteIs(L, s, i, pos, bytes);
    ChainOutside(L, s, i);
    OkParts(L, s);
    WriteStateIs(L, s, i, pos, bytes);
    WriteBytesChanges(L.g, L.bc, s.disk, s.chains[i], pos, bytes);
    DataKeepsDir(L, s.disk, WriteState(L, s, i, pos, bytes).disk, {}, {}, Elements(s.chains[i]));
  }

  lemma ExtendDir(L: Layout, s: State, i: nat, more: seq<nat>)
    requires CanExtend(L, s, i, more) && DirOk(L, s.disk)
    ensures ExtendShape(L, s, i, more) && DirOk(L, ExtendState(L, s, i, more).disk)
  {
    hide *;
    CanExtendIs(L, s, i, more);
    OkParts(L, s);
    FreshOutside(L, s, more);
    RootBitmapApart(L, |s.disk|);
    ExtendStateChanges(L, s, i, more);
    DataKeepsDir(L, s.disk, ExtendState(L, s, i, more).disk, {Last(s.chains[i])} + Elements(more), Elements(more),
                 Elements(more) + Elements(L.bc));
  }

  lemma AllocDir(L: Layout, s: State, run: seq<nat>)
    requires Ok(L, s) && FreshRun(L, s, run) && DirOk(L, s.disk)
    ensures AllocShape(L, s, run) && DirOk(L, AllocState(L, s, run).disk) && |AllocState(L, s, run).disk| == |s.disk|
    ensures forall l: nat :: l < |s.disk| && InRoot(L, |s.disk|, l) ==> AllocState(L, s, run).disk[l] == s.disk[l]
    ensures LayoutOk(L, |s.disk|)
  {
    hide *;
    OkParts(L, s);
    AllocParts(L, s, run);
    FreshOutside(L, s, run);
    RootBitmapApart(L, |s.disk|);
    AllocDiskChanges(L.g, L.bc, s.disk, run);
    DataKeepsDir(L, s.disk, AllocState(L, s, run).disk, Elements(run), Elements(run), Elements(run) + Elements(L.bc));
  }

  /** The sector of row `i` and its place in the directory. */
  lemma RowSector(L: Layout, s: State, i: nat) returns (u: nat, a: nat)
    requires Ok(L, s) && i < |s.table| && s.table[i].writable
    ensures RootReady(L, |s.disk|) && u < RootSectors(L) && a <= 13 && s.table[i].dirOff == a * 32
    ensures LayoutOk(L, |s.disk|) && Fits(L.g, |s.disk|) && Clusters(L.g, L.rc)
    ensures RootLba(L, |s.disk|, u) == s.table[i].dirLba < |s.disk|
    ensures SectorAt(L, s.disk, u) == s.disk[s.table[i].dirLba]
    ensures FileSet(SectorAt(L, s.disk, u)[a * 32..a * 32 + 96])
  {
    hide *;
    RowPlace(L, s, i);
    var e := s.table[i];
    u := SectorNumberOf(L, |s.disk|, e.dirLba);
    a := e.dirOff / 32;
    SectorIs(L, s.disk, u);
    DirSetParts(s.disk, e);
    EncodedIsSet(e.name, e.first, e.size);
  }

  /** The disk with one directory sector replaced. */
  lemma OneSector(L: Layout, d: Disk, u: nat, t: Sector)
    requires RootReady(L, |d|) && u < RootSectors(L) && Fits(L.g, |d|) && Clusters(L.g, L.rc)
    requires RootLba(L, |d|, u) < |d|
    ensures var d' := d[RootLba(L, |d|, u) := t];
            OnlySector(L, d, d', u) && SectorAt(L, d', u) == t
  {
    hide *;
    var d' := d[RootLba(L, |d|, u) := t];
    OnlySectorFrom(L, d, d', u);
    SectorIs(L, d', u);
  }

  lemma RelabelDir(L: Layout, s: State, i: nat, name: string, size: nat)
    requires CanRelabel(L, s, i, name, size) && DirOk(L, s.disk)
    ensures LabelShape(s, i, name) && DirOk(L, RelabelState(L, s, i, name, size).disk)
  {
    hide *;
    CanRelabelIs(L, s, i, name, size);
    RelabelFits(L, s, i, name, size);
    RelabelDisk(L, s, i, name, size);
    var u, a := RowSector(L, s, i);
    var e, t := s.table[i], s.disk[s.table[i].dirLba];
    var bs := EncodedSet(name, e.first, size);
    EncodedIsSet(name, e.first, size);
    OneSector(L, s.disk, u, Splice(t, e.dirOff, bs));
    OverwriteSame(t, a, bs);
    DirOkParts(L, s.disk);
    SameTidy(t, Splice(t, e.dirOff, bs));
    SameEnds(t, Splice(t, e.dirOff, bs));
    DirReplaced(L, s.disk, RelabelState(L, s, i, name, size).disk, u);
  }

  lemma SameEnds(t: Sector, t': Sector)
    requires SameEntries(t, t')
    ensures forall k: nat :: k < 16 ==> (TypeOf(t', k) == 0) == (TypeOf(t, k) == 0)
  {
    hide TypeOf, CountOf;
  }

  lemma UnlinkDir(L: Layout, s: State, i: nat)
    requires Ok(L, s) && i < |s.table| && s.table[i].writable && DirOk(L, s.disk)
    ensures UnlinkShape(L, s, i) && DirOk(L, UnlinkState(L, s, i).disk)
  {
    hide *;
    UnlinkParts(L, s, i);
    UnlinkIs(L, s, i);
    UnlistIs(s, i);
    ChainOutside(L, s, i);
    RootBitmapApart(L, |s.disk|);
    var u, a := RowSector(L, s, i);
    var t, d1 := s.disk[s.table[i].dirLba], UnlistDisk(s, i);
    OneSector(L, s.disk, u, Deleted(t, a * 32, 3));
    DirOkParts(L, s.disk);
    DeletedTidy(t, a);
    DeletedEnds(t, a);
    DirReplaced(L, s.disk, d1, u);
    FreeDiskChanges(L.g, L.bc, d1, s.chains[i]);
    DataKeepsDir(L, d1, UnlinkState(L, s, i).disk, Elements(s.chains[i]), Elements(s.chains[i]),
                 Elements(L.bc) + Elements(s.chains[i]));
  }

  lemma DeletedEnds(t: Sector, a: nat)
    requires a <= 13 && FileSet(t[a * 32..a * 32 + 96])
    ensures forall k: nat :: k < 16 ==> (TypeOf(Deleted(t, a * 32, 3), k) == 0) == (TypeOf(t, k) == 0)
  {
    forall k: nat | k < 16
      ensures (TypeOf(Deleted(t, a * 32, 3), k) == 0) == (TypeOf(t, k) == 0) { DeletedEntries(t, a, k); }
  }

  /** A create, whether or not the table has room for the row. */
  lemma CreateDir(L: Layout, s: State, path: string, n: nat, run: seq<nat>, slot: nat)
    requires CanCreate(L, s, path, n, run, slot) && DirOk(L, s.disk)
    ensures CreateShape(L, s, path, run, slot)
    ensures DirOk(L, LeakState(L, s, path, run, slot).disk) && DirOk(L, CreateState(L, s, path, run, slot).disk)
  {
    hide *;
    CanCreateRun(L, s, path, n, run, slot);
    CanCreatePlace(L, s, path, n, run, slot);
    CanCreateSlot(L, s, path, n, run, slot);
    CreateFits(L, s, path, n, run, slot);
    CreateIs(L, s, path, run, slot);
    AllocDir(L, s, run);
    var a, u, off := AllocState(L, s, run), slot / 16, slot % 16 * 32;
    var lba := RootLba(L, |s.disk|, u);
    OrphanParts(a, lba, off, path[1..], run);
    EnterIs(L, a, lba, off, path[1..], run);
    var d' := LeakState(L, s, path, run, slot).disk;
    DirOkParts(L, s.disk);
    SectorIs(L, s.disk, u);
    SectorIs(L, d', u);
    OnlySectorFrom(L, s.disk, d', u);
    EncodedIsSet(path[1..], run[0], 0);
    NewSetKeeps(L, s.disk, d', slot, EncodedSet(path[1..], run[0], 0));
  }

  lemma CanCreateSlot(L: Layout, s: State, path: string, n: nat, run: seq<nat>, slot: nat)
    requires CanCreate(L, s, path, n, run, slot)
    ensures ChosenSlot(L, s.disk, slot) && slot % 16 <= 13 && slot / 16 < RootSectors(L)
  {
    hide Ok, ShortPath, LookupPath, ChosenRun, SlotUsed, RootSectors, LayoutOk, Fits, Clusters, RootLba;
  }

  lemma WriteFileDir(L: Layout, s: State, i: nat, offset: nat, bytes: seq<Byte>, more: seq<nat>)
    requires CanGrowBy(L, s, i, offset + |bytes|, more) && DirOk(L, s.disk)
    ensures WriteFileShape(L, s, i, offset, bytes, more) && DirOk(L, WriteFileState(L, s, i, offset, bytes, more).disk)
  {
    hide *;
    var end := offset + |bytes|;
    WriteAllowed(L, s, i, offset, bytes, more);
    WriteFileIs(L, s, i, offset, bytes, more);
    GrownIs(L, s, i, end, more);
    if end > s.table[i].capacity { ExtendDir(L, s, i, more); }
    var s1 := Grown(L, s, i, end, more);
    WriteDir(L, s1, i, offset, bytes);
    RelabelDir(L, WriteState(L, s1, i, offset, bytes), i, s.table[i].name, end);
  }

  /** A directory whose entries are all end marks. */
  lemma EmptyDir(L: Layout, d: Disk)
    requires RootReady(L, |d|) && forall u: nat :: u < RootSectors(L) ==> SectorAt(L, d, u) == ZeroSector()
    ensures DirOk(L, d)
  {
    hide RootReady, SectorAt, RootSectors;
    assert forall k: nat :: k < 16 ==> TypeOf(ZeroSector(), k) == 0;
    hide TypeOf;
  }
}
