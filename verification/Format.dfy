/** Freshly formatted volumes: with any set of clusters left free they satisfy the invariant of the write path. */
module Format {
  import opened Bytes
  import opened Arithmetic
  import opened Volume
  import opened Frames
  import opened Chains
  import opened Allocation
  import opened Options
  import opened FileSystem
  import opened FileOps
  import opened CreateUnlink
  import opened Search
  import opened CreateSpec
  import opened RootScan

  /** A volume whose bitmap and root directory take one cluster each; `keep` are the clusters left free. */
  predicate Formattable(g: Geometry, n: nat, keep: set<nat>) {
    && Fits(g, n) && g.rootCluster != g.bitmapCluster && g.clusterCount <= g.sectorsPerCluster * 4096
    && g.rootCluster !in keep && g.bitmapCluster !in keep
  }

  /** The clusters below `c` that are not left free. */
  ghost function Used(c: nat, keep: set<nat>): (s: set<nat>)
    ensures forall x :: x in s <==> 2 <= x < c && x !in keep
  {
    set x | 2 <= x < c && x !in keep
  }

  ghost function FreshLayout(g: Geometry, keep: set<nat>): Layout {
    Layout(g, [g.rootCluster], [g.bitmapCluster], Used(g.clusterCount + 2, keep))
  }

  function Blank(n: nat): (d: Disk)
    ensures |d| == n && forall l :: 0 <= l < n ==> d[l] == ZeroSector()
  {
    seq(n, _ => ZeroSector())
  }

  lemma Covers(g: Geometry, n: nat, keep: set<nat>)
    requires Formattable(g, n, keep)
    ensures Fits(g, n) && BitmapCovers(g, [g.bitmapCluster])
    ensures ClusterValid(g, g.rootCluster) && ClusterValid(g, g.bitmapCluster) && g.rootCluster != g.bitmapCluster
    ensures g.rootCluster !in keep && g.bitmapCluster !in keep
  {
  }

  /** Marks the clusters below `c` as used, but for those in `keep`. */
  function Marked(g: Geometry, bc: seq<nat>, d: Disk, c: nat, keep: set<nat>): (d': Disk)
    requires Fits(g, |d|) && BitmapCovers(g, bc) && c <= g.clusterCount + 2
    ensures |d'| == |d|
  {
    if c <= 2 then d
    else
      var e := Marked(g, bc, d, c - 1, keep);
      if c - 1 in keep then e else MarkUsed(g, bc, e, c - 1, EOF_MARK)
  }

  function Formatted(g: Geometry, n: nat, keep: set<nat>): (d: Disk)
    requires Formattable(g, n, keep)
    ensures |d| == n
  {
    Covers(g, n, keep);
    Marked(g, [g.bitmapCluster], Blank(n), g.clusterCount + 2, keep)
  }

  ghost function Start(g: Geometry, n: nat, keep: set<nat>): State
    requires Formattable(g, n, keep)
  {
    State(Formatted(g, n, keep), [], [], {})
  }

  // ---------- a blank volume ----------

  lemma ZeroFields(o: nat, k: nat)
    requires o + 4 <= 512 && k < 8
    ensures Le32(ZeroSector(), o) == 0 && !BitIn(ZeroSector()[o], k)
  {
    assert ZeroSector()[o..o + 4] == [0, 0, 0, 0];
    ZeroValue();
    ZeroBit(k);
  }

  lemma ZeroValue()
    ensures LeValue([0, 0, 0, 0]) == 0
  {
    var z: seq<Byte> := [0];
    assert LeValue(z) == 0;
    assert LeValue([0, 0]) == 0 by { assert [0, 0][1..] == z; }
    assert [0, 0, 0, 0][1..][1..] == [0, 0];
  }

  lemma ZeroBit(k: nat)
    requires k < 8
    ensures !BitIn(0, k)
  {
  }

  lemma BlankFree(g: Geometry, n: nat, bc: seq<nat>, c: nat)
    requires Fits(g, n) && BitmapCovers(g, bc) && ClusterValid(g, c)
    ensures Free(g, bc, Blank(n), c)
  {
    hide Fits, BitmapCovers, BitLba, Le32, BitIn, ZeroSector;
    FatInRange(g, n, c);
    BitInRange(g, n, bc, c);
    ZeroFields(FatOff(c), 0);
    ByteZero(BitOff(c), BitPos(c));
  }

  lemma ByteZero(o: nat, k: nat)
    requires o < 512 && k < 8
    ensures !BitIn(ZeroSector()[o], k)
  {
    hide BitIn;
    ZeroBit(k);
  }

  // ---------- marking ----------

  lemma UsedStep(c: nat, keep: set<nat>)
    requires c > 2
    ensures Used(c, keep) == if c - 1 in keep then Used(c - 1, keep) else Used(c - 1, keep) + {c - 1}
  {
  }

  lemma UsedNone(c: nat, keep: set<nat>)
    requires c <= 2
    ensures Used(c, keep) == {}
  {
  }

  lemma {:induction false} MarkedChanges(g: Geometry, bc: seq<nat>, d: Disk, c: nat, keep: set<nat>)
    requires Fits(g, |d|) && BitmapCovers(g, bc) && c <= g.clusterCount + 2
    ensures Changes(g, bc, d, Marked(g, bc, d, c, keep), Used(c, keep), Used(c, keep), Elements(bc))
  {
    hide Fits, BitmapCovers, Changes, MarkUsed, Used, Elements;
    if c <= 2 {
      UsedNone(c, keep);
      ChangesRefl(g, bc, d);
      ChangesWiden(g, bc, d, d, {}, {}, {}, {}, {}, Elements(bc));
    } else {
      MarkedChanges(g, bc, d, c - 1, keep);
      UsedStep(c, keep);
      if c - 1 !in keep {
        var e := Marked(g, bc, d, c - 1, keep);
        var used := Used(c - 1, keep);
        MarkUsedOne(g, bc, e, c - 1);
        ChangesTrans(g, bc, d, e, MarkUsed(g, bc, e, c - 1, EOF_MARK), used, used, Elements(bc), {c - 1}, {c - 1},
                     Elements(bc));
        Units(Elements(bc));
      }
    }
  }

  lemma MarkUsedOne(g: Geometry, bc: seq<nat>, d: Disk, c: nat)
    requires Fits(g, |d|) && BitmapCovers(g, bc) && ClusterValid(g, c)
    ensures Changes(g, bc, d, MarkUsed(g, bc, d, c, EOF_MARK), {c}, {c}, Elements(bc))
    ensures FatAt(g, MarkUsed(g, bc, d, c, EOF_MARK), c) == EOF_MARK
  {
    hide Fits, BitmapCovers, Changes, FatAt, BitAt, SetFat, PutBit;
    MarkOne(g, bc, d, c, true, EOF_MARK);
  }

  lemma {:induction false} MarkedAt(g: Geometry, bc: seq<nat>, d: Disk, c: nat, keep: set<nat>, x: nat)
    requires Fits(g, |d|) && BitmapCovers(g, bc) && x < c <= g.clusterCount + 2 && ClusterValid(g, x) && x !in keep
    ensures FatAt(g, Marked(g, bc, d, c, keep), x) == EOF_MARK
  {
    hide Fits, BitmapCovers, Changes, MarkUsed, FatAt;
    var e := Marked(g, bc, d, c - 1, keep);
    if c - 1 !in keep { MarkUsedOne(g, bc, e, c - 1); }
    if x < c - 1 {
      MarkedAt(g, bc, d, c - 1, keep, x);
      if c - 1 !in keep { FatSameAt(g, bc, e, MarkUsed(g, bc, e, c - 1, EOF_MARK), {c - 1}, {c - 1}, Elements(bc), x); }
    }
  }

  /** Exactly the clusters left free look free. */
  lemma FormattedFree(g: Geometry, n: nat, keep: set<nat>, c: nat)
    requires Formattable(g, n, keep) && ClusterValid(g, c)
    ensures Fits(g, n) && BitmapCovers(g, [g.bitmapCluster])
    ensures Free(g, [g.bitmapCluster], Formatted(g, n, keep), c) == (c in keep)
    ensures c !in keep ==> FatAt(g, Formatted(g, n, keep), c) == EOF_MARK
  {
    hide Fits, BitmapCovers, Changes, FatAt, BitAt, Blank, Marked, Formattable;
    Covers(g, n, keep);
    var bc, top := [g.bitmapCluster], g.clusterCount + 2;
    BlankFree(g, n, bc, c);
    MarkedChanges(g, bc, Blank(n), top, keep);
    if c in keep {
      FatSameAt(g, bc, Blank(n), Formatted(g, n, keep), Used(top, keep), Used(top, keep), Elements(bc), c);
      BitsSameAt(g, bc, Blank(n), Formatted(g, n, keep), Used(top, keep), Used(top, keep), Elements(bc), c);
    } else {
      MarkedAt(g, bc, Blank(n), top, keep, c);
    }
  }

  lemma FreshLayoutOk(g: Geometry, n: nat, keep: set<nat>)
    requires Formattable(g, n, keep)
    ensures LayoutOk(FreshLayout(g, keep), n)
  {
    Covers(g, n, keep);
    hide Fits, BitmapCovers, Formattable;
  }

  /** A formatted volume without files satisfies the invariant. */
  lemma FormattedOk(g: Geometry, n: nat, keep: set<nat>)
    requires Formattable(g, n, keep)
    ensures Ok(FreshLayout(g, keep), Start(g, n, keep))
  {
    FreshLayoutOk(g, n, keep);
    Covers(g, n, keep);
    FormattedFree(g, n, keep, g.rootCluster);
    var L, d := FreshLayout(g, keep), Formatted(g, n, keep);
    hide Fits, BitmapCovers, FatAt, BitAt, Formatted, LayoutOk, Formattable, Free;
    LayoutParts(L, n);
    forall x | x in L.reserved ensures Taken(L, d, x) { FormattedFree(g, n, keep, x); }
  }

  lemma FreshLayoutIs(g: Geometry, n: nat, keep: set<nat>)
    requires Formattable(g, n, keep)
    ensures FreshLayout(g, keep).g == g && FreshLayout(g, keep).rc == [g.rootCluster]
    ensures FreshLayout(g, keep).bc == [g.bitmapCluster]
    ensures g.sectorsPerCluster >= 1 && g.bitmapCluster in Elements([g.bitmapCluster])
    ensures g.rootCluster !in Elements([g.bitmapCluster])
    ensures Fits(g, n) && BitmapCovers(g, [g.bitmapCluster])
    ensures Formatted(g, n, keep) == Marked(g, [g.bitmapCluster], Blank(n), g.clusterCount + 2, keep)
  {
    Covers(g, n, keep);
    FormattedIs(g, n, keep);
    hide *;
    FreshParts(g, keep);
    SpcBounds(g, n);
    assert g.bitmapCluster in [g.bitmapCluster] && g.rootCluster !in [g.bitmapCluster];
    InList([g.bitmapCluster], g.bitmapCluster);
    InList([g.bitmapCluster], g.rootCluster);
  }

  lemma FreshParts(g: Geometry, keep: set<nat>)
    ensures FreshLayout(g, keep).g == g && FreshLayout(g, keep).rc == [g.rootCluster]
    ensures FreshLayout(g, keep).bc == [g.bitmapCluster]
  {
    hide Used;
  }

  lemma FormattedIs(g: Geometry, n: nat, keep: set<nat>)
    requires Formattable(g, n, keep)
    ensures Fits(g, n) && BitmapCovers(g, [g.bitmapCluster])
    ensures Formatted(g, n, keep) == Marked(g, [g.bitmapCluster], Blank(n), g.clusterCount + 2, keep)
  {
    hide Fits, BitmapCovers, Marked, Blank, Formattable, ClusterValid, ZeroSector;
    Covers(g, n, keep);
  }

  lemma InFirstSector(L: Layout, n: nat)
    requires LayoutOk(L, n) && Fits(L.g, n) && Clusters(L.g, L.rc) && L.rc != [] && L.g.sectorsPerCluster >= 1
    ensures ClusterValid(L.g, L.rc[0]) && InRoot(L, n, ClusterLba(L.g, L.rc[0])) && ClusterLba(L.g, L.rc[0]) < n
  {
    hide LayoutOk, ClusterLba, Fits;
    ClusterInHeap(L.g, n, L.rc[0]);
  }

  /** Its root directory is empty. */
  lemma RootIsBlank(g: Geometry, n: nat, keep: set<nat>)
    requires Formattable(g, n, keep)
    ensures LayoutOk(FreshLayout(g, keep), n) && ClusterValid(g, g.rootCluster)
    ensures var lba := ClusterLba(g, g.rootCluster);
            lba < n && InRoot(FreshLayout(g, keep), n, lba) && Formatted(g, n, keep)[lba] == ZeroSector()
  {
    hide *;
    FreshLayoutOk(g, n, keep);
    FreshLayoutIs(g, n, keep);
    LayoutParts(FreshLayout(g, keep), n);
    InFirstSector(FreshLayout(g, keep), n);
    var lba, bc, used := ClusterLba(g, g.rootCluster), [g.bitmapCluster], Used(g.clusterCount + 2, keep);
    MarkedChanges(g, bc, Blank(n), g.clusterCount + 2, keep);
    ChangesFat(g, bc, Blank(n), Formatted(g, n, keep), used, used, Elements(bc));
    SectorFrame(g, Blank(n), Formatted(g, n, keep), Elements(bc), g.rootCluster, lba);
  }

  /** The first three slots of the root directory are the ones a create takes. */
  lemma FirstSlot(g: Geometry, n: nat, keep: set<nat>)
    requires Formattable(g, n, keep)
    ensures ChosenSlot(FreshLayout(g, keep), Formatted(g, n, keep), 0)
  {
    hide *;
    RootIsBlank(g, n, keep);
    FreshLayoutIs(g, n, keep);
    LayoutParts(FreshLayout(g, keep), n);
    SlotsOfBlank(FreshLayout(g, keep), Formatted(g, n, keep));
  }

  lemma SlotsOfBlank(L: Layout, d: Disk)
    requires LayoutOk(L, |d|) && Fits(L.g, |d|) && Clusters(L.g, L.rc) && |L.rc| == 1 && L.g.sectorsPerCluster >= 1
    requires ClusterValid(L.g, L.rc[0]) && ClusterLba(L.g, L.rc[0]) < |d| && d[ClusterLba(L.g, L.rc[0])] == ZeroSector()
    ensures ChosenSlot(L, d, 0)
  {
    FirstRootSector(L, |d|);
    hide Fits, LayoutOk, Clusters, ClusterLba, RootLba;
    forall j: nat | j < 3 ensures SlotFree(L, d, j) { assert ZeroSector()[j % 16 * 32] == 0; }
  }

  lemma FirstRootSector(L: Layout, n: nat)
    requires Fits(L.g, n) && Clusters(L.g, L.rc) && |L.rc| == 1 && L.g.sectorsPerCluster >= 1
    ensures RootSectors(L) == L.g.sectorsPerCluster
    ensures ClusterValid(L.g, L.rc[0]) && RootLba(L, n, 0) == ClusterLba(L.g, L.rc[0])
  {
    hide Fits, ClusterLba;
    assert 0 / L.g.sectorsPerCluster == 0 && 0 % L.g.sectorsPerCluster == 0;
  }

  lemma StartIs(g: Geometry, n: nat, keep: set<nat>)
    requires Formattable(g, n, keep)
    ensures Start(g, n, keep) == State(Formatted(g, n, keep), [], [], {})
  {
    hide Formattable, Formatted;
  }

  lemma StartFree(g: Geometry, n: nat, keep: set<nat>, c: nat)
    requires Formattable(g, n, keep) && ClusterValid(g, c) && c in keep
    ensures Fits(g, n) && BitmapCovers(g, [g.bitmapCluster]) && FreeAt(FreshLayout(g, keep), Formatted(g, n, keep), c)
  {
    FormattedFree(g, n, keep, c);
    hide Free, Formatted, Formattable, Fits, BitmapCovers;
  }

  /** A freshly formatted root directory is one the parser can follow. */
  lemma FormattedDir(g: Geometry, n: nat, keep: set<nat>)
    requires Formattable(g, n, keep)
    ensures DirOk(FreshLayout(g, keep), Formatted(g, n, keep))
  {
    hide *;
    var L, d := FreshLayout(g, keep), Formatted(g, n, keep);
    var bc, used := [g.bitmapCluster], Used(g.clusterCount + 2, keep);
    FreshLayoutOk(g, n, keep);
    FreshLayoutIs(g, n, keep);
    RootReadyFrom(L, n);
    RootBitmapApart(L, n);
    MarkedChanges(g, bc, Blank(n), g.clusterCount + 2, keep);
    ChangesFat(g, bc, Blank(n), d, used, used, Elements(bc));
    forall u: nat | u < RootSectors(L) ensures SectorAt(L, d, u) == ZeroSector() {
      SectorIs(L, d, u);
      RootKept(L, Blank(n), d, Elements(bc), RootLba(L, n, u));
    }
    EmptyDir(L, d);
  }
}
