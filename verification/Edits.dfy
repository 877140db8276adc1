/** The edits each operation buffers, what applying them yields, and how many sectors they touch. */
module Edits {
  import opened Bytes
  import opened Arithmetic
  import opened Volume
  import opened Frames
  import opened Chains
  import opened Allocation
  import opened Transaction

  // ---------- lists of edits ----------

  ghost predicate Yields(d: Disk, edits: seq<Edit>, d': Disk) {
    Applicable(d, edits) && Applied(d, edits) == d'
  }

  lemma {:induction false} YieldsConcat(d: Disk, a: seq<Edit>, e: Disk, b: seq<Edit>, f: Disk)
    requires Yields(d, a, e) && Yields(e, b, f)
    ensures Yields(d, a + b, f)
    decreases |a|
  {
    if a == [] {
      assert a + b == b;
    } else {
      hide PatchApplies, Patched;
      YieldsConcat(d[a[0].lba := Patched(d[a[0].lba], a[0].patch)], a[1..], e, b, f);
      assert (a + b)[1..] == a[1..] + b;
    }
  }

  lemma YieldsNone(d: Disk)
    ensures Yields(d, [], d)
  {
  }

  lemma YieldsOne(d: Disk, e: Edit)
    requires e.lba < |d| && PatchApplies(d[e.lba], e.patch)
    ensures Yields(d, [e], d[e.lba := Patched(d[e.lba], e.patch)])
  {
    hide PatchApplies, Patched;
    var d' := d[e.lba := Patched(d[e.lba], e.patch)];
    assert [e][1..] == [];
    assert [e][0] == e;
    assert Applicable(d', []) && Applied(d', []) == d';
    assert Applicable(d, [e]);
  }

  lemma {:induction false} TouchedConcat(a: seq<Edit>, b: seq<Edit>)
    ensures Touched(a + b) == Touched(a) + Touched(b)
  {
    if a == [] {
      assert a + b == b;
    } else {
      TouchedConcat(a[1..], b);
      assert (a + b)[1..] == a[1..] + b;
    }
  }

  lemma TouchedOne(e: Edit)
    ensures Touched([e]) == {e.lba}
  {
    assert [e][1..] == [];
  }

  // ---------- marking and releasing ----------

  function BitEdit(g: Geometry, bc: seq<nat>, c: nat, set_: bool): Edit
    requires g.sectorsPerCluster >= 1 && BitmapCovers(g, bc) && ClusterValid(g, c)
  {
    Edit(BitLba(g, bc, c), BitPatch(BitOff(c), BitPos(c), set_))
  }

  function FatEdit(g: Geometry, c: nat, v: nat): Edit {
    Edit(FatLba(g, c), U32Patch(FatOff(c), v))
  }

  lemma BitEditYields(g: Geometry, bc: seq<nat>, d: Disk, c: nat, set_: bool)
    requires Fits(g, |d|) && BitmapCovers(g, bc) && ClusterValid(g, c)
    ensures Yields(d, [BitEdit(g, bc, c, set_)], PutBit(g, bc, d, c, set_))
  {
    hide BitLba, BitmapCovers, Yields;
    BitInRange(g, |d|, bc, c);
    YieldsOne(d, BitEdit(g, bc, c, set_));
  }

  lemma FatEditYields(g: Geometry, d: Disk, c: nat, v: nat)
    requires Fits(g, |d|) && ClusterValid(g, c)
    ensures Yields(d, [FatEdit(g, c, v)], SetFat(g, d, c, v))
  {
    hide Yields;
    FatInRange(g, |d|, c);
    YieldsOne(d, FatEdit(g, c, v));
  }

  /** Bit and FAT entry of the first `n` clusters of `cs`, in order. */
  ghost function MarkEdits(g: Geometry, bc: seq<nat>, cs: seq<nat>, n: nat): seq<Edit>
    requires g.sectorsPerCluster >= 1 && BitmapCovers(g, bc) && Clusters(g, cs) && n <= |cs|
  {
    if n == 0 then []
    else MarkEdits(g, bc, cs, n - 1) + [BitEdit(g, bc, cs[n - 1], true)] + [FatEdit(g, cs[n - 1], NextLink(cs, n - 1))]
  }

  ghost function ReleaseEdits(g: Geometry, bc: seq<nat>, cs: seq<nat>, n: nat): seq<Edit>
    requires g.sectorsPerCluster >= 1 && BitmapCovers(g, bc) && Clusters(g, cs) && n <= |cs|
  {
    if n == 0 then []
    else ReleaseEdits(g, bc, cs, n - 1) + [BitEdit(g, bc, cs[n - 1], false)] + [FatEdit(g, cs[n - 1], 0)]
  }

  lemma {:induction false} MarkEditsYield(g: Geometry, bc: seq<nat>, d: Disk, cs: seq<nat>, n: nat)
    requires Fits(g, |d|) && g.sectorsPerCluster >= 1 && BitmapCovers(g, bc) && Clusters(g, cs) && n <= |cs|
    ensures Yields(d, MarkEdits(g, bc, cs, n), MarkChain(g, bc, d, cs, n))
  {
    hide Fits, BitmapCovers, Yields, MarkUsed, BitEdit, FatEdit, NextLink;
    if n == 0 {
      YieldsNone(d);
    } else {
      var c, v := cs[n - 1], NextLink(cs, n - 1);
      var e := MarkChain(g, bc, d, cs, n - 1);
      var f := PutBit(g, bc, e, c, true);
      MarkEditsYield(g, bc, d, cs, n - 1);
      BitEditYields(g, bc, e, c, true);
      FatEditYields(g, f, c, v);
      YieldsConcat(d, MarkEdits(g, bc, cs, n - 1), e, [BitEdit(g, bc, c, true)], f);
      MarkUsedIs(g, bc, e, c, v);
      YieldsConcat(d, MarkEdits(g, bc, cs, n - 1) + [BitEdit(g, bc, c, true)], f, [FatEdit(g, c, v)],
                   SetFat(g, f, c, v));
    }
  }

  lemma {:induction false} ReleaseEditsYield(g: Geometry, bc: seq<nat>, d: Disk, cs: seq<nat>, n: nat)
    requires Fits(g, |d|) && g.sectorsPerCluster >= 1 && BitmapCovers(g, bc) && Clusters(g, cs) && n <= |cs|
    ensures Yields(d, ReleaseEdits(g, bc, cs, n), ReleaseChain(g, bc, d, cs, n))
  {
    hide Fits, BitmapCovers, Yields, MarkFree, BitEdit, FatEdit;
    if n == 0 {
      YieldsNone(d);
    } else {
      var c := cs[n - 1];
      var e := ReleaseChain(g, bc, d, cs, n - 1);
      var f := PutBit(g, bc, e, c, false);
      ReleaseEditsYield(g, bc, d, cs, n - 1);
      BitEditYields(g, bc, e, c, false);
      FatEditYields(g, f, c, 0);
      YieldsConcat(d, ReleaseEdits(g, bc, cs, n - 1), e, [BitEdit(g, bc, c, false)], f);
      MarkUsedIs(g, bc, e, c, 0);
      YieldsConcat(d, ReleaseEdits(g, bc, cs, n - 1) + [BitEdit(g, bc, c, false)], f, [FatEdit(g, c, 0)],
                   SetFat(g, f, c, 0));
    }
  }

  /** The sectors that hold the bits and FAT entries of the first `n` clusters. */
  ghost function MetaSectors(g: Geometry, bc: seq<nat>, cs: seq<nat>, n: nat): (s: set<nat>)
    requires g.sectorsPerCluster >= 1 && BitmapCovers(g, bc) && Clusters(g, cs) && n <= |cs|
  {
    if n == 0 then {}
    else MetaSectors(g, bc, cs, n - 1) + {BitLba(g, bc, cs[n - 1])} + {FatLba(g, cs[n - 1])}
  }

  lemma {:induction false} EditsTouch(g: Geometry, bc: seq<nat>, cs: seq<nat>, n: nat)
    requires g.sectorsPerCluster >= 1 && BitmapCovers(g, bc) && Clusters(g, cs) && n <= |cs|
    ensures Touched(MarkEdits(g, bc, cs, n)) == MetaSectors(g, bc, cs, n)
    ensures Touched(ReleaseEdits(g, bc, cs, n)) == MetaSectors(g, bc, cs, n)
  {
    hide BitmapCovers, Touched, BitLba, FatLba, NextLink;
    if n == 0 {
      TouchedNone();
    } else {
      var c, v := cs[n - 1], NextLink(cs, n - 1);
      EditsTouch(g, bc, cs, n - 1);
      var m, r := MarkEdits(g, bc, cs, n - 1), ReleaseEdits(g, bc, cs, n - 1);
      TouchedConcat(m, [BitEdit(g, bc, c, true)]);
      TouchedConcat(m + [BitEdit(g, bc, c, true)], [FatEdit(g, c, v)]);
      TouchedConcat(r, [BitEdit(g, bc, c, false)]);
      TouchedConcat(r + [BitEdit(g, bc, c, false)], [FatEdit(g, c, 0)]);
      TouchedOne(BitEdit(g, bc, c, true));
      TouchedOne(BitEdit(g, bc, c, false));
      TouchedOne(FatEdit(g, c, v));
      TouchedOne(FatEdit(g, c, 0));
    }
  }

  lemma TouchedNone()
    ensures Touched([]) == {}
  {
  }

  // ---------- the sector budget ----------

  /** `n` consecutive clusters from `c`. */
  function Run(c: nat, n: nat): (r: seq<nat>)
    ensures |r| == n && forall i :: 0 <= i < n ==> r[i] == c + i
  {
    seq(n, i requires 0 <= i < n => c + i)
  }

  /** The bits of clusters in the same 4096-cluster group share a sector. */
  lemma SameBitSector(g: Geometry, bc: seq<nat>, c: nat, x: nat)
    requires g.sectorsPerCluster >= 1 && BitmapCovers(g, bc) && ClusterValid(g, c) && ClusterValid(g, x)
    requires BitSector(c) == BitSector(x)
    ensures BitLba(g, bc, c) == BitLba(g, bc, x)
  {
    hide ClusterLba, BitmapCovers, BitSector;
  }

  /** A FAT sector boundary and a bitmap sector boundary never fall inside one run of at most three clusters. */
  lemma OneBoundary(c: nat, n: nat)
    requires c >= 2 && 1 <= n <= 3
    ensures c * 4 / 512 == (c + n - 1) * 4 / 512 || BitSector(c) == BitSector(c + n - 1)
  {
  }

  lemma Monotone(g: Geometry, c: nat, i: nat, n: nat)
    requires c >= 2 && i < n <= 3
    ensures FatLba(g, c + i) == FatLba(g, c) || FatLba(g, c + i) == FatLba(g, c + n - 1)
    ensures BitSector(c + i) == BitSector(c) || BitSector(c + i) == BitSector(c + n - 1)
    ensures BitSector(c) == BitSector(c + n - 1) ==> BitSector(c + i) == BitSector(c)
    ensures FatLba(g, c) == FatLba(g, c + n - 1) ==> FatLba(g, c + i) == FatLba(g, c)
  {
  }

  /** Three sectors hold all the bits and FAT entries of up to three consecutive clusters. */
  lemma RunBudget(g: Geometry, bc: seq<nat>, c: nat, n: nat)
    requires g.sectorsPerCluster >= 1 && BitmapCovers(g, bc) && 1 <= n <= 3 && Clusters(g, Run(c, n))
    ensures |MetaSectors(g, bc, Run(c, n), n)| <= 3
  {
    var cs := Run(c, n);
    assert ClusterValid(g, cs[0]) && ClusterValid(g, cs[n - 1]);
    var last := c + n - 1;
    OneBoundary(c, n);
    var box: set<nat> := if BitSector(c) == BitSector(last) then {FatLba(g, c), FatLba(g, last), BitLba(g, bc, c)}
                         else {FatLba(g, c), BitLba(g, bc, c), BitLba(g, bc, last)};
    forall i: nat | i < n ensures FatLba(g, cs[i]) in box && BitLba(g, bc, cs[i]) in box {
      RunInBox(g, bc, c, n, i);
    }
    MetaWithin(g, bc, cs, n, box);
    SubsetCount(MetaSectors(g, bc, cs, n), box);
    BoxCount(FatLba(g, c), FatLba(g, last), BitLba(g, bc, c));
    BoxCount(FatLba(g, c), BitLba(g, bc, c), BitLba(g, bc, last));
  }

  lemma BoxCount(a: nat, b: nat, c: nat)
    ensures |{a, b, c}| <= 3
  {
    var s := {a} + {b};
    assert {a, b, c} == s + {c};
  }

  lemma RunInBox(g: Geometry, bc: seq<nat>, c: nat, n: nat, i: nat)
    requires g.sectorsPerCluster >= 1 && BitmapCovers(g, bc) && i < n <= 3
    requires ClusterValid(g, c) && ClusterValid(g, c + n - 1)
    ensures ClusterValid(g, c + i)
    ensures FatLba(g, c + i) == FatLba(g, c) || FatLba(g, c + i) == FatLba(g, c + n - 1)
    ensures BitLba(g, bc, c + i) == BitLba(g, bc, c) || BitLba(g, bc, c + i) == BitLba(g, bc, c + n - 1)
    ensures BitSector(c) == BitSector(c + n - 1) ==> BitLba(g, bc, c + i) == BitLba(g, bc, c)
    ensures BitSector(c) != BitSector(c + n - 1) ==> FatLba(g, c + i) == FatLba(g, c)
  {
    hide BitLba, BitmapCovers, BitSector, FatLba;
    Monotone(g, c, i, n);
    FatBoundary(g, c, n);
    if BitSector(c + i) == BitSector(c) { SameBitSector(g, bc, c + i, c); }
    if BitSector(c + i) == BitSector(c + n - 1) { SameBitSector(g, bc, c + i, c + n - 1); }
  }

  lemma FatBoundary(g: Geometry, c: nat, n: nat)
    requires c >= 2 && 1 <= n <= 3
    ensures BitSector(c) != BitSector(c + n - 1) ==> FatLba(g, c) == FatLba(g, c + n - 1)
  {
    OneBoundary(c, n);
  }

  lemma {:induction false} MetaWithin(g: Geometry, bc: seq<nat>, cs: seq<nat>, n: nat, box: set<nat>)
    requires g.sectorsPerCluster >= 1 && BitmapCovers(g, bc) && Clusters(g, cs) && n <= |cs|
    requires forall i: nat :: i < n ==> FatLba(g, cs[i]) in box && BitLba(g, bc, cs[i]) in box
    ensures MetaSectors(g, bc, cs, n) <= box
  {
    hide BitmapCovers, BitLba, FatLba;
    if n > 0 { MetaWithin(g, bc, cs, n - 1, box); }
  }

  /** One more sector than a run's own fits the transaction: the directory for a create, the FAT sector of the
      old end for an extension. */
  lemma BudgetPlusOne(g: Geometry, bc: seq<nat>, c: nat, n: nat, extra: nat)
    requires g.sectorsPerCluster >= 1 && BitmapCovers(g, bc) && 1 <= n <= 3 && Clusters(g, Run(c, n))
    ensures |MetaSectors(g, bc, Run(c, n), n) + {extra}| <= MAX_SECTORS
  {
    hide *;
    RunBudget(g, bc, c, n);
    PlusOne(MetaSectors(g, bc, Run(c, n), n), extra);
  }

  lemma PlusOne(s: set<nat>, x: nat)
    ensures |s + {x}| <= |s| + 1
    ensures MAX_SECTORS == 4
  {
    if x in s { assert s + {x} == s; }
  }
}
