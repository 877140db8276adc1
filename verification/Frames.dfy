/** Which FAT entries, bitmap bits and data clusters a change of the disk leaves as they were. */
module Frames {
  import opened Bytes
  import opened Arithmetic
  import opened Volume

  function Elements(cs: seq<nat>): (s: set<nat>)
    ensures forall x :: x in s <==> x in cs
  {
    set x | x in cs
  }

  ghost predicate FatSame(g: Geometry, d: Disk, d': Disk, except: set<nat>) {
    Fits(g, |d|) && |d'| == |d| &&
    forall c :: ClusterValid(g, c) && c !in except ==> FatAt(g, d', c) == FatAt(g, d, c)
  }

  ghost predicate BitsSame(g: Geometry, bc: seq<nat>, d: Disk, d': Disk, except: set<nat>) {
    Fits(g, |d|) && |d'| == |d| && BitmapCovers(g, bc) &&
    forall c :: ClusterValid(g, c) && c !in except ==> BitAt(g, bc, d', c) == BitAt(g, bc, d, c)
  }

  ghost predicate DataSame(g: Geometry, d: Disk, d': Disk, except: set<nat>) {
    Fits(g, |d|) && |d'| == |d| &&
    forall c :: ClusterValid(g, c) && c !in except ==> SameCluster(g, d, d', c)
  }

  /** The disk changed only in the FAT entries of `fats`, the bits of `bits` and the sectors of `data`. */
  ghost predicate Changes(g: Geometry, bc: seq<nat>, d: Disk, d': Disk, fats: set<nat>, bits: set<nat>,
                          data: set<nat>) {
    FatSame(g, d, d', fats) && BitsSame(g, bc, d, d', bits) && DataSame(g, d, d', data)
  }

  lemma ChangesRefl(g: Geometry, bc: seq<nat>, d: Disk)
    requires Fits(g, |d|) && BitmapCovers(g, bc)
    ensures Changes(g, bc, d, d, {}, {}, {})
  {
  }

  lemma SameClusterTrans(g: Geometry, d: Disk, e: Disk, f: Disk, c: nat)
    requires Fits(g, |d|) && |e| == |d| && |f| == |d| && ClusterValid(g, c)
    requires SameCluster(g, d, e, c) && SameCluster(g, e, f, c)
    ensures SameCluster(g, d, f, c)
  {
    ClusterInHeap(g, |d|, c);
  }

  lemma ChangesTrans(g: Geometry, bc: seq<nat>, d: Disk, e: Disk, f: Disk,
                     fats: set<nat>, bits: set<nat>, data: set<nat>, fats': set<nat>, bits': set<nat>, data': set<nat>)
    requires Changes(g, bc, d, e, fats, bits, data) && Changes(g, bc, e, f, fats', bits', data')
    ensures Changes(g, bc, d, f, fats + fats', bits + bits', data + data')
  {
    hide FatAt, BitAt, SameCluster, ClusterValid, Fits, BitmapCovers;
    forall c | ClusterValid(g, c) && c !in data + data' ensures SameCluster(g, d, f, c) {
      SameClusterTrans(g, d, e, f, c);
    }
  }

  lemma ChangesWiden(g: Geometry, bc: seq<nat>, d: Disk, e: Disk,
                     fats: set<nat>, bits: set<nat>, data: set<nat>, fats': set<nat>, bits': set<nat>, data': set<nat>)
    requires Changes(g, bc, d, e, fats, bits, data)
    requires fats <= fats' && bits <= bits' && data <= data'
    ensures Changes(g, bc, d, e, fats', bits', data')
  {
    hide FatAt, BitAt, SameCluster, ClusterValid, Fits, BitmapCovers;
  }

  /** Writing one FAT entry. */
  lemma SetFatChanges(g: Geometry, bc: seq<nat>, d: Disk, c: nat, v: nat)
    requires Fits(g, |d|) && BitmapCovers(g, bc) && ClusterValid(g, c) && v < 0x1_0000_0000
    ensures Changes(g, bc, d, SetFat(g, d, c, v), {c}, {}, {})
  {
    var d' := SetFat(g, d, c, v);
    FatInRange(g, |d|, c);
    assert forall l :: g.heapOffset <= l < |d| ==> d'[l] == d[l];
    forall x: nat | ClusterValid(g, x) && x !in {c} ensures FatAt(g, d', x) == FatAt(g, d, x) {
      hide *;
      SetFatReads(g, d, c, v, x);
    }
    hide *;
    FatSameIs(g, d, d', {c});
    HeapSame(g, bc, d, d');
    ChangesIs(g, bc, d, d', {c}, {}, {});
  }

  lemma FatSameIs(g: Geometry, d: Disk, d': Disk, except: set<nat>)
    requires Fits(g, |d|) && |d'| == |d|
    requires forall c :: ClusterValid(g, c) && c !in except ==> FatAt(g, d', c) == FatAt(g, d, c)
    ensures FatSame(g, d, d', except)
  {
  }

  lemma HeapSame(g: Geometry, bc: seq<nat>, d: Disk, d': Disk)
    requires Fits(g, |d|) && |d'| == |d| && BitmapCovers(g, bc)
    requires forall l :: g.heapOffset <= l < |d| ==> d'[l] == d[l]
    ensures BitsSame(g, bc, d, d', {}) && DataSame(g, d, d', {})
  {
    hide BitAt, SameCluster, Fits, BitmapCovers, ClusterValid;
    forall x: nat | ClusterValid(g, x) ensures SameCluster(g, d, d', x) {
      HeapSameCluster(g, d, d', x);
    }
    forall x: nat | ClusterValid(g, x) ensures BitAt(g, bc, d', x) == BitAt(g, bc, d, x) {
      BitFrameOf(g, bc, d, d', x);
    }
  }

  lemma HeapSameCluster(g: Geometry, d: Disk, d': Disk, x: nat)
    requires Fits(g, |d|) && |d'| == |d| && ClusterValid(g, x)
    requires forall l :: g.heapOffset <= l < |d| ==> d'[l] == d[l]
    ensures SameCluster(g, d, d', x)
  {
    ClusterInHeap(g, |d|, x);
  }

  lemma BitFrameOf(g: Geometry, bc: seq<nat>, d: Disk, d': Disk, x: nat)
    requires Fits(g, |d|) && |d'| == |d| && BitmapCovers(g, bc) && ClusterValid(g, x)
    requires forall l :: g.heapOffset <= l < |d| ==> d'[l] == d[l]
    ensures BitAt(g, bc, d', x) == BitAt(g, bc, d, x)
  {
    BitInRange(g, |d|, bc, x);
  }

  /** Setting or clearing one bit. */
  lemma PutBitChanges(g: Geometry, bc: seq<nat>, d: Disk, c: nat, set_: bool)
    requires Fits(g, |d|) && BitmapCovers(g, bc) && ClusterValid(g, c)
    ensures Changes(g, bc, d, PutBit(g, bc, d, c, set_), {}, {c}, Elements(bc))
  {
    var d' := PutBit(g, bc, d, c, set_);
    var b := BitCluster(g, bc, c);
    BitInRange(g, |d|, bc, c);
    var k := BitSector(c) % g.sectorsPerCluster;
    var s := PatchedBit(d[BitLba(g, bc, c)], BitOff(c), BitPos(c), set_);
    assert d' == d[ClusterLba(g, b) + k := s];
    assert forall x :: ClusterValid(g, x) && x !in {c} ==> BitAt(g, bc, d', x) == BitAt(g, bc, d, x) by {
      forall x | ClusterValid(g, x) && x !in {c} ensures BitAt(g, bc, d', x) == BitAt(g, bc, d, x) {
        PutBitReads(g, bc, d, c, set_, x);
      }
    }
    hide *;
    HeapWriteElsewhere(g, d, b, k, s);
    BitsSameIs(g, bc, d, d', {c});
    DataSameWiden(g, d, d', {b}, Elements(bc));
    ChangesIs(g, bc, d, d', {}, {c}, Elements(bc));
  }

  lemma BitsSameIs(g: Geometry, bc: seq<nat>, d: Disk, d': Disk, except: set<nat>)
    requires Fits(g, |d|) && |d'| == |d| && BitmapCovers(g, bc)
    requires forall c :: ClusterValid(g, c) && c !in except ==> BitAt(g, bc, d', c) == BitAt(g, bc, d, c)
    ensures BitsSame(g, bc, d, d', except)
  {
  }

  lemma ChangesIs(g: Geometry, bc: seq<nat>, d: Disk, d': Disk, fats: set<nat>, bits: set<nat>, data: set<nat>)
    requires FatSame(g, d, d', fats) && BitsSame(g, bc, d, d', bits) && DataSame(g, d, d', data)
    ensures Changes(g, bc, d, d', fats, bits, data)
  {
  }

  lemma DataSameWiden(g: Geometry, d: Disk, d': Disk, data: set<nat>, data': set<nat>)
    requires DataSame(g, d, d', data) && data <= data'
    ensures DataSame(g, d, d', data')
  {
    hide SameCluster, ClusterValid, Fits;
  }

  /** Writing a sector of cluster `b` leaves the FAT and every other cluster alone. */
  lemma HeapWriteElsewhere(g: Geometry, d: Disk, b: nat, k: nat, s: Sector)
    requires Fits(g, |d|) && ClusterValid(g, b) && k < g.sectorsPerCluster
    ensures ClusterLba(g, b) + k < |d|
    ensures FatSame(g, d, d[ClusterLba(g, b) + k := s], {})
    ensures DataSame(g, d, d[ClusterLba(g, b) + k := s], {b})
  {
    ClusterInHeap(g, |d|, b);
    var d' := d[ClusterLba(g, b) + k := s];
    hide FatAt, ClusterLba;
    forall x | ClusterValid(g, x) ensures FatAt(g, d', x) == FatAt(g, d, x) {
      FatFrame(g, d, d', x);
    }
    forall x: nat | ClusterValid(g, x) && x !in {b} ensures SameCluster(g, d, d', x) {
      ClusterInHeap(g, |d|, x);
      if x < b { ClustersApart(g, x, b); } else { ClustersApart(g, b, x); }
    }
  }

  /** Writing a sector of a cluster that is not part of the bitmap changes no bit either. */
  lemma HeapWriteChanges(g: Geometry, bc: seq<nat>, d: Disk, b: nat, k: nat, s: Sector)
    requires Fits(g, |d|) && BitmapCovers(g, bc) && ClusterValid(g, b) && b !in bc && k < g.sectorsPerCluster
    ensures ClusterLba(g, b) + k < |d|
    ensures Changes(g, bc, d, d[ClusterLba(g, b) + k := s], {}, {}, {b})
  {
    HeapWriteElsewhere(g, d, b, k, s);
    var d' := d[ClusterLba(g, b) + k := s];
    hide BitAt, SameCluster, ClusterLba, FatSame, BitmapCovers;
    forall x | ClusterValid(g, x) ensures BitAt(g, bc, d', x) == BitAt(g, bc, d, x) {
      var y := BitCluster(g, bc, x);
      BitFrame(g, bc, d, d', x);
    }
  }
}
