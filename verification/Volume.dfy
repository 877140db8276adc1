/** An exFAT volume as 512-byte sectors: where the FAT entry and the bitmap bit of a cluster live,
    and which parts of the disk each kind of write can change. */
module Volume {
  import opened Arithmetic
  import opened Bytes

  type Disk = seq<Sector>

  datatype Geometry = Geometry(
    fatOffset: nat, fatLength: nat, heapOffset: nat, clusterCount: nat, sectorsPerCluster: nat,
    rootCluster: nat, bitmapCluster: nat, bitmapSize: nat)

  const EOF_MARK: nat := 0xffff_ffff
  const EOF_MIN: nat := 0xffff_fff8

  predicate ClusterValid(g: Geometry, c: nat) {
    2 <= c < g.clusterCount + 2
  }

  /** A volume within the exFAT limits: the FAT lies before the cluster heap and covers every cluster,
      the heap lies on the device, and the bitmap has a bit for every cluster. */
  predicate Fits(g: Geometry, sectors: nat) {
    && 1 <= g.sectorsPerCluster <= 0x1_0000
    && g.clusterCount <= 0xffff_fff5
    && g.fatOffset + g.fatLength <= g.heapOffset
    && g.heapOffset + g.clusterCount * g.sectorsPerCluster <= sectors
    && (g.clusterCount + 1) * 4 / 512 < g.fatLength
    && g.clusterCount <= 8 * g.bitmapSize
    && ClusterValid(g, g.rootCluster)
    && ClusterValid(g, g.bitmapCluster)
  }

  lemma SpcBounds(g: Geometry, n: nat)
    requires Fits(g, n)
    ensures 1 <= g.sectorsPerCluster <= 0x1_0000
  {
  }

  function ClusterSize(g: Geometry): nat {
    g.sectorsPerCluster * 512
  }

  /** The bytes that `n` clusters hold. */
  function Capacity(g: Geometry, n: nat): (bytes: nat) {
    n * ClusterSize(g)
  }

  // ---------- sectors of a cluster ----------

  function ClusterLba(g: Geometry, c: nat): nat
    requires ClusterValid(g, c)
  {
    g.heapOffset + (c - 2) * g.sectorsPerCluster
  }

  lemma ClusterInHeap(g: Geometry, n: nat, c: nat)
    requires Fits(g, n) && ClusterValid(g, c)
    ensures g.heapOffset <= ClusterLba(g, c)
    ensures ClusterLba(g, c) + g.sectorsPerCluster <= n
  {
    RowBelow(c - 2, g.clusterCount, g.sectorsPerCluster);
  }

  lemma ClustersApart(g: Geometry, c: nat, c': nat)
    requires ClusterValid(g, c) && ClusterValid(g, c') && c < c'
    ensures ClusterLba(g, c) + g.sectorsPerCluster <= ClusterLba(g, c')
  {
    RowBelow(c - 2, c' - 2, g.sectorsPerCluster);
  }

  /** A heap sector belongs to one cluster, at one position. */
  lemma SectorOwner(g: Geometry, c: nat, k: nat, c': nat, k': nat)
    requires ClusterValid(g, c) && ClusterValid(g, c')
    requires k < g.sectorsPerCluster && k' < g.sectorsPerCluster
    requires ClusterLba(g, c) + k == ClusterLba(g, c') + k'
    ensures c == c' && k == k'
  {
    hide ClusterLba;
    if c < c' { ClustersApart(g, c, c'); }
    if c' < c { ClustersApart(g, c', c); }
  }

  // ---------- FAT entries ----------

  function FatLba(g: Geometry, c: nat): nat {
    g.fatOffset + c * 4 / 512
  }

  function FatOff(c: nat): (o: nat)
    ensures o + 4 <= 512
  {
    c * 4 % 512
  }

  lemma FatInRange(g: Geometry, n: nat, c: nat)
    requires Fits(g, n) && ClusterValid(g, c)
    ensures FatLba(g, c) < g.fatOffset + g.fatLength <= g.heapOffset <= n
  {
    MulLe(0, g.clusterCount, g.sectorsPerCluster);
  }

  function FatAt(g: Geometry, d: Disk, c: nat): (v: nat)
    requires Fits(g, |d|) && ClusterValid(g, c)
  {
    FatInRange(g, |d|, c);
    Le32(d[FatLba(g, c)], FatOff(c))
  }

  function SetFat(g: Geometry, d: Disk, c: nat, v: nat): (d': Disk)
    requires Fits(g, |d|) && ClusterValid(g, c)
    ensures |d'| == |d|
  {
    FatInRange(g, |d|, c);
    d[FatLba(g, c) := PutLe32(d[FatLba(g, c)], FatOff(c), v)]
  }

  lemma FatAtIs(g: Geometry, d: Disk, c: nat)
    requires Fits(g, |d|) && ClusterValid(g, c)
    ensures g.fatOffset + c * 4 / 512 < g.fatOffset + g.fatLength && g.fatOffset + c * 4 / 512 < |d|
    ensures c * 4 % 512 + 4 <= 512 && FatAt(g, d, c) == Le32(d[g.fatOffset + c * 4 / 512], c * 4 % 512)
  {
    FatInRange(g, |d|, c);
    hide Fits, Le32;
  }

  lemma SetFatReads(g: Geometry, d: Disk, c: nat, v: nat, x: nat)
    requires Fits(g, |d|) && ClusterValid(g, c) && ClusterValid(g, x) && v < 0x1_0000_0000
    ensures FatAt(g, SetFat(g, d, c, v), x) == if x == c then v else FatAt(g, d, x)
  {
    hide Le32, PutLe32, Fits;
    FatInRange(g, |d|, c);
    FatInRange(g, |d|, x);
    if FatLba(g, x) == FatLba(g, c) {
      assert x == c || FatOff(x) + 4 <= FatOff(c) || FatOff(c) + 4 <= FatOff(x);
      PutLe32Reads(d[FatLba(g, c)], FatOff(c), v, FatOff(x));
    }
  }

  /** The FAT entry of a cluster depends on FAT sectors alone. */
  lemma FatFrame(g: Geometry, d: Disk, d': Disk, x: nat)
    requires Fits(g, |d|) && |d'| == |d| && ClusterValid(g, x)
    requires forall l :: 0 <= l < g.heapOffset && l < |d| ==> d'[l] == d[l]
    ensures FatAt(g, d', x) == FatAt(g, d, x)
  {
    FatInRange(g, |d|, x);
  }

  // ---------- bitmap bits ----------

  /** `bc` lists the clusters of the allocation bitmap, in order. */
  predicate BitmapCovers(g: Geometry, bc: seq<nat>) {
    && (forall i :: 0 <= i < |bc| ==> ClusterValid(g, bc[i]))
    && (forall i, j :: 0 <= i < j < |bc| ==> bc[i] != bc[j])
    && g.clusterCount <= |bc| * g.sectorsPerCluster * 4096
  }

  function BitSector(c: nat): nat
    requires c >= 2
  {
    (c - 2) / 8 / 512
  }

  function BitOff(c: nat): (o: nat)
    requires c >= 2
    ensures o < 512
  {
    (c - 2) / 8 % 512
  }

  function BitPos(c: nat): (k: nat)
    requires c >= 2
    ensures k < 8
  {
    (c - 2) % 8
  }

  lemma BitPlace(c: nat, x: nat)
    requires c >= 2 && x >= 2
    requires BitSector(c) == BitSector(x) && BitOff(c) == BitOff(x) && BitPos(c) == BitPos(x)
    ensures c == x
  {
  }

  lemma BitClusterIndex(g: Geometry, bc: seq<nat>, c: nat)
    requires g.sectorsPerCluster >= 1 && BitmapCovers(g, bc) && ClusterValid(g, c)
    ensures BitSector(c) / g.sectorsPerCluster < |bc|
    ensures BitSector(c) % g.sectorsPerCluster < g.sectorsPerCluster
  {
    assert BitSector(c) < |bc| * g.sectorsPerCluster;
    DivBelow(BitSector(c), |bc|, g.sectorsPerCluster);
  }

  /** The bitmap cluster that holds the bit of cluster `c`. */
  function BitCluster(g: Geometry, bc: seq<nat>, c: nat): (b: nat)
    requires g.sectorsPerCluster >= 1 && BitmapCovers(g, bc) && ClusterValid(g, c)
    ensures ClusterValid(g, b) && b in bc
  {
    BitClusterIndex(g, bc, c);
    bc[BitSector(c) / g.sectorsPerCluster]
  }

  function BitLba(g: Geometry, bc: seq<nat>, c: nat): (l: nat)
    requires g.sectorsPerCluster >= 1 && BitmapCovers(g, bc) && ClusterValid(g, c)
  {
    ClusterLba(g, BitCluster(g, bc, c)) + BitSector(c) % g.sectorsPerCluster
  }

  lemma BitInRange(g: Geometry, n: nat, bc: seq<nat>, c: nat)
    requires Fits(g, n) && BitmapCovers(g, bc) && ClusterValid(g, c)
    ensures g.heapOffset <= BitLba(g, bc, c) < n
    ensures BitSector(c) % g.sectorsPerCluster < g.sectorsPerCluster
  {
    BitClusterIndex(g, bc, c);
    ClusterInHeap(g, n, BitCluster(g, bc, c));
  }

  predicate BitAt(g: Geometry, bc: seq<nat>, d: Disk, c: nat)
    requires Fits(g, |d|) && BitmapCovers(g, bc) && ClusterValid(g, c)
  {
    BitInRange(g, |d|, bc, c);
    BitIn(d[BitLba(g, bc, c)][BitOff(c)], BitPos(c))
  }

  function PatchedBit(s: Sector, o: nat, k: nat, set_: bool): (r: Sector)
    requires o < 512 && k < 8
  {
    s[o := if set_ then s[o] | Mask(k) else s[o] & !Mask(k)]
  }

  function PutBit(g: Geometry, bc: seq<nat>, d: Disk, c: nat, set_: bool): (d': Disk)
    requires Fits(g, |d|) && BitmapCovers(g, bc) && ClusterValid(g, c)
    ensures |d'| == |d|
  {
    BitInRange(g, |d|, bc, c);
    d[BitLba(g, bc, c) := PatchedBit(d[BitLba(g, bc, c)], BitOff(c), BitPos(c), set_)]
  }

  /** Two clusters whose bits share a sector sit in the same sector of the bitmap. */
  lemma SameBitLba(g: Geometry, bc: seq<nat>, c: nat, x: nat)
    requires g.sectorsPerCluster >= 1 && BitmapCovers(g, bc) && ClusterValid(g, c) && ClusterValid(g, x)
    requires BitLba(g, bc, c) == BitLba(g, bc, x)
    ensures BitSector(c) == BitSector(x)
  {
    hide ClusterLba, BitSector;
    BitClusterIndex(g, bc, c);
    BitClusterIndex(g, bc, x);
    SectorOwner(g, BitCluster(g, bc, c), BitSector(c) % g.sectorsPerCluster,
                BitCluster(g, bc, x), BitSector(x) % g.sectorsPerCluster);
    var i, j := BitSector(c) / g.sectorsPerCluster, BitSector(x) / g.sectorsPerCluster;
    assert bc[i] == bc[j];
    assert i == j;
    SameDivMod(BitSector(c), BitSector(x), g.sectorsPerCluster);
  }

  lemma PatchedBitReads(s: Sector, o: nat, k: nat, set_: bool, b: nat, p: nat)
    requires o < 512 && k < 8 && b < 512 && p < 8
    ensures BitIn(PatchedBit(s, o, k, set_)[b], p) == if b == o && p == k then set_ else BitIn(s[b], p)
  {
    hide *;
    PatchedAt(s, o, k, set_, b);
    SetBitReads(s[o], k, p);
    ClearBitReads(s[o], k, p);
  }

  lemma PatchedAt(s: Sector, o: nat, k: nat, set_: bool, b: nat)
    requires o < 512 && k < 8 && b < 512
    ensures PatchedBit(s, o, k, set_)[b] == if b != o then s[b] else if set_ then s[o] | Mask(k) else s[o] & !Mask(k)
  {
    hide Mask;
  }

  lemma PutBitReads(g: Geometry, bc: seq<nat>, d: Disk, c: nat, set_: bool, x: nat)
    requires Fits(g, |d|) && BitmapCovers(g, bc) && ClusterValid(g, c) && ClusterValid(g, x)
    ensures BitAt(g, bc, PutBit(g, bc, d, c, set_), x) == if x == c then set_ else BitAt(g, bc, d, x)
  {
    hide BitIn, BitLba, BitmapCovers, PatchedBit, BitSector, BitOff, BitPos;
    BitInRange(g, |d|, bc, c);
    BitInRange(g, |d|, bc, x);
    if BitLba(g, bc, x) == BitLba(g, bc, c) {
      SameBitLba(g, bc, c, x);
      if BitOff(x) == BitOff(c) && BitPos(x) == BitPos(c) { BitPlace(c, x); }
      PatchedBitReads(d[BitLba(g, bc, c)], BitOff(c), BitPos(c), set_, BitOff(x), BitPos(x));
    }
  }

  /** The bit of a cluster depends on the bitmap's clusters alone. */
  lemma BitFrame(g: Geometry, bc: seq<nat>, d: Disk, d': Disk, x: nat)
    requires Fits(g, |d|) && |d'| == |d| && BitmapCovers(g, bc) && ClusterValid(g, x)
    requires SameCluster(g, d, d', BitCluster(g, bc, x))
    ensures BitAt(g, bc, d', x) == BitAt(g, bc, d, x)
  {
    BitClusterIndex(g, bc, x);
    ClusterInHeap(g, |d|, BitCluster(g, bc, x));
  }

  // ---------- what a write leaves alone ----------

  ghost predicate SameCluster(g: Geometry, d: Disk, d': Disk, c: nat)
    requires Fits(g, |d|) && |d'| == |d| && ClusterValid(g, c)
  {
    ClusterInHeap(g, |d|, c);
    forall l :: ClusterLba(g, c) <= l < ClusterLba(g, c) + g.sectorsPerCluster ==> d'[l] == d[l]
  }
}
