/** Cluster chains and the bytes of a file stored along one. */
module Chains {
  import opened Bytes
  import opened Arithmetic
  import opened Volume
  import opened Frames
  import opened Options
  import opened Paths

  /** Distinct clusters of the heap. */
  ghost predicate Clusters(g: Geometry, ch: seq<nat>) {
    && (forall i :: 0 <= i < |ch| ==> ClusterValid(g, ch[i]))
    && (forall i, j :: 0 <= i < j < |ch| ==> ch[i] != ch[j])
  }

  /** Each cluster's FAT entry names the next one. */
  ghost predicate Linked(g: Geometry, d: Disk, ch: seq<nat>)
    requires Fits(g, |d|) && Clusters(g, ch)
  {
    forall i :: 0 <= i < |ch| - 1 ==> FatAt(g, d, ch[i]) == ch[i + 1]
  }

  ghost predicate Ends(g: Geometry, d: Disk, ch: seq<nat>)
    requires Fits(g, |d|) && Clusters(g, ch)
  {
    ch != [] && FatAt(g, d, ch[|ch| - 1]) >= EOF_MIN
  }

  ghost predicate Misses(ch: seq<nat>, s: set<nat>) {
    forall i :: 0 <= i < |ch| ==> ch[i] !in s
  }

  lemma LinkedFrame(g: Geometry, d: Disk, d': Disk, ch: seq<nat>, fats: set<nat>)
    requires FatSame(g, d, d', fats) && Clusters(g, ch) && Misses(ch, fats)
    ensures Linked(g, d', ch) == Linked(g, d, ch)
    ensures Ends(g, d', ch) == Ends(g, d, ch)
  {
    hide FatAt, Fits;
  }

  // ---------- following a chain ----------

  /** The cluster after `c`, unless its FAT entry ends the chain or names no cluster. */
  function NextCluster(g: Geometry, d: Disk, c: nat): (r: Option<nat>)
    requires Fits(g, |d|) && ClusterValid(g, c)
    ensures r.Some? ==> ClusterValid(g, r.value)
  {
    var v := FatAt(g, d, c);
    if v >= EOF_MIN || !ClusterValid(g, v) then None else Some(v)
  }

  /** The cluster reached from `c` in `n` steps. */
  function Walk(g: Geometry, d: Disk, c: nat, n: nat): (r: Option<nat>)
    requires Fits(g, |d|) && ClusterValid(g, c)
    ensures r.Some? ==> ClusterValid(g, r.value)
    decreases n
  {
    if n == 0 then Some(c)
    else match NextCluster(g, d, c)
      case None => None
      case Some(v) => Walk(g, d, v, n - 1)
  }

  lemma {:induction false} WalkSuffix(g: Geometry, d: Disk, ch: seq<nat>, i: nat, n: nat)
    requires Fits(g, |d|) && Clusters(g, ch) && Linked(g, d, ch) && i < |ch|
    ensures i + n < |ch| ==> Walk(g, d, ch[i], n) == Some(ch[i + n])
    ensures i + n >= |ch| && Ends(g, d, ch) ==> Walk(g, d, ch[i], n) == None
    decreases n
  {
    hide FatAt;
    if n > 0 && i + 1 < |ch| {
      assert FatAt(g, d, ch[i]) == ch[i + 1];
      assert ClusterValid(g, ch[i + 1]) && ch[i + 1] < EOF_MIN by { assert g.clusterCount <= 0xffff_fff5; }
      WalkSuffix(g, d, ch, i + 1, n - 1);
    }
  }

  /** Walking a linked chain visits its clusters in order, and an ended chain has no further one. */
  lemma WalkChain(g: Geometry, d: Disk, ch: seq<nat>, n: nat)
    requires Fits(g, |d|) && Clusters(g, ch) && ch != [] && Linked(g, d, ch)
    ensures n < |ch| ==> Walk(g, d, ch[0], n) == Some(ch[n])
    ensures n >= |ch| && Ends(g, d, ch) ==> Walk(g, d, ch[0], n) == None
  {
    WalkSuffix(g, d, ch, 0, n);
  }

  // ---------- bytes along a chain ----------

  predicate InChain(g: Geometry, ch: seq<nat>, p: nat) {
    g.sectorsPerCluster >= 1 && p / 512 < |ch| * g.sectorsPerCluster
  }

  lemma InChainBySize(g: Geometry, ch: seq<nat>, p: nat)
    requires g.sectorsPerCluster >= 1 && p < Capacity(g, |ch|)
    ensures InChain(g, ch, p)
  {
    assert |ch| * ClusterSize(g) == |ch| * g.sectorsPerCluster * 512;
  }

  /** The chain position and the sector within that cluster of file byte `p`. */
  lemma PositionBounds(g: Geometry, ch: seq<nat>, p: nat)
    requires InChain(g, ch, p)
    ensures p / 512 / g.sectorsPerCluster < |ch|
    ensures p / 512 % g.sectorsPerCluster < g.sectorsPerCluster
  {
    DivBelow(p / 512, |ch|, g.sectorsPerCluster);
  }

  function FileCluster(g: Geometry, ch: seq<nat>, p: nat): (c: nat)
    requires InChain(g, ch, p)
    ensures c in ch
  {
    PositionBounds(g, ch, p);
    ch[p / 512 / g.sectorsPerCluster]
  }

  /** The sector that holds file byte `p`. */
  function FileLba(g: Geometry, ch: seq<nat>, p: nat): (l: nat)
    requires Clusters(g, ch) && InChain(g, ch, p)
  {
    ClusterLba(g, FileCluster(g, ch, p)) + p / 512 % g.sectorsPerCluster
  }

  lemma FileLbaBounds(g: Geometry, n: nat, ch: seq<nat>, p: nat)
    requires Fits(g, n) && Clusters(g, ch) && InChain(g, ch, p)
    ensures ClusterLba(g, FileCluster(g, ch, p)) <= FileLba(g, ch, p) < ClusterLba(g, FileCluster(g, ch, p)) +
            g.sectorsPerCluster
    ensures FileLba(g, ch, p) < n
  {
    PositionBounds(g, ch, p);
    ClusterInHeap(g, n, FileCluster(g, ch, p));
  }

  lemma ChainSectorInjective(g: Geometry, ch: seq<nat>, t: nat, u: nat)
    requires g.sectorsPerCluster >= 1 && Clusters(g, ch)
    requires t / g.sectorsPerCluster < |ch| && u / g.sectorsPerCluster < |ch|
    requires ClusterLba(g, ch[t / g.sectorsPerCluster]) + t % g.sectorsPerCluster
          == ClusterLba(g, ch[u / g.sectorsPerCluster]) + u % g.sectorsPerCluster
    ensures t == u
  {
    hide ClusterLba;
    var m := g.sectorsPerCluster;
    var i, j, k, l := t / m, u / m, t % m, u % m;
    SectorOwner(g, ch[i], k, ch[j], l);
    assert i == j && k == l;
    SameDivMod(t, u, m);
  }

  /** Different sectors of a file are different sectors of the disk. */
  lemma FileLbaInjective(g: Geometry, ch: seq<nat>, p: nat, q: nat)
    requires Clusters(g, ch) && InChain(g, ch, p) && InChain(g, ch, q)
    requires FileLba(g, ch, p) == FileLba(g, ch, q)
    ensures p / 512 == q / 512
  {
    hide ClusterLba, Clusters;
    PositionBounds(g, ch, p);
    PositionBounds(g, ch, q);
    ChainSectorInjective(g, ch, p / 512, q / 512);
  }

  function FileByte(g: Geometry, d: Disk, ch: seq<nat>, p: nat): (b: Byte)
    requires Fits(g, |d|) && Clusters(g, ch) && InChain(g, ch, p)
  {
    FileLbaBounds(g, |d|, ch, p);
    d[FileLba(g, ch, p)][p % 512]
  }

  lemma FileByteFrame(g: Geometry, d: Disk, d': Disk, ch: seq<nat>, data: set<nat>, p: nat)
    requires DataSame(g, d, d', data) && Clusters(g, ch) && Misses(ch, data) && InChain(g, ch, p)
    ensures FileByte(g, d', ch, p) == FileByte(g, d, ch, p)
  {
    var c := FileCluster(g, ch, p);
    FileLbaBounds(g, |d|, ch, p);
    PositionBounds(g, ch, p);
    assert c !in data && ClusterValid(g, c);
    assert SameCluster(g, d, d', c);
  }

  /** The first `size` bytes stored along the chain. */
  ghost function Contents(g: Geometry, d: Disk, ch: seq<nat>, size: nat): (s: seq<Byte>)
    requires Fits(g, |d|) && Clusters(g, ch) && size <= Capacity(g, |ch|)
    ensures |s| == size
  {
    seq(size, p requires 0 <= p < size => InChainBySize(g, ch, p); FileByte(g, d, ch, p))
  }

  lemma ContentsAt(g: Geometry, d: Disk, ch: seq<nat>, size: nat, p: nat)
    requires Fits(g, |d|) && Clusters(g, ch) && p < size <= Capacity(g, |ch|)
    ensures InChain(g, ch, p) && Contents(g, d, ch, size)[p] == FileByte(g, d, ch, p)
  {
    InChainBySize(g, ch, p);
  }

  lemma ContentsFrame(g: Geometry, d: Disk, d': Disk, ch: seq<nat>, data: set<nat>, size: nat)
    requires DataSame(g, d, d', data) && Clusters(g, ch) && Misses(ch, data) && size <= Capacity(g, |ch|)
    ensures Contents(g, d', ch, size) == Contents(g, d, ch, size)
  {
    assert Fits(g, |d|) && |d'| == |d|;
    hide FileByte, Contents, DataSame, Clusters, Misses, Fits;
    var s, s' := Contents(g, d, ch, size), Contents(g, d', ch, size);
    forall p: nat | p < size ensures s'[p] == s[p] {
      ContentsAt(g, d, ch, size, p);
      ContentsAt(g, d', ch, size, p);
      FileByteFrame(g, d, d', ch, data, p);
    }
  }

  /** Appending clusters to a chain moves none of the bytes stored along it. */
  lemma FileByteExtend(g: Geometry, d: Disk, ch: seq<nat>, more: seq<nat>, p: nat)
    requires Fits(g, |d|) && Clusters(g, ch) && Clusters(g, ch + more) && InChain(g, ch, p)
    ensures InChain(g, ch + more, p) && FileByte(g, d, ch + more, p) == FileByte(g, d, ch, p)
  {
    PositionBounds(g, ch, p);
    MulLe(|ch|, |ch + more|, g.sectorsPerCluster);
  }
}
