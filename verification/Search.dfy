/** What the three searches of the write path look for: free cluster runs, free directory slots, table rows. */
module Search {
  import opened Bytes
  import opened Arithmetic
  import opened Volume
  import opened Frames
  import opened Chains
  import opened Allocation
  import opened Options
  import opened Paths
  import opened FileSystem
  import opened FileOps
  import opened CreateUnlink
  import opened Edits

  // ---------- free cluster runs ----------

  ghost predicate FreeAt(L: Layout, d: Disk, c: nat)
    requires Fits(L.g, |d|) && BitmapCovers(L.g, L.bc)
  {
    ClusterValid(L.g, c) && Free(L.g, L.bc, d, c)
  }

  ghost predicate RunFree(L: Layout, d: Disk, c: nat, n: nat)
    requires Fits(L.g, |d|) && BitmapCovers(L.g, L.bc)
  {
    forall k: nat :: c <= k < c + n ==> FreeAt(L, d, k)
  }

  /** The scan has looked at the clusters below `cluster`: the last `run` of them are free, the one before is
      not, and no run of `n` lies wholly below. */
  ghost predicate RunScan(L: Layout, d: Disk, cluster: nat, run: nat, n: nat)
    requires Fits(L.g, |d|) && BitmapCovers(L.g, L.bc)
  {
    && 2 + run <= cluster && run < n
    && (forall k: nat :: cluster - run <= k < cluster ==> FreeAt(L, d, k))
    && !FreeAt(L, d, cluster - run - 1)
    && (forall c: nat :: c + n <= cluster ==> !RunFree(L, d, c, n))
  }

  lemma RunScanStart(L: Layout, d: Disk, n: nat)
    requires Fits(L.g, |d|) && BitmapCovers(L.g, L.bc) && n >= 1
    ensures RunScan(L, d, 2, 0, n)
  {
    hide Free;
    forall c: nat | c + n <= 2 ensures !RunFree(L, d, c, n) {
      assert !FreeAt(L, d, c);
    }
  }

  lemma RunScanStep(L: Layout, d: Disk, cluster: nat, run: nat, n: nat)
    requires Fits(L.g, |d|) && BitmapCovers(L.g, L.bc) && RunScan(L, d, cluster, run, n)
    ensures !FreeAt(L, d, cluster) ==> RunScan(L, d, cluster + 1, 0, n)
    ensures FreeAt(L, d, cluster) && run + 1 < n ==> RunScan(L, d, cluster + 1, run + 1, n)
    ensures FreeAt(L, d, cluster) && run + 1 == n ==>
              RunFree(L, d, cluster - run, n) && forall c: nat :: c < cluster - run ==> !RunFree(L, d, c, n)
  {
    hide FreeAt, Fits, BitmapCovers;
    if n <= cluster + 1 {
      var c := cluster + 1 - n;
      if !FreeAt(L, d, cluster) {
        assert c <= cluster < c + n && !RunFree(L, d, c, n);
      } else if run + 1 < n {
        assert c <= cluster - run - 1 < c + n && !RunFree(L, d, c, n);
      }
    }
  }

  /** A finished scan has excluded every run. */
  lemma RunScanEnd(L: Layout, d: Disk, cluster: nat, run: nat, n: nat, c: nat)
    requires Fits(L.g, |d|) && BitmapCovers(L.g, L.bc) && RunScan(L, d, cluster, run, n)
    requires cluster >= L.g.clusterCount + 2
    ensures !RunFree(L, d, c, n)
  {
    hide Fits, BitmapCovers, Free;
    assert c + n > cluster ==> !FreeAt(L, d, c + n - 1);
  }

  /** A free run can be handed out. */
  lemma FreeRunIsFresh(L: Layout, s: State, c: nat, n: nat)
    requires Ok(L, s) && Fits(L.g, |s.disk|) && BitmapCovers(L.g, L.bc) && n >= 1 && RunFree(L, s.disk, c, n)
    ensures Clusters(L.g, Run(c, n)) && FreshRun(L, s, Run(c, n))
  {
    hide Ok, Fits, BitmapCovers, Free;
    var r := Run(c, n);
    forall i | 0 <= i < n ensures FreeAt(L, s.disk, r[i]) {
    }
  }

  // ---------- free directory slots ----------

  function RootSectors(L: Layout): nat {
    |L.rc| * L.g.sectorsPerCluster
  }

  /** Sector number `t` of the root directory. */
  function RootLba(L: Layout, n: nat, t: nat): (lba: nat)
    requires Fits(L.g, n) && Clusters(L.g, L.rc) && t < RootSectors(L)
  {
    DivBelow(t, |L.rc|, L.g.sectorsPerCluster);
    DivNatural(t, L.g.sectorsPerCluster);
    ClusterLba(L.g, L.rc[t / L.g.sectorsPerCluster]) + t % L.g.sectorsPerCluster
  }

  lemma DivNatural(p: nat, m: int)
    requires m > 0
    ensures p / m >= 0
  {
  }

  lemma RootLbaBounds(L: Layout, n: nat, t: nat)
    requires LayoutOk(L, n) && Fits(L.g, n) && Clusters(L.g, L.rc) && t < RootSectors(L)
    ensures RootLba(L, n, t) < n && InRoot(L, n, RootLba(L, n, t))
  {
    DivBelow(t, |L.rc|, L.g.sectorsPerCluster);
    DivNatural(t, L.g.sectorsPerCluster);
    hide LayoutOk, Fits, ClusterLba;
    var i := t / L.g.sectorsPerCluster;
    ClusterInHeap(L.g, n, L.rc[i]);
  }

  /** Directory slot `j`, counting 16 to a sector through the whole root directory. */
  ghost predicate SlotFree(L: Layout, d: Disk, j: nat) {
    && LayoutOk(L, |d|) && Fits(L.g, |d|) && Clusters(L.g, L.rc) && j / 16 < RootSectors(L)
    && RootLba(L, |d|, j / 16) < |d| && !SlotUsed(d[RootLba(L, |d|, j / 16)][j % 16 * 32])
  }

  ghost predicate SlotRun(L: Layout, d: Disk, j: nat) {
    SlotFree(L, d, j) && SlotFree(L, d, j + 1) && SlotFree(L, d, j + 2)
  }

  /** As RunScan, for three slots among those below `pos`. */
  ghost predicate SlotScan(L: Layout, d: Disk, pos: nat, run: nat) {
    && run <= pos && run < 3
    && (forall k: nat :: pos - run <= k < pos ==> SlotFree(L, d, k))
    && (run < pos ==> !SlotFree(L, d, pos - run - 1))
    && (forall j: nat :: j + 3 <= pos ==> !SlotRun(L, d, j))
  }

  lemma SlotScanStep(L: Layout, d: Disk, pos: nat, run: nat)
    requires SlotScan(L, d, pos, run)
    ensures !SlotFree(L, d, pos) ==> SlotScan(L, d, pos + 1, 0)
    ensures SlotFree(L, d, pos) && run < 2 ==> SlotScan(L, d, pos + 1, run + 1)
    ensures SlotFree(L, d, pos) && run == 2 ==>
              SlotRun(L, d, pos - 2) && forall j: nat :: j < pos - 2 ==> !SlotRun(L, d, j)
  {
    hide SlotFree;
    if pos >= 2 {
      var j := pos - 2;
      if !SlotFree(L, d, pos) || run < 2 {
        assert run == 0 ==> !SlotFree(L, d, j + 1);
        assert run == 1 ==> !SlotFree(L, d, j);
        assert !SlotRun(L, d, j);
      }
    }
  }

  lemma SlotScanEnd(L: Layout, d: Disk, pos: nat, run: nat, j: nat)
    requires SlotScan(L, d, pos, run) && pos >= 16 * RootSectors(L)
    ensures !SlotRun(L, d, j)
  {
    assert j + 3 > pos ==> !SlotFree(L, d, j + 2);
  }

  /** A run of free slots that starts in the first 14 of a sector lies in that sector. */
  lemma SlotRunInSector(L: Layout, d: Disk, j: nat)
    requires SlotRun(L, d, j) && j % 16 * 32 + 96 <= 512
    ensures LayoutOk(L, |d|) && Fits(L.g, |d|) && Clusters(L.g, L.rc) && j / 16 < RootSectors(L)
    ensures RootLba(L, |d|, j / 16) < |d| && InRoot(L, |d|, RootLba(L, |d|, j / 16))
    ensures SlotsFree(d[RootLba(L, |d|, j / 16)], j % 16 * 32)
  {
    hide LayoutOk, Fits, RootLba, Clusters, SlotUsed, InRoot;
    RootLbaBounds(L, |d|, j / 16);
    assert (j + 1) / 16 == j / 16 && (j + 2) / 16 == j / 16;
    assert (j + 1) % 16 == j % 16 + 1 && (j + 2) % 16 == j % 16 + 2;
  }

  // ---------- rows of the table ----------

  predicate Matches(e: Entry, key: (string, string)) {
    e.parent == key.0 && e.name == key.1
  }

  /** The first row with this parent and name. */
  function Lookup(table: seq<Entry>, key: (string, string)): (r: Option<nat>)
    ensures r.Some? ==> r.value < |table| && Matches(table[r.value], key)
    ensures r.Some? ==> forall i :: 0 <= i < r.value ==> !Matches(table[i], key)
    ensures r.None? ==> forall i :: 0 <= i < |table| ==> !Matches(table[i], key)
  {
    LookupFrom(table, key, 0)
  }

  function LookupFrom(table: seq<Entry>, key: (string, string), i: nat): (r: Option<nat>)
    requires i <= |table|
    ensures r.Some? ==> i <= r.value < |table| && Matches(table[r.value], key)
    ensures r.Some? ==> forall k :: i <= k < r.value ==> !Matches(table[k], key)
    ensures r.None? ==> forall k :: i <= k < |table| ==> !Matches(table[k], key)
    decreases |table| - i
  {
    if i == |table| then None else if Matches(table[i], key) then Some(i) else LookupFrom(table, key, i + 1)
  }

  /** The row a path names. */
  function LookupPath(table: seq<Entry>, path: string): (r: Option<nat>)
    ensures r.Some? ==> r.value < |table|
  {
    match PathKey(path)
    case None => None
    case Some(key) => Lookup(table, key)
  }
}
