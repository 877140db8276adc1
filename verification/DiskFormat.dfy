/** Where the exFAT specification (sections 4.1, 5.1, 6.3, 7.1, 7.4, 7.6 and 7.7) puts things on the disk, said without
    the functions that find them there. */
module DiskFormat {
  import opened Bytes
  import opened Arithmetic
  import opened Volume
  import opened Frames
  import opened Chains
  import opened EntrySet
  import opened DirectoryParser
  import opened FileSystem
  import opened FileOps

  // ---------- numbers and bits ----------

  /** The lowest byte comes first. */
  lemma LittleEndian(s: seq<Byte>, o: nat)
    requires o + 4 <= |s|
    ensures Le32(s, o)
         == s[o] as int + 0x100 * (s[o + 1] as int) + 0x1_0000 * (s[o + 2] as int) + 0x100_0000 * (s[o + 3] as int)
  {
    var t := s[o..o + 4];
    FourBytes(t[0], t[1], t[2], t[3]);
    assert t == [t[0], t[1], t[2], t[3]];
  }

  lemma FourBytes(a: Byte, b: Byte, c: Byte, d: Byte)
    ensures LeValue([a, b, c, d])
         == a as int + 0x100 * (b as int) + 0x1_0000 * (c as int) + 0x100_0000 * (d as int)
  {
    assert [d][1..] == [] && LeValue([d]) == d as int;
    assert [c, d][1..] == [d] && LeValue([c, d]) == c as int + 256 * (d as int);
    assert [b, c, d][1..] == [c, d];
    assert [a, b, c, d][1..] == [b, c, d];
  }

  /** Bit 0 is the lowest bit of a byte. */
  lemma BitMeaning(b: Byte, k: nat)
    requires k < 8
    ensures BitIn(b, k) == (b & [1, 2, 4, 8, 16, 32, 64, 128][k] != 0)
  {
  }

  // ---------- FAT, bitmap, heap ----------

  /** The FAT is an array of four-byte entries, one per cluster number. */
  lemma FatPlace(g: Geometry, c: nat)
    ensures FatLba(g, c) * 512 + FatOff(c) == g.fatOffset * 512 + 4 * c
  {
  }

  /** The bitmap is a stream of bits, the first one for cluster 2. */
  lemma BitNumber(c: nat)
    requires c >= 2
    ensures (BitSector(c) * 512 + BitOff(c)) * 8 + BitPos(c) == c - 2
  {
  }

  /** The bit of a cluster lies in the sector of the bitmap's own chain that holds byte (c - 2) / 8. */
  lemma BitPlaceInStream(g: Geometry, bc: seq<nat>, c: nat)
    requires g.sectorsPerCluster >= 1 && BitmapCovers(g, bc) && Clusters(g, bc) && ClusterValid(g, c)
    ensures InChain(g, bc, (c - 2) / 8) && BitLba(g, bc, c) == FileLba(g, bc, (c - 2) / 8)
    ensures BitOff(c) == (c - 2) / 8 % 512 && BitPos(c) == (c - 2) % 8
  {
    BitClusterIndex(g, bc, c);
    hide ClusterLba;
    assert BitSector(c) == (c - 2) / 8 / 512;
    assert BitSector(c) < |bc| * g.sectorsPerCluster;
  }

  /** The heap starts with cluster 2, and every cluster follows the one before. */
  lemma ClusterPlace(g: Geometry, c: nat)
    requires ClusterValid(g, 2) && ClusterValid(g, c) && ClusterValid(g, c + 1)
    ensures ClusterLba(g, 2) == g.heapOffset && ClusterLba(g, c + 1) == ClusterLba(g, c) + g.sectorsPerCluster
  {
    assert (c + 1 - 2) * g.sectorsPerCluster == (c - 2) * g.sectorsPerCluster + g.sectorsPerCluster;
  }

  // ---------- a file is its sectors, one after the other ----------

  /** `n` sectors from `lba` on. */
  function SectorBytes(d: Disk, lba: nat, n: nat): (s: seq<Byte>)
    requires lba + n <= |d|
    ensures |s| == 512 * n
    decreases n
  {
    if n == 0 then [] else d[lba] + SectorBytes(d, lba + 1, n - 1)
  }

  lemma {:induction false} SectorBytesAt(d: Disk, lba: nat, n: nat, p: nat)
    requires lba + n <= |d| && p < 512 * n
    ensures SectorBytes(d, lba, n)[p] == d[lba + p / 512][p % 512]
    decreases n
  {
    if p >= 512 {
      SectorBytesAt(d, lba + 1, n - 1, p - 512);
      assert (p - 512) / 512 == p / 512 - 1 && (p - 512) % 512 == p % 512;
    }
  }

  /** All bytes of a chain of clusters, in order. */
  ghost function Stream(g: Geometry, d: Disk, ch: seq<nat>): (s: seq<Byte>)
    requires Fits(g, |d|) && Clusters(g, ch)
    decreases |ch|
  {
    if ch == [] then []
    else
      ClusterInHeap(g, |d|, ch[0]);
      SectorBytes(d, ClusterLba(g, ch[0]), g.sectorsPerCluster) + Stream(g, d, ch[1..])
  }

  lemma {:induction false} StreamLength(g: Geometry, d: Disk, ch: seq<nat>)
    requires Fits(g, |d|) && Clusters(g, ch)
    ensures |Stream(g, d, ch)| == Capacity(g, |ch|)
    decreases |ch|
  {
    hide Fits, SectorBytes;
    if ch != [] {
      StreamLength(g, d, ch[1..]);
      ClusterInHeap(g, |d|, ch[0]);
      NextCapacity(g, |ch| - 1);
    }
  }

  lemma NextCapacity(g: Geometry, n: nat)
    ensures Capacity(g, n + 1) == Capacity(g, n) + 512 * g.sectorsPerCluster
  {
    assert (n + 1) * ClusterSize(g) == n * ClusterSize(g) + ClusterSize(g);
  }

  /** Skipping the first cluster. */
  lemma SkipCluster(m: nat, p: nat)
    requires m >= 1 && p >= 512 * m
    ensures (p - 512 * m) / 512 == p / 512 - m && (p - 512 * m) % 512 == p % 512
    ensures (p / 512 - m) / m == p / 512 / m - 1 && (p / 512 - m) % m == p / 512 % m
  {
    DivModUnique(p - 512 * m, 512, p / 512 - m, p % 512);
    var q := p / 512;
    assert q == q / m * m + q % m;
    assert q >= m;
    assert q / m >= 1 by { DivModUnique(q - m, m, (q - m) / m, (q - m) % m); }
    assert (q / m - 1) * m == q / m * m - m;
    DivModUnique(q - m, m, q / m - 1, q % m);
  }

  lemma FirstCluster(m: nat, p: nat)
    requires m >= 1 && p < 512 * m
    ensures p / 512 / m == 0 && p / 512 % m == p / 512
  {
    DivModUnique(p / 512, m, 0, p / 512);
  }

  lemma HeadByte(g: Geometry, d: Disk, ch: seq<nat>, p: nat)
    requires Fits(g, |d|) && Clusters(g, ch) && ch != [] && p < 512 * g.sectorsPerCluster && InChain(g, ch, p)
    ensures ClusterLba(g, ch[0]) + g.sectorsPerCluster <= |d|
    ensures FileByte(g, d, ch, p) == d[ClusterLba(g, ch[0]) + p / 512][p % 512]
  {
    ClusterInHeap(g, |d|, ch[0]);
    FirstCluster(g.sectorsPerCluster, p);
    hide Fits, ClusterLba;
  }

  lemma TailByte(g: Geometry, d: Disk, ch: seq<nat>, p: nat)
    requires Fits(g, |d|) && Clusters(g, ch) && p >= 512 * g.sectorsPerCluster && InChain(g, ch, p)
    ensures ch != [] && InChain(g, ch[1..], p - 512 * g.sectorsPerCluster)
    ensures FileByte(g, d, ch, p) == FileByte(g, d, ch[1..], p - 512 * g.sectorsPerCluster)
  {
    var m := g.sectorsPerCluster;
    SkipCluster(m, p);
    assert (|ch| - 1) * m == |ch| * m - m;
    PositionBounds(g, ch, p);
    hide Fits, ClusterLba;
    assert ch[1..][p / 512 / m - 1] == ch[p / 512 / m];
  }

  lemma StreamSplit(g: Geometry, d: Disk, ch: seq<nat>)
    requires Fits(g, |d|) && Clusters(g, ch) && ch != []
    ensures ClusterLba(g, ch[0]) + g.sectorsPerCluster <= |d|
    ensures Stream(g, d, ch) == SectorBytes(d, ClusterLba(g, ch[0]), g.sectorsPerCluster) + Stream(g, d, ch[1..])
  {
    ClusterInHeap(g, |d|, ch[0]);
    hide Fits, ClusterLba, SectorBytes;
  }

  /** Byte `p` of a file is byte `p` of its stream. */
  lemma {:induction false} StreamAt(g: Geometry, d: Disk, ch: seq<nat>, p: nat)
    requires Fits(g, |d|) && Clusters(g, ch) && p < Capacity(g, |ch|) && g.sectorsPerCluster >= 1
    ensures |Stream(g, d, ch)| == Capacity(g, |ch|) && InChain(g, ch, p)
    ensures Stream(g, d, ch)[p] == FileByte(g, d, ch, p)
    decreases |ch|
  {
    NoCapacity(g);
    StreamLength(g, d, ch);
    InChainBySize(g, ch, p);
    hide Fits, Stream, SectorBytes, ClusterLba, Capacity, InChain, FileByte;
    var m := g.sectorsPerCluster;
    StreamSplit(g, d, ch);
    NextCapacity(g, |ch| - 1);
    if p < 512 * m {
      HeadByte(g, d, ch, p);
      SectorBytesAt(d, ClusterLba(g, ch[0]), m, p);
    } else {
      TailByte(g, d, ch, p);
      StreamAt(g, d, ch[1..], p - 512 * m);
    }
  }

  lemma NoCapacity(g: Geometry)
    ensures Capacity(g, 0) == 0
  {
  }

  /** What a reader of a row sees is the beginning of its clusters' sectors, one after the other. */
  lemma FileIsStream(L: Layout, s: State, i: nat)
    requires Ok(L, s) && i < |s.table| == |s.chains| && s.chains[i] != []
    ensures Fits(L.g, |s.disk|) && Clusters(L.g, s.chains[i])
    ensures s.table[i].size <= |Stream(L.g, s.disk, s.chains[i])|
    ensures FileBytes(L, s, i) == Stream(L.g, s.disk, s.chains[i])[..s.table[i].size]
  {
    OkParts(L, s);
    OkRow(L, s, i);
    RowBounds(L, s.disk, s.table[i], s.chains[i]);
    assert L.g.sectorsPerCluster >= 1;
    hide Ok, BaseOk, LayoutOk, TableOk, AddedOk, RowOk, Fits, BitmapCovers, Clusters, FileByte, Stream, FileBytes;
    StreamLength(L.g, s.disk, s.chains[i]);
    forall p: nat | p < s.table[i].size
      ensures FileBytes(L, s, i)[p] == Stream(L.g, s.disk, s.chains[i])[p]
    {
      FileBytesAt(L, s, i, p);
      StreamAt(L.g, s.disk, s.chains[i], p);
    }
  }

  // ---------- the directory set ----------

  /** The fields of the three entries: file (0x85, two secondaries, checksum, archive attribute), stream (0xc0, FAT in
      use, name length, name hash, valid length, first cluster, length) and name (0xc1, UTF-16 characters). */
  lemma SetFields(name: string, first: nat, size: nat)
    requires |name| <= 15
    ensures var s := EncodedSet(name, first, size);
            && s[0] == 0x85 && s[1] == 2 && LeValue(s[2..4]) == SetChecksum(s) && s[4..6] == LeBytes(0x20, 2)
            && s[32] == 0xc0 && s[33] == 0 && s[35] == LowByte(|name|) && s[36..38] == LeBytes(NameHash(name), 2)
            && s[40..48] == LeBytes(size, 8) && s[52..56] == LeBytes(first, 4) && s[56..64] == LeBytes(size, 8)
            && s[64] == 0xc1 && forall i :: 0 <= i < |name| ==> s[66 + 2 * i] == CharByte(name[i]) && s[67 + 2 * i] == 0
  {
    hide *;
    StoredChecksumIsRecomputed(name, first, size);
    SetStartsWith(name, first, size);
    SetSlots(name, first, size);
    HashFields(name, first, size);
    NameFields(name);
    var s := EncodedSet(name, first, size);
    assert forall i :: 0 <= i < 32 ==> s[64 + i] == s[64..][i];
  }

  lemma NameFields(name: string)
    requires |name| <= 15
    ensures NameEntry(name)[0] == 0xc1
    ensures forall i :: 0 <= i < |name| ==>
              NameEntry(name)[2 + 2 * i] == CharByte(name[i]) && NameEntry(name)[3 + 2 * i] == 0
  {
    hide CharByte, Utf16;
    forall i | 0 <= i < |name| ensures Utf16(name)[2 * i] == CharByte(name[i]) && Utf16(name)[2 * i + 1] == 0 {
      Utf16At(name, i);
    }
  }

  lemma HashFields(name: string, first: nat, size: nat)
    requires |name| <= 15
    ensures var s := EncodedSet(name, first, size);
            s[36..38] == LeBytes(NameHash(name), 2) && s[40..48] == LeBytes(size, 8)
  {
    PayloadParts(name, first, size);
    EncodedSetIs(name, first, size);
    hide *;
    var a := [0x85, 2] + LeBytes(0x20, 2) + Zeros(26) + [0xc0, 0, 0];
    var p, s := Payload(name, first, size), EncodedSet(name, first, size);
    var hash, length := LeBytes(NameHash(name), 2), LeBytes(size, 8);
    Pieces(a, [LowByte(|name|)], hash, Zeros(2), length, Zeros(4), LeBytes(first, 4), LeBytes(size, 8),
           NameEntry(name));
    ChecksumShifts(p);
    Shifted(p, s);
  }

  lemma Pieces(a: seq<Byte>, n: seq<Byte>, h: seq<Byte>, z: seq<Byte>, l: seq<Byte>, y: seq<Byte>, f: seq<Byte>,
               e: seq<Byte>, t: seq<Byte>)
    requires |a| == 33 && |n| == 1 && |h| == 2 && |z| == 2 && |l| == 8 && |y| == 4 && |f| == 4 && |e| == 8 && |t| == 32
    ensures var p := a + n + h + (z + l + y + f + e) + t;
            |p| == 94 && p[34..36] == h && p[38..46] == l
  {
    var m := z + l + y + f + e;
    assert m[2..10] == l;
    var p := a + n + h + m + t;
    assert p[36..62] == m;
    assert p[38..46] == m[2..10];
  }

  lemma Shifted(p: seq<Byte>, s: seq<Byte>)
    requires |p| == 94 && |s| == 96 && forall i :: 2 <= i < 94 ==> s[i + 2] == p[i]
    ensures s[36..38] == p[34..36] && s[40..48] == p[38..46]
  {
    assert forall i :: 4 <= i < 96 ==> s[i] == p[i - 2];
  }

  lemma ChecksumShifts(p: seq<Byte>)
    requires |p| == 94
    ensures forall i :: 2 <= i < 94 ==> WithChecksum(p)[i + 2] == p[i]
  {
    hide Fold, LeBytes;
  }
}
