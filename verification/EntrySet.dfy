/** The three-entry directory set of a file: its checksum, its encoder, the in-place size
    refresh and rename, and the directory-sector parser that reads it back. */
module EntrySet {
  import opened Bytes

  // ---------- checksum ----------

  function ChecksumStep(checksum: nat, value: Byte): (c: nat)
    requires checksum < 0x1_0000
    ensures c < 0x1_0000
  {
    ((if checksum % 2 == 1 then 0x8000 else 0) + checksum / 2 + value as int) % 0x1_0000
  }

  /** The number with these bits, lowest first. */
  function BitsValue(bits: seq<bool>): (n: nat) {
    if bits == [] then 0 else (if bits[0] then 1 else 0) + 2 * BitsValue(bits[1..])
  }

  function PowerOfTwo(k: nat): (p: nat) {
    if k == 0 then 1 else 2 * PowerOfTwo(k - 1)
  }

  lemma {:induction false} TopBit(bits: seq<bool>, b: bool)
    ensures BitsValue(bits + [b]) == BitsValue(bits) + (if b then PowerOfTwo(|bits|) else 0)
  {
    if bits != [] {
      assert (bits + [b])[1..] == bits[1..] + [b];
      TopBit(bits[1..], b);
    }
  }

  /** Every 16-bit number has its bits. */
  lemma {:induction false} BitsOf(n: nat, k: nat) returns (bits: seq<bool>)
    requires n < PowerOfTwo(k)
    ensures |bits| == k && BitsValue(bits) == n
  {
    if k == 0 {
      bits := [];
    } else {
      var rest := BitsOf(n / 2, k - 1);
      bits := [n % 2 == 1] + rest;
      assert bits[1..] == rest;
    }
  }

  /** A step of the checksum rotates its sixteen bits right by one and adds the byte, modulo 2 to the 16. */
  lemma ChecksumRotates(bits: seq<bool>, value: Byte)
    requires |bits| == 16
    ensures BitsValue(bits) < 0x1_0000
    ensures ChecksumStep(BitsValue(bits), value) == (BitsValue(bits[1..] + [bits[0]]) + value as int) % 0x1_0000
  {
    hide *;
    SixteenBits(bits);
    TopBit(bits[1..], bits[0]);
    assert |bits[1..]| == 15;
    LowBit(bits);
    StepIs(BitsValue(bits[1..]), bits[0], value);
  }

  lemma LowBit(bits: seq<bool>)
    requires bits != []
    ensures BitsValue(bits) == (if bits[0] then 1 else 0) + 2 * BitsValue(bits[1..])
    ensures PowerOfTwo(15) == 0x8000
  {
    assert PowerOfTwo(5) == 32 && PowerOfTwo(10) == 1024;
  }

  lemma StepIs(half: nat, low: bool, value: Byte)
    requires (if low then 1 else 0) + 2 * half < 0x1_0000
    ensures ChecksumStep((if low then 1 else 0) + 2 * half, value)
         == (half + (if low then 0x8000 else 0) + value as int) % 0x1_0000
  {
  }

  lemma {:induction false} SixteenBits(bits: seq<bool>)
    ensures BitsValue(bits) < PowerOfTwo(|bits|) && PowerOfTwo(16) == 0x1_0000
  {
    if bits != [] { SixteenBits(bits[1..]); }
    assert PowerOfTwo(4) == 16 && PowerOfTwo(8) == 256 && PowerOfTwo(12) == 4096;
  }

  function Fold(checksum: nat, bs: seq<Byte>): (c: nat)
    requires checksum < 0x1_0000
    ensures c < 0x1_0000
    decreases |bs|
  {
    if bs == [] then checksum else Fold(ChecksumStep(checksum, bs[0]), bs[1..])
  }

  lemma {:induction false} FoldAppend(checksum: nat, bs: seq<Byte>, b: Byte)
    requires checksum < 0x1_0000
    ensures Fold(checksum, bs + [b]) == ChecksumStep(Fold(checksum, bs), b)
    decreases |bs|
  {
    hide ChecksumStep;
    if bs == [] {
      assert (bs + [b])[1..] == [];
    } else {
      assert (bs + [b])[1..] == bs[1..] + [b];
      FoldAppend(ChecksumStep(checksum, bs[0]), bs[1..], b);
    }
  }

  /** The set checksum covers every byte but the two that store it. */
  function SetChecksum(entries: seq<Byte>): (c: nat)
    requires |entries| >= 4
    ensures c < 0x1_0000
  {
    Fold(0, entries[..2] + entries[4..])
  }

  method EntrySetChecksum(entries: seq<Byte>) returns (checksum: nat)
    requires |entries| >= 4
    ensures checksum == SetChecksum(entries)
  {
    hide ChecksumStep;
    checksum := 0;
    var i := 0;
    ghost var seen: seq<Byte> := [];
    while i < |entries|
      invariant 0 <= i <= |entries|
      invariant seen == if i <= 2 then entries[..i] else if i <= 4 then entries[..2] else entries[..2] + entries[4..i]
      invariant checksum < 0x1_0000 && checksum == Fold(0, seen)
    {
      if i != 2 && i != 3 {
        FoldAppend(0, seen, entries[i]);
        checksum := ChecksumStep(checksum, entries[i]);
        seen := seen + [entries[i]];
      }
      i := i + 1;
    }
    assert seen == entries[..2] + entries[4..];
  }

  function CharByte(c: char): (b: Byte) {
    LowByte(c as int)
  }

  /** The name as the hash sees it: each character followed by a zero byte. */
  function Utf16(name: string): (bs: seq<Byte>)
    ensures |bs| == 2 * |name|
  {
    if name == [] then [] else Utf16(name[..|name| - 1]) + [CharByte(name[|name| - 1]), 0]
  }

  lemma {:induction false} Utf16At(name: string, i: nat)
    requires i < |name|
    ensures Utf16(name)[2 * i] == CharByte(name[i]) && Utf16(name)[2 * i + 1] == 0
  {
    if i < |name| - 1 {
      hide CharByte;
      Utf16At(name[..|name| - 1], i);
    }
  }

  function NameHash(name: string): (h: nat)
    ensures h < 0x1_0000
  {
    Fold(0, Utf16(name))
  }

  lemma EmptyNameHash()
    ensures NameHash("") == 0
  {
  }

  lemma NameHashStep(name: string, i: nat)
    requires i < |name|
    ensures NameHash(name[..i + 1]) == ChecksumStep(ChecksumStep(NameHash(name[..i]), CharByte(name[i])), 0)
  {
    hide ChecksumStep, CharByte, Fold;
    var pre := Utf16(name[..i]);
    assert name[..i + 1][..i] == name[..i];
    assert Utf16(name[..i + 1]) == pre + [CharByte(name[i])] + [0];
    FoldAppend(0, pre, CharByte(name[i]));
    FoldAppend(0, pre + [CharByte(name[i])], 0);
  }

  method AsciiUtf16NameHash(name: string) returns (hash: nat)
    ensures hash == NameHash(name)
  {
    hide *;
    hash := 0;
    assert NameHash(name[..0]) == 0 by { EmptyNameHash(); }
    for i := 0 to |name|
      invariant hash < 0x1_0000 && hash == NameHash(name[..i])
    {
      NameHashStep(name, i);
      hash := ChecksumStep(hash, CharByte(name[i]));
      hash := ChecksumStep(hash, 0);
    }
    assert name[..|name|] == name;
  }

  // ---------- the encoded set ----------

  function Zeros(n: nat): (s: seq<Byte>)
    ensures |s| == n
    ensures forall i :: 0 <= i < n ==> s[i] == 0
  {
    seq(n, _ => 0)
  }

  /** A name of at most 15 characters fits the single name entry of the set. */
  function NameEntry(name: string): (s: seq<Byte>)
    requires |name| <= 15
    ensures |s| == 32
  {
    [0xc1, 0] + Utf16(name) + Zeros(30 - 2 * |name|)
  }

  /** Bytes 4 to 40 of a set: attributes, and the stream entry up to its valid-data length. */
  function AfterChecksum(name: string): (s: seq<Byte>)
    requires |name| <= 15
    ensures |s| == 36
  {
    LeBytes(0x20, 2) + Zeros(26) + [0xc0, 0, 0, LowByte(|name|)] + LeBytes(NameHash(name), 2) + Zeros(2)
  }

  /** Everything a set stores except its checksum. */
  function Payload(name: string, first: nat, size: nat): (s: seq<Byte>)
    requires |name| <= 15
    ensures |s| == 94
  {
    [0x85, 2] + AfterChecksum(name) + LeBytes(size, 8) + Zeros(4) + LeBytes(first, 4) + LeBytes(size, 8) +
        NameEntry(name)
  }

  function WithChecksum(payload: seq<Byte>): (s: seq<Byte>)
    requires |payload| == 94
    ensures |s| == 96
  {
    payload[..2] + LeBytes(Fold(0, payload), 2) + payload[2..]
  }

  /** The 96 bytes that describe a file called `name` of `size` bytes starting at cluster `first`. */
  function EncodedSet(name: string, first: nat, size: nat): (s: seq<Byte>)
    requires |name| <= 15
    ensures |s| == 96
  {
    WithChecksum(Payload(name, first, size))
  }

  lemma StoredChecksumIsRecomputed(name: string, first: nat, size: nat)
    requires |name| <= 15
    ensures var s := EncodedSet(name, first, size); LeValue(s[2..4]) == SetChecksum(s)
  {
    var p := Payload(name, first, size);
    var s := EncodedSet(name, first, size);
    hide Payload, Fold;
    assert s[..2] + s[4..] == p;
    Widths();
    LeBytesInverse(Fold(0, p), 2);
    assert s[2..4] == LeBytes(Fold(0, p), 2);
  }

  // ---------- writing into buffers ----------

  /** Stores the low `n` bytes of `v` at `off`, least significant first (write_le16, write_le32, write_le64). */
  method WriteLe(data: array<Byte>, off: nat, v: nat, n: nat)
    requires off + n <= data.Length
    modifies data
    ensures data[..] == Splice(old(data[..]), off, LeBytes(v, n))
  {
    hide LowByte;
    var rest := v;
    for i := 0 to n
      invariant LeBytes(v, n)[i..] == LeBytes(rest, n - i)
      invariant forall k :: 0 <= k < data.Length ==>
        data[k] == if off <= k < off + i then LeBytes(v, n)[k - off] else old(data[k])
    {
      assert LeBytes(v, n)[i] == LeBytes(v, n)[i..][0];
      assert LeBytes(v, n)[i + 1..] == LeBytes(v, n)[i..][1..];
      data[off + i] := LowByte(rest);
      rest := rest / 256;
    }
  }

  method CopyBytes(data: array<Byte>, off: nat, bytes: seq<Byte>)
    requires off + |bytes| <= data.Length
    modifies data
    ensures data[..] == Splice(old(data[..]), off, bytes)
  {
    for i := 0 to |bytes|
      invariant forall k :: 0 <= k < data.Length ==>
        data[k] == if off <= k < off + i then bytes[k - off] else old(data[k])
    {
      data[off + i] := bytes[i];
    }
  }

  lemma SpliceMiddle(a: seq<Byte>, x: seq<Byte>, c: seq<Byte>, y: seq<Byte>)
    requires |x| == |y|
    ensures Splice(a + x + c, |a|, y) == a + y + c
  {
  }

  lemma LayField(pre: seq<Byte>, m: nat, gap: nat, bs: seq<Byte>)
    requires gap + |bs| <= m
    ensures Splice(pre + Zeros(m), |pre| + gap, bs) == pre + Zeros(gap) + bs + Zeros(m - gap - |bs|)
  {
    assert pre + Zeros(m) == (pre + Zeros(gap)) + Zeros(|bs|) + Zeros(m - gap - |bs|);
    SpliceMiddle(pre + Zeros(gap), Zeros(|bs|), Zeros(m - gap - |bs|), bs);
  }

  /** Lays the name entry out in the last 32 bytes of the set, one character at a time. */
  method EncodeNameEntry(data: array<Byte>, off: nat, name: string)
    requires off + 32 <= data.Length && |name| <= 15
    modifies data
    ensures data[..] == Splice(old(data[..]), off, NameEntry(name))
  {
    hide CharByte, Utf16;
    ghost var before := data[..];
    CopyBytes(data, off, Zeros(32));
    data[off] := 0xc1;
    for i := 0 to |name|
      invariant forall k :: 0 <= k < data.Length && !(off <= k < off + 32) ==> data[k] == before[k]
      invariant data[off] == 0xc1 && data[off + 1] == 0
      invariant forall k :: off + 2 <= k < off + 2 + 2 * i ==> data[k] == Utf16(name)[k - off - 2]
      invariant forall k :: off + 2 + 2 * i <= k < off + 32 ==> data[k] == 0
    {
      Utf16At(name, i);
      data[off + 2 + i * 2] := CharByte(name[i]);
      data[off + 3 + i * 2] := 0;
    }
    assert data[off..off + 32] == NameEntry(name);
  }

  lemma Grow(h: seq<Byte>, u: seq<Byte>, x: seq<Byte>)
    ensures h + u + x == h + (u + x)
  {
  }

  /** Both layouts of a set share everything after the checksum. */
  lemma AfterHead(h: seq<Byte>, name: string, first: nat, size: nat)
    requires |name| <= 15
    ensures h + AfterChecksum(name) + LeBytes(size, 8) + Zeros(4) + LeBytes(first, 4) + LeBytes(size, 8) +
            NameEntry(name)
         == h + (AfterChecksum(name) + LeBytes(size, 8) + Zeros(4) + LeBytes(first, 4) + LeBytes(size, 8) +
                 NameEntry(name))
  {
    hide *;
    var u := AfterChecksum(name);
    Grow(h, u, LeBytes(size, 8));
    u := u + LeBytes(size, 8);
    Grow(h, u, Zeros(4));
    u := u + Zeros(4);
    Grow(h, u, LeBytes(first, 4));
    u := u + LeBytes(first, 4);
    Grow(h, u, LeBytes(size, 8));
    u := u + LeBytes(size, 8);
    Grow(h, u, NameEntry(name));
  }

  lemma LaidHead(name: string)
    requires |name| <= 15
    ensures [0x85, 2] + Zeros(2) + LeBytes(0x20, 2) + Zeros(26) + [0xc0, 0] + Zeros(1) + [LowByte(|name|)]
            + Zeros(0) + LeBytes(NameHash(name), 2) + Zeros(2)
         == [0x85, 2] + Zeros(2) + AfterChecksum(name)
  {
    hide NameHash, LowByte, LeBytes, Utf16;
    assert [0xc0, 0] + Zeros(1) + [LowByte(|name|)] + Zeros(0) == [0xc0, 0, 0, LowByte(|name|)];
  }

  lemma LaidOut(name: string, first: nat, size: nat)
    requires |name| <= 15
    ensures Laid(name, first, size) == [0x85, 2] + Zeros(2) + Payload(name, first, size)[2..]
    ensures Laid(name, first, size)[..2] + Laid(name, first, size)[4..] == Payload(name, first, size)
  {
    hide NameHash, LowByte, LeBytes, Utf16, NameEntry, AfterChecksum;
    LaidHead(name);
    AfterHead([0x85, 2] + Zeros(2), name, first, size);
    AfterHead([0x85, 2], name, first, size);
    var tail := AfterChecksum(name) + LeBytes(size, 8) + Zeros(4) + LeBytes(first, 4) + LeBytes(size, 8) +
        NameEntry(name);
    assert Payload(name, first, size) == [0x85, 2] + tail;
    assert Zeros(0) == [];
    assert LeBytes(first, 4) + Zeros(0) == LeBytes(first, 4);
    assert Laid(name, first, size) == [0x85, 2] + Zeros(2) + tail;
  }

  /** The fields of a set in the order the encoder writes them, before the checksum is stored. */
  function Laid(name: string, first: nat, size: nat): (s: seq<Byte>)
    requires |name| <= 15
    ensures |s| == 96
  {
    [0x85, 2] + Zeros(2) + LeBytes(0x20, 2) + Zeros(26) + [0xc0, 0] + Zeros(1) + [LowByte(|name|)]
    + Zeros(0) + LeBytes(NameHash(name), 2) + Zeros(2) + LeBytes(size, 8) + Zeros(4) + LeBytes(first, 4)
    + Zeros(0) + LeBytes(size, 8) + Zeros(0) + NameEntry(name)
  }

  /** Appends a field to the laid-out prefix of a buffer whose remainder is still zero. */
  method Lay(entries: array<Byte>, ghost pre: seq<Byte>, gap: nat, off: nat, bs: seq<Byte>)
    returns (ghost post: seq<Byte>)
    requires off == |pre| + gap && off + |bs| <= entries.Length
    requires entries[..] == pre + Zeros(entries.Length - |pre|)
    modifies entries
    ensures post == pre + Zeros(gap) + bs
    ensures entries[..] == post + Zeros(entries.Length - |post|)
  {
    hide *;
    LayField(pre, entries.Length - |pre|, gap, bs);
    CopyBytes(entries, off, bs);
    post := pre + Zeros(gap) + bs;
  }

  lemma LaidUnfold(name: string, first: nat, size: nat)
    requires |name| <= 15
    ensures Laid(name, first, size) ==
            [0x85, 2] + Zeros(2) + LeBytes(0x20, 2) + Zeros(26) + [0xc0, 0] + Zeros(1) + [LowByte(|name|)]
            + Zeros(0) + LeBytes(NameHash(name), 2) + Zeros(2) + LeBytes(size, 8) + Zeros(4) + LeBytes(first, 4)
            + Zeros(0) + LeBytes(size, 8) + Zeros(0) + NameEntry(name)
  {
    hide NameHash, NameEntry, Utf16, LowByte;
  }

  lemma EncodedSetIs(name: string, first: nat, size: nat)
    requires |name| <= 15
    ensures EncodedSet(name, first, size) == WithChecksum(Payload(name, first, size))
  {
  }

  /** Storing the checksum of the other 94 bytes completes a set. */
  lemma StoreChecksum(s: seq<Byte>, p: seq<Byte>)
    requires |s| == 96 && |p| == 94
    requires s[..2] + s[4..] == p
    ensures Splice(s, 2, LeBytes(SetChecksum(s), 2)) == WithChecksum(p)
  {
    hide Fold;
    assert s[..2] == p[..2] && s[4..] == p[2..];
  }

  /** Builds the set of a new file in a fresh 96-byte buffer, field by field. */
  method EncodeFileEntries(name: string, first: nat, size: nat) returns (entries: array<Byte>)
    requires |name| <= 15
    ensures fresh(entries) && entries[..] == EncodedSet(name, first, size)
  {
    entries := new Byte[96](_ => 0);
    assert entries[..] == [] + Zeros(96);
    hide *;
    ghost var pre := Lay(entries, [], 0, 0, [0x85, 2]);
    assert pre == [0x85, 2] by { assert Zeros(0) == []; }
    pre := Lay(entries, pre, 2, 4, LeBytes(0x20, 2));
    pre := Lay(entries, pre, 26, 32, [0xc0, 0]);
    pre := Lay(entries, pre, 1, 35, [LowByte(|name|)]);
    var hash := AsciiUtf16NameHash(name);
    pre := Lay(entries, pre, 0, 36, LeBytes(hash, 2));
    pre := Lay(entries, pre, 2, 40, LeBytes(size, 8));
    pre := Lay(entries, pre, 4, 52, LeBytes(first, 4));
    pre := Lay(entries, pre, 0, 56, LeBytes(size, 8));
    EncodeNameEntry(entries, 64, name);
    LayField(pre, 32, 0, NameEntry(name));
    pre := pre + Zeros(0) + NameEntry(name);
    ghost var p := Payload(name, first, size);
    assert entries[..] == [0x85, 2] + Zeros(2) + p[2..] && entries[..2] + entries[4..] == p by {
      assert pre == Laid(name, first, size) by { LaidUnfold(name, first, size); }
      LaidOut(name, first, size);
      assert Zeros(0) == [];
      assert entries[..] == pre;
    }
    var checksum := EntrySetChecksum(entries[..]);
    StoreChecksum(entries[..], p);
    assert EncodedSet(name, first, size) == WithChecksum(p) by { EncodedSetIs(name, first, size); }
    WriteLe(entries, 2, checksum, 2);
  }

  // ---------- size refresh and rename ----------

  /** What the checksum covers: all bytes but 2 and 3. */
  function Covered(s: seq<Byte>): (p: seq<Byte>)
    requires |s| == 96
    ensures |p| == 94
  {
    s[..2] + s[4..]
  }

  lemma CoveredSplice(s: seq<Byte>, o: nat, bs: seq<Byte>)
    requires |s| == 96 && 4 <= o && o + |bs| <= 96
    ensures Covered(Splice(s, o, bs)) == Splice(Covered(s), o - 2, bs)
  {
  }

  lemma CoveredChecksum(s: seq<Byte>, bs: seq<Byte>)
    requires |s| == 96 && |bs| == 2
    ensures Covered(Splice(s, 2, bs)) == Covered(s)
  {
  }

  lemma CoveredSet(name: string, first: nat, size: nat)
    requires |name| <= 15
    ensures Covered(EncodedSet(name, first, size)) == Payload(name, first, size)
  {
    hide Payload, Fold;
  }

  function Rechecked(s: seq<Byte>): (r: seq<Byte>)
    requires |s| == 96
    ensures |r| == 96
  {
    Splice(s, 2, LeBytes(SetChecksum(s), 2))
  }

  function RefreshedSet(s: seq<Byte>, size: nat): (r: seq<Byte>)
    requires |s| == 96
    ensures |r| == 96
  {
    Rechecked(Splice(Splice(s, 40, LeBytes(size, 8)), 56, LeBytes(size, 8)))
  }

  function RenamedSet(s: seq<Byte>, name: string): (r: seq<Byte>)
    requires |s| == 96 && |name| <= 15
    ensures |r| == 96
  {
    Rechecked(Splice(Splice(Splice(s, 35, [LowByte(|name|)]), 36, LeBytes(NameHash(name), 2)), 64, NameEntry(name)))
  }

  lemma PayloadNewSize(name: string, first: nat, size: nat, size': nat)
    requires |name| <= 15
    ensures Splice(Splice(Payload(name, first, size), 38, LeBytes(size', 8)), 54, LeBytes(size', 8))
         == Payload(name, first, size')
  {
    hide NameHash, Utf16, LeBytes, NameEntry, AfterChecksum, LowByte;
    var h := [0x85, 2] + AfterChecksum(name);
    var m := Zeros(4) + LeBytes(first, 4);
    var n := NameEntry(name);
    assert Payload(name, first, size) == h + LeBytes(size, 8) + (m + LeBytes(size, 8) + n);
    SpliceMiddle(h, LeBytes(size, 8), m + LeBytes(size, 8) + n, LeBytes(size', 8));
    assert h + LeBytes(size', 8) + (m + LeBytes(size, 8) + n) == (h + LeBytes(size', 8) + m) + LeBytes(size, 8) + n;
    SpliceMiddle(h + LeBytes(size', 8) + m, LeBytes(size, 8), n, LeBytes(size', 8));
  }

  /** Refreshing the size of an encoded set gives the encoded set with that size and nothing else changed. */
  lemma RefreshKeepsEncoding(name: string, first: nat, size: nat, size': nat)
    requires |name| <= 15
    ensures RefreshedSet(EncodedSet(name, first, size), size') == EncodedSet(name, first, size')
  {
    hide *;
    var s := EncodedSet(name, first, size);
    var s1 := Splice(s, 40, LeBytes(size', 8));
    var s2 := Splice(s1, 56, LeBytes(size', 8));
    CoveredSet(name, first, size);
    CoveredSplice(s, 40, LeBytes(size', 8));
    CoveredSplice(s1, 56, LeBytes(size', 8));
    PayloadNewSize(name, first, size, size');
    RefreshedIs(s, size');
    RecheckedIs(s2, name, first, size');
  }

  lemma RefreshedIs(s: seq<Byte>, size: nat)
    requires |s| == 96
    ensures RefreshedSet(s, size) == Rechecked(Splice(Splice(s, 40, LeBytes(size, 8)), 56, LeBytes(size, 8)))
  {
    hide Splice, Rechecked, LeBytes;
  }

  lemma RecheckedIs(s: seq<Byte>, name: string, first: nat, size: nat)
    requires |s| == 96 && |name| <= 15
    requires Covered(s) == Payload(name, first, size)
    ensures Rechecked(s) == EncodedSet(name, first, size)
  {
    hide Payload, Fold;
    StoreChecksum(s, Payload(name, first, size));
  }

  lemma PayloadNewName(name: string, first: nat, size: nat, name': string)
    requires |name| <= 15 && |name'| <= 15
    ensures Splice(Splice(Splice(Payload(name, first, size), 33, [LowByte(|name'|)]), 34,
                          LeBytes(NameHash(name'), 2)), 62, NameEntry(name'))
         == Payload(name', first, size)
  {
    hide *;
    PayloadParts(name, first, size);
    PayloadParts(name', first, size);
    SpliceThree([0x85, 2] + LeBytes(0x20, 2) + Zeros(26) + [0xc0, 0, 0],
                [LowByte(|name|)], LeBytes(NameHash(name), 2),
                Zeros(2) + LeBytes(size, 8) + Zeros(4) + LeBytes(first, 4) + LeBytes(size, 8), NameEntry(name),
                [LowByte(|name'|)], LeBytes(NameHash(name'), 2), NameEntry(name'));
  }

  lemma SpliceThree(h: seq<Byte>, l: seq<Byte>, x: seq<Byte>, t: seq<Byte>, n: seq<Byte>,
                    l': seq<Byte>, x': seq<Byte>, n': seq<Byte>)
    requires |l| == |l'| && |x| == |x'| && |n| == |n'|
    ensures Splice(Splice(Splice(h + l + x + t + n, |h|, l'), |h| + |l|, x'), |h| + |l| + |x| + |t|, n')
         == h + l' + x' + t + n'
  {
    hide *;
    assert h + l + x + t + n == h + l + (x + t + n);
    SpliceMiddle(h, l, x + t + n, l');
    assert h + l' + (x + t + n) == (h + l') + x + (t + n);
    SpliceMiddle(h + l', x, t + n, x');
    assert h + l' + x' + (t + n) == (h + l' + x' + t) + n + [];
    SpliceMiddle(h + l' + x' + t, n, [], n');
    assert (h + l' + x' + t) + n' + [] == h + l' + x' + t + n';
  }

  lemma PayloadParts(name: string, first: nat, size: nat)
    requires |name| <= 15
    ensures Payload(name, first, size) ==
            ([0x85, 2] + LeBytes(0x20, 2) + Zeros(26) + [0xc0, 0, 0]) + [LowByte(|name|)] + LeBytes(NameHash(name), 2)
            + (Zeros(2) + LeBytes(size, 8) + Zeros(4) + LeBytes(first, 4) + LeBytes(size, 8)) + NameEntry(name)
  {
    hide NameHash, Utf16, LeBytes, NameEntry, LowByte;
    assert [0xc0, 0, 0, LowByte(|name|)] == [0xc0, 0, 0] + [LowByte(|name|)];
  }

  /** Renaming an encoded set gives the encoded set of the new name with cluster and size kept. */
  lemma RenameKeepsEncoding(name: string, first: nat, size: nat, name': string)
    requires |name| <= 15 && |name'| <= 15
    ensures RenamedSet(EncodedSet(name, first, size), name') == EncodedSet(name', first, size)
  {
    hide *;
    var s := EncodedSet(name, first, size);
    var s1 := Splice(s, 35, [LowByte(|name'|)]);
    var s2 := Splice(s1, 36, LeBytes(NameHash(name'), 2));
    var s3 := Splice(s2, 64, NameEntry(name'));
    CoveredSet(name, first, size);
    CoveredSplice(s, 35, [LowByte(|name'|)]);
    CoveredSplice(s1, 36, LeBytes(NameHash(name'), 2));
    CoveredSplice(s2, 64, NameEntry(name'));
    PayloadNewName(name, first, size, name');
    RenamedIs(s, name');
    RecheckedIs(s3, name', first, size);
  }

  lemma RenamedIs(s: seq<Byte>, name: string)
    requires |s| == 96 && |name| <= 15
    ensures RenamedSet(s, name) ==
            Rechecked(Splice(Splice(Splice(s, 35, [LowByte(|name|)]), 36, LeBytes(NameHash(name), 2)), 64,
                             NameEntry(name)))
  {
    hide Splice, Rechecked, LeBytes, NameEntry, NameHash, LowByte;
  }

  // ---------- the same updates inside a directory sector ----------

  lemma SpliceWithin(sector: seq<Byte>, off: nat, x: seq<Byte>, k: nat, bs: seq<Byte>)
    requires off + |x| <= |sector| && k + |bs| <= |x|
    ensures Splice(Splice(sector, off, x), off + k, bs) == Splice(sector, off, Splice(x, k, bs))
  {
  }

  lemma SpliceSelf(sector: seq<Byte>, off: nat, n: nat)
    requires off + n <= |sector|
    ensures Splice(sector, off, sector[off..off + n]) == sector
  {
  }

  /** Recomputes and stores the checksum of the set at `off`: clear the field, sum, store. */
  method Recheck(sector: array<Byte>, off: nat, ghost was: seq<Byte>, ghost set': seq<Byte>)
    requires off + 96 <= sector.Length && |was| == sector.Length && |set'| == 96
    requires sector[..] == Splice(was, off, set')
    modifies sector
    ensures sector[..] == Splice(was, off, Rechecked(set'))
  {
    hide *;
    WriteLe(sector, off + 2, 0, 2);
    ghost var cleared := Splice(set', 2, LeBytes(0, 2));
    SpliceWithin(was, off, set', 2, LeBytes(0, 2));
    assert sector[off..off + 96] == cleared by { SpliceSlice(was, off, cleared, 0, 0); }
    var checksum := EntrySetChecksum(sector[off..off + 96]);
    WriteLe(sector, off + 2, checksum, 2);
    SpliceWithin(was, off, cleared, 2, LeBytes(checksum, 2));
    assert Splice(cleared, 2, LeBytes(checksum, 2)) == Rechecked(set') by { RecheckedCleared(set'); }
  }

  lemma RecheckedCleared(s: seq<Byte>)
    requires |s| == 96
    ensures var cleared := Splice(s, 2, LeBytes(0, 2));
            Splice(cleared, 2, LeBytes(SetChecksum(cleared), 2)) == Rechecked(s)
  {
    hide Fold, LeBytes;
    var cleared := Splice(s, 2, LeBytes(0, 2));
    CoveredChecksum(s, LeBytes(0, 2));
    SpliceTwice(s, 2, LeBytes(0, 2), LeBytes(SetChecksum(s), 2));
  }

  /** Stores a new size in the set at `off`; refuses when the bytes there are not a file set. */
  method RefreshSector(sector: array<Byte>, off: nat, size: nat) returns (ok: bool)
    requires off + 96 <= sector.Length
    modifies sector
    ensures ok == (old(sector[off]) == 0x85 && old(sector[off + 32]) == 0xc0)
    ensures sector[..] == if ok then Splice(old(sector[..]), off, RefreshedSet(old(sector[off..off + 96]), size))
      else old(sector[..])
  {
    hide *;
    if sector[off] != 0x85 || sector[off + 32] != 0xc0 {
      return false;
    }
    ghost var was := sector[..];
    ghost var s := sector[off..off + 96];
    assert was == Splice(was, off, s) by { SpliceSelf(was, off, 96); }
    WriteLe(sector, off + 40, size, 8);
    SpliceWithin(was, off, s, 40, LeBytes(size, 8));
    ghost var s1 := Splice(s, 40, LeBytes(size, 8));
    WriteLe(sector, off + 56, size, 8);
    SpliceWithin(was, off, s1, 56, LeBytes(size, 8));
    Recheck(sector, off, was, Splice(s1, 56, LeBytes(size, 8)));
    RefreshedIs(s, size);
    ok := true;
  }

  /** Stores a new name in the set at `off`; refuses when the bytes there are not a file set. */
  method RenameSector(sector: array<Byte>, off: nat, name: string) returns (ok: bool)
    requires off + 96 <= sector.Length && |name| <= 15
    modifies sector
    ensures ok == (old(sector[off]) == 0x85 && old(sector[off + 32]) == 0xc0 && old(sector[off + 64]) == 0xc1)
    ensures sector[..] == if ok then Splice(old(sector[..]), off, RenamedSet(old(sector[off..off + 96]), name))
      else old(sector[..])
  {
    hide *;
    if sector[off] != 0x85 || sector[off + 32] != 0xc0 || sector[off + 64] != 0xc1 {
      return false;
    }
    ghost var was := sector[..];
    ghost var s := sector[off..off + 96];
    assert was == Splice(was, off, s) by { SpliceSelf(was, off, 96); }
    CopyBytes(sector, off + 35, [LowByte(|name|)]);
    SpliceWithin(was, off, s, 35, [LowByte(|name|)]);
    ghost var s1 := Splice(s, 35, [LowByte(|name|)]);
    var hash := AsciiUtf16NameHash(name);
    WriteLe(sector, off + 36, hash, 2);
    SpliceWithin(was, off, s1, 36, LeBytes(hash, 2));
    ghost var s2 := Splice(s1, 36, LeBytes(hash, 2));
    EncodeNameEntry(sector, off + 64, name);
    SpliceWithin(was, off, s2, 64, NameEntry(name));
    Recheck(sector, off, was, Splice(s2, 64, NameEntry(name)));
    RenamedIs(s, name);
    ok := true;
  }
}
