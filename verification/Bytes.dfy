/** Bytes, little-endian fields and 512-byte sectors, as kernel/blockfs.c reads and writes them. */
module Bytes {
  type Byte = bv8

  type Sector = s: seq<Byte> | |s| == 512 witness seq(512, _ => 0)

  function ZeroSector(): (s: Sector) {
    seq(512, _ => 0)
  }

  /** The byte with value `x`. */
  function ByteOf(x: nat): (b: Byte)
    requires x < 256
    ensures b as int == x
  {
    if x == 0 then 0 else Successor(ByteOf(x - 1)); ByteOf(x - 1) + 1
  }

  lemma Successor(b: Byte)
    requires b as int < 255
    ensures (b + 1) as int == b as int + 1
  {
    assert b < 255;
  }

  lemma SameByte(a: Byte, b: Byte)
    requires a as int == b as int
    ensures a == b
  {
  }

  /** The low eight bits of a number, as a C cast to `uint8_t` keeps them. */
  function LowByte(v: nat): (b: Byte)
    ensures b as int == v % 256
  {
    ByteOf(v % 256)
  }

  /** The bytes of `s` with `bs` written at offset `o`. */
  function Splice(s: seq<Byte>, o: nat, bs: seq<Byte>): (r: seq<Byte>)
    requires o + |bs| <= |s|
    ensures |r| == |s|
    ensures forall i :: 0 <= i < |s| ==> r[i] == if o <= i < o + |bs| then bs[i - o] else s[i]
  {
    s[..o] + bs + s[o + |bs|..]
  }

  lemma SpliceSlice(s: seq<Byte>, o: nat, bs: seq<Byte>, a: nat, b: nat)
    requires o + |bs| <= |s|
    requires a <= b <= |s|
    requires b <= o || o + |bs| <= a
    ensures Splice(s, o, bs)[a..b] == s[a..b]
    ensures Splice(s, o, bs)[o..o + |bs|] == bs
  {
  }

  /** Two writes at the same place: the second one wins. */
  lemma SpliceTwice(s: seq<Byte>, o: nat, bs: seq<Byte>, cs: seq<Byte>)
    requires o + |bs| <= |s| && |cs| == |bs|
    ensures Splice(Splice(s, o, bs), o, cs) == Splice(s, o, cs)
  {
  }

  /** What a read of at most `len` bytes from `offset` on delivers. */
  function Slice(s: seq<Byte>, offset: nat, len: nat): (r: seq<Byte>)
    ensures |r| == if offset >= |s| then 0 else if len < |s| - offset then len else |s| - offset
    ensures forall k :: 0 <= k < |r| ==> r[k] == s[offset + k]
  {
    if offset >= |s| then [] else if offset + len <= |s| then s[offset..offset + len] else s[offset..]
  }

  // ---------- little-endian numbers ----------

  function LeValue(s: seq<Byte>): nat {
    if s == [] then 0 else s[0] as int + 256 * LeValue(s[1..])
  }

  function LeBytes(v: nat, n: nat): (s: seq<Byte>)
    ensures |s| == n
  {
    if n == 0 then [] else [LowByte(v)] + LeBytes(v / 256, n - 1)
  }

  function Pow256(n: nat): (p: nat)
    ensures p >= 1
  {
    if n == 0 then 1 else 256 * Pow256(n - 1)
  }

  lemma {:induction false} LeBytesInverse(v: nat, n: nat)
    requires v < Pow256(n)
    ensures LeValue(LeBytes(v, n)) == v
  {
    if n > 0 {
      hide LowByte;
      LeBytesInverse(v / 256, n - 1);
      assert LeBytes(v, n)[1..] == LeBytes(v / 256, n - 1);
    }
  }

  lemma LowByteOfSum(b: Byte, y: nat)
    ensures LowByte(b as int + 256 * y) == b
    ensures (b as int + 256 * y) / 256 == y
  {
    assert (b as int + 256 * y) % 256 == b as int;
    SameByte(LowByte(b as int + 256 * y), b);
  }

  lemma {:induction false} LeValueInverse(s: seq<Byte>)
    ensures LeBytes(LeValue(s), |s|) == s
  {
    if s != [] {
      hide LowByte;
      LeValueInverse(s[1..]);
      LowByteOfSum(s[0], LeValue(s[1..]));
    }
  }

  lemma Widths()
    ensures Pow256(2) == 0x1_0000
    ensures Pow256(4) == 0x1_0000_0000
    ensures Pow256(8) == 0x1_0000_0000_0000_0000
  {
    assert Pow256(1) == 256;
    assert Pow256(3) == 0x100_0000;
    assert Pow256(5) == 0x100_0000_0000;
    assert Pow256(6) == 0x1_0000_0000_0000;
    assert Pow256(7) == 0x100_0000_0000_0000;
  }

  function Le32(s: seq<Byte>, o: nat): (v: nat)
    requires o + 4 <= |s|
  {
    LeValue(s[o..o + 4])
  }

  function PutLe32(s: seq<Byte>, o: nat, v: nat): (r: seq<Byte>)
    requires o + 4 <= |s|
    ensures |r| == |s|
  {
    Splice(s, o, LeBytes(v, 4))
  }

  lemma PutLe32Reads(s: seq<Byte>, o: nat, v: nat, p: nat)
    requires o + 4 <= |s| && p + 4 <= |s| && v < 0x1_0000_0000
    requires p == o || p + 4 <= o || o + 4 <= p
    ensures Le32(PutLe32(s, o, v), p) == if p == o then v else Le32(s, p)
  {
    Widths();
    LeBytesInverse(v, 4);
    SpliceSlice(s, o, LeBytes(v, 4), if p == o then 0 else p, if p == o then 0 else p + 4);
  }

  // ---------- single bits ----------

  function Mask(k: nat): (m: Byte)
    requires k < 8
  {
    (1 as bv8) << k
  }

  predicate BitIn(b: Byte, k: nat)
    requires k < 8
  {
    b & Mask(k) != 0
  }

  lemma SetBitReads(b: Byte, k: nat, j: nat)
    requires k < 8 && j < 8
    ensures BitIn(b | Mask(k), j) == (j == k || BitIn(b, j))
  {
  }

  lemma ClearBitReads(b: Byte, k: nat, j: nat)
    requires k < 8 && j < 8
    ensures BitIn(b & !Mask(k), j) == (j != k && BitIn(b, j))
  {
  }
}
