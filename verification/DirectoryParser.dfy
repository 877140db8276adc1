/** The directory-sector parser, and the proof that it reads back what the encoder stored. */
module DirectoryParser {
  import opened Bytes
  import opened EntrySet

  /** What the parser hands to the in-memory table for one file set. */
  datatype Parsed = Parsed(name: string, size: nat, first: nat, attributes: nat, streamFlags: Byte)

  /** A 32-byte directory entry. */
  function Slot(sector: Sector, slot: nat): (e: seq<Byte>)
    requires slot < 16
    ensures |e| == 32
  {
    sector[32 * slot..32 * slot + 32]
  }

  function NameChar(low: Byte, high: Byte): (c: char) {
    if high == 0 && 32 <= low < 127 then (low as int) as char else '?'
  }

  const NAME_CAPACITY: nat := 64

  /** Appends the characters of one name entry from position `i`, up to `expected` in all. */
  function AppendNameChars(name: string, entry: seq<Byte>, expected: nat, i: nat): (r: string)
    requires |entry| == 32 && i <= 15
    decreases 15 - i
  {
    if i == 15 || |name| >= expected || (entry[2 + 2 * i] == 0 && entry[3 + 2 * i] == 0) then name
    else
      var c := NameChar(entry[2 + 2 * i], entry[3 + 2 * i]);
      AppendNameChars(if |name| + 1 < NAME_CAPACITY then name + [c] else name, entry, expected, i + 1)
  }

  /** The fields gathered so far while walking the secondary entries of a set. */
  datatype Gathered = Gathered(nameLen: nat, name: string, size: nat, first: nat, streamFlags: Byte)

  function GatherOne(g: Gathered, entry: seq<Byte>): (r: Gathered)
    requires |entry| == 32
  {
    if entry[0] == 0xc0 then
      g.(streamFlags := entry[1], nameLen := entry[3] as int, first := LeValue(entry[20..24]),
         size := LeValue(entry[24..32]))
    else if entry[0] == 0xc1 && g.nameLen > 0 then
      g.(name := AppendNameChars(g.name, entry, g.nameLen, 0))
    else g
  }

  /** Secondary entries `j`..`count` of the set at `slot`, as far as they lie in this sector. */
  function Gather(g: Gathered, sector: Sector, slot: nat, j: nat, count: nat): (r: Gathered)
    decreases count + 1 - j
  {
    if j > count || slot + j >= 16 then g
    else Gather(GatherOne(g, Slot(sector, slot + j)), sector, slot, j + 1, count)
  }

  function ParseSet(sector: Sector, slot: nat): (p: Parsed)
    requires slot < 16
  {
    var e := Slot(sector, slot);
    var g := Gather(Gathered(0, "", 0, 0, 0), sector, slot, 1, e[1] as int);
    Parsed(g.name, g.size, g.first, LeValue(e[4..6]), g.streamFlags)
  }

  /** The file sets the parser reports from `slot` on, and whether it met the end-of-directory mark. */
  function ParseFrom(sector: Sector, slot: nat): (r: (seq<Parsed>, bool))
    decreases 16 - slot
  {
    if slot >= 16 then ([], false)
    else if Slot(sector, slot)[0] == 0 then ([], true)
    else if Slot(sector, slot)[0] != 0x85 then ParseFrom(sector, slot + 1)
    else
      var rest := ParseFrom(sector, slot + Slot(sector, slot)[1] as int + 1);
      var p := ParseSet(sector, slot);
      (if p.name == "" then rest.0 else [p] + rest.0, rest.1)
  }

  method ParseDirectorySector(sector: Sector) returns (found: seq<Parsed>, stop: bool)
    ensures (found, stop) == ParseFrom(sector, 0)
  {
    hide ParseSet, Slot;
    found := [];
    stop := false;
    var slot := 0;
    assert [] + ParseFrom(sector, 0).0 == ParseFrom(sector, 0).0;
    while slot < 16
      invariant ParseFrom(sector, 0) == (found + ParseFrom(sector, slot).0, ParseFrom(sector, slot).1)
      decreases 16 - slot
    {
      var entry := Slot(sector, slot);
      if entry[0] == 0 {
        assert found + [] == found;
        stop := true;
        return;
      }
      if entry[0] != 0x85 {
        slot := slot + 1;
      } else {
        var p := ReadSet(sector, slot);
        if p.name != "" {
          assert found + [p] + ParseFrom(sector, slot + entry[1] as int + 1).0
              == found + ([p] + ParseFrom(sector, slot + entry[1] as int + 1).0);
          found := found + [p];
        }
        slot := slot + entry[1] as int + 1;
      }
    }
    assert found + [] == found;
  }

  /** Walks the secondary entries of one file set. */
  method ReadSet(sector: Sector, slot: nat) returns (p: Parsed)
    requires slot < 16
    ensures p == ParseSet(sector, slot)
  {
    hide Slot, GatherOne;
    var entry := Slot(sector, slot);
    var g := Gathered(0, "", 0, 0, 0);
    var j := 1;
    while j <= entry[1] as int && slot + j < 16
      invariant 1 <= j
      invariant Gather(Gathered(0, "", 0, 0, 0), sector, slot, 1, entry[1] as int) ==
                  Gather(g, sector, slot, j, entry[1] as int)
      decreases entry[1] as int + 1 - j
    {
      g := GatherOne(g, Slot(sector, slot + j));
      j := j + 1;
    }
    p := Parsed(g.name, g.size, g.first, LeValue(entry[4..6]), g.streamFlags);
  }

  // ---------- round trip ----------

  predicate Printable(name: string) {
    forall i :: 0 <= i < |name| ==> 32 <= name[i] as int < 127
  }

  lemma NameCharInverse(c: char)
    requires 32 <= c as int < 127
    ensures NameChar(CharByte(c), 0) == c
    ensures CharByte(c) != 0
  {
    assert CharByte(c) as int == c as int;
  }

  lemma {:induction false} NameEntryReads(name: string, i: nat)
    requires Printable(name) && i <= |name| <= 15
    ensures AppendNameChars(name[..i], NameEntry(name), |name|, i) == name
    decreases 15 - i
  {
    if i == |name| {
      assert name[..i] == name;
    } else {
      hide CharByte, NameChar;
      Utf16At(name, i);
      NameCharInverse(name[i]);
      assert NameEntry(name)[2 + 2 * i] == CharByte(name[i]) && NameEntry(name)[3 + 2 * i] == 0 by { hide Utf16; }
      assert name[..i] + [name[i]] == name[..i + 1];
      hide NameEntry;
      NameEntryReads(name, i + 1);
    }
  }

  lemma SetStartsWith(name: string, first: nat, size: nat)
    requires |name| <= 15
    ensures var s := EncodedSet(name, first, size); s[0] == 0x85 && s[1] == 2 && s[4..6] == LeBytes(0x20, 2)
  {
    hide NameHash, Utf16, LeBytes, NameEntry, LowByte, Fold;
    EncodedSetIs(name, first, size);
    PayloadParts(name, first, size);
    hide Payload, AfterChecksum;
    var p := Payload(name, first, size);
    assert p[2..4] == LeBytes(0x20, 2);
  }

  lemma StreamFields(name: string, first: nat, size: nat)
    requires |name| <= 15
    ensures var p := Payload(name, first, size);
            p[30] == 0xc0 && p[31] == 0 && p[33] == LowByte(|name|) &&
            p[50..54] == LeBytes(first, 4) && p[54..62] == LeBytes(size, 8) && p[62..] == NameEntry(name)
  {
    PayloadParts(name, first, size);
    hide *;
    var a := [0x85, 2] + LeBytes(0x20, 2) + Zeros(26) + [0xc0, 0, 0] + [LowByte(|name|)] + LeBytes(NameHash(name), 2);
    var b := Zeros(2) + LeBytes(size, 8) + Zeros(4) + LeBytes(first, 4) + LeBytes(size, 8);
    assert Payload(name, first, size) == a + b + NameEntry(name);
    FieldsOf(a, b, NameEntry(name));
    assert b[14..18] == LeBytes(first, 4) && b[18..26] == LeBytes(size, 8);
  }

  lemma FieldsOf(a: seq<Byte>, b: seq<Byte>, c: seq<Byte>)
    requires |a| == 36 && |b| == 26
    ensures var p := a + b + c;
            p[30] == a[30] && p[31] == a[31] && p[33] == a[33] && p[50..54] == b[14..18] && p[54..62] == b[18..26]
            && p[62..] == c
  {
  }

  lemma SetSlots(name: string, first: nat, size: nat)
    requires |name| <= 15
    ensures var s := EncodedSet(name, first, size);
            s[32] == 0xc0 && s[33] == 0 && s[35] == LowByte(|name|) &&
            s[52..56] == LeBytes(first, 4) && s[56..64] == LeBytes(size, 8) && s[64..] == NameEntry(name)
  {
    StreamFields(name, first, size);
    EncodedSetIs(name, first, size);
    hide Payload, EncodedSet, Fold, LeBytes;
    var p := Payload(name, first, size);
    var s := EncodedSet(name, first, size);
    assert s[4..] == p[2..];
    assert forall i :: 4 <= i < 96 ==> s[i] == s[4..][i - 4] == p[i - 2];
  }

  /** Parsing the set that encodes a name, a first cluster and a size gives exactly those back. */
  lemma EncodedSetParses(sector: Sector, slot: nat, name: string, first: nat, size: nat)
    requires slot <= 13
    requires 0 < |name| <= 15 && Printable(name)
    requires first < 0x1_0000_0000 && size < 0x1_0000_0000_0000_0000
    requires sector[32 * slot..32 * slot + 96] == EncodedSet(name, first, size)
    ensures Slot(sector, slot)[0] == 0x85
    ensures ParseSet(sector, slot) == Parsed(name, size, first, 0x20, 0)
    ensures ParseFrom(sector, slot).0 == [Parsed(name, size, first, 0x20, 0)] + ParseFrom(sector, slot + 3).0
  {
    hide *;
    var s := EncodedSet(name, first, size);
    SetStartsWith(name, first, size);
    SetSlots(name, first, size);
    Widths();
    LeBytesInverse(0x20, 2);
    LeBytesInverse(first, 4);
    LeBytesInverse(size, 8);
    NameEntryReads(name, 0);
    assert name[..0] == "";
    var e0, e1, e2 := Slot(sector, slot), Slot(sector, slot + 1), Slot(sector, slot + 2);
    SlotsOfSet(sector, slot, s);
    NameLength(name);
    TwoSecondaries(sector, slot, name);
  }

  lemma SlotsOfSet(sector: Sector, slot: nat, s: seq<Byte>)
    requires slot <= 13 && |s| == 96 && sector[32 * slot..32 * slot + 96] == s
    ensures var e0, e1, e2 := Slot(sector, slot), Slot(sector, slot + 1), Slot(sector, slot + 2);
            && e0[0] == s[0] && e0[1] == s[1] && e0[4..6] == s[4..6]
            && e1[0] == s[32] && e1[1] == s[33] && e1[3] == s[35] && e1[20..24] == s[52..56] && e1[24..32] == s[56..64]
            && e2 == s[64..]
  {
    assert Slot(sector, slot) == s[0..32] && Slot(sector, slot + 1) == s[32..64] && Slot(sector, slot + 2) == s[64..96];
  }

  lemma NameLength(name: string)
    requires |name| <= 15
    ensures LowByte(|name|) as int == |name|
  {
    hide LowByte;
    assert |name| % 256 == |name|;
  }

  lemma TwoSecondaries(sector: Sector, slot: nat, name: string)
    requires slot <= 13 && 0 < |name| <= 15
    requires Slot(sector, slot)[0] == 0x85 && Slot(sector, slot)[1] == 2
    requires Slot(sector, slot + 1)[0] == 0xc0 && Slot(sector, slot + 1)[3] as int == |name|
    requires Slot(sector, slot + 2) == NameEntry(name)
    requires AppendNameChars("", NameEntry(name), |name|, 0) == name
    ensures var e0, e1 := Slot(sector, slot), Slot(sector, slot + 1);
            var p := Parsed(name, LeValue(e1[24..32]), LeValue(e1[20..24]), LeValue(e0[4..6]), e1[1]);
            ParseSet(sector, slot) == p && ParseFrom(sector, slot).0 == [p] + ParseFrom(sector, slot + 3).0
  {
    hide Slot, AppendNameChars, LeValue, NameHash;
    var g0 := Gathered(0, "", 0, 0, 0);
    var g1 := GatherOne(g0, Slot(sector, slot + 1));
    var g2 := GatherOne(g1, Slot(sector, slot + 2));
    assert NameEntry(name)[0] == 0xc1 by { hide Utf16; }
    hide NameEntry;
    assert Gather(g2, sector, slot, 3, 2) == g2;
    assert Gather(g1, sector, slot, 2, 2) == g2;
    assert Gather(g0, sector, slot, 1, 2) == g2;
  }
}
