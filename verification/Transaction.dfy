/** The block device and the four-sector buffered transaction of the exFAT write path. */
module Transaction {
  import opened Bytes
  import opened Arithmetic
  import opened Volume

  const MAX_SECTORS: nat := 4

  /** A device of 512-byte sectors whose reads return the last write. */
  class BlockDevice {
    var sectors: Disk

    constructor (initial: Disk)
      ensures sectors == initial
    {
      sectors := initial;
    }

    method Read(lba: nat) returns (ok: bool, s: Sector)
      ensures ok == (lba < |sectors|)
      ensures ok ==> s == sectors[lba]
    {
      ok := lba < |sectors|;
      s := if ok then sectors[lba] else ZeroSector();
    }

    /** Writes a sector, reads it back and compares. */
    method WriteChecked(lba: nat, s: Sector) returns (ok: bool)
      modifies this
      ensures ok == (lba < |old(sectors)|)
      ensures sectors == if ok then old(sectors)[lba := s] else old(sectors)
    {
      if lba >= |sectors| {
        return false;
      }
      sectors := sectors[lba := s];
      var readOk, verify := Read(lba);
      ok := readOk && verify == s;
    }
  }

  // ---------- patches ----------

  datatype Patch =
    | BitPatch(offset: nat, position: nat, set_: bool)
    | U32Patch(offset: nat, value: nat)
    | BytesPatch(offset: nat, bytes: seq<Byte>)
    | DeletePatch(offset: nat, entryCount: nat)

  /** When a patch can be applied to a sector: it stays inside it, and only entries in use can be deleted. */
  predicate PatchApplies(s: Sector, p: Patch) {
    match p
    case BitPatch(o, k, _) => o < 512 && k < 8
    case U32Patch(o, _) => o + 4 <= 512
    case BytesPatch(o, bs) => o + |bs| <= 512
    case DeletePatch(o, n) => o + n * 32 <= 512 && forall i :: 0 <= i < n ==> s[o + i * 32] & 0x80 != 0
  }

  /** Clears the in-use bit of the first `n` 32-byte entries from offset `o`. */
  function Deleted(s: Sector, o: nat, n: nat): (r: Sector)
    requires o + n * 32 <= 512
    ensures forall i :: 0 <= i < 512 ==>
              r[i] == if o <= i < o + n * 32 && (i - o) % 32 == 0 then s[i] & 0x7f else s[i]
  {
    seq(512, i requires 0 <= i < 512 => if o <= i < o + n * 32 && (i - o) % 32 == 0 then s[i] & 0x7f else s[i])
  }

  function Patched(s: Sector, p: Patch): (r: Sector)
    requires PatchApplies(s, p)
  {
    match p
    case BitPatch(o, k, set_) => PatchedBit(s, o, k, set_)
    case U32Patch(o, v) => PutLe32(s, o, v)
    case BytesPatch(o, bs) => Splice(s, o, bs)
    case DeletePatch(o, n) => Deleted(s, o, n)
  }

  /** Deletes entries one by one, stopping with a failure at the first that is not in use. */
  method DeleteEntries(sector: Sector, o: nat, n: nat) returns (ok: bool, r: Sector)
    requires o + n * 32 <= 512
    ensures ok == PatchApplies(sector, DeletePatch(o, n))
    ensures ok ==> r == Deleted(sector, o, n)
  {
    r := sector;
    ok := true;
    for i := 0 to n
      invariant r == Deleted(sector, o, i)
      invariant forall k :: 0 <= k < i ==> sector[o + k * 32] & 0x80 != 0
    {
      if r[o + i * 32] & 0x80 == 0 {
        assert sector[o + i * 32] & 0x80 == 0;
        return false, r;
      }
      r := r[o + i * 32 := r[o + i * 32] & 0x7f];
    }
  }

  method ApplyPatch(sector: Sector, p: Patch) returns (ok: bool, r: Sector)
    ensures ok == PatchApplies(sector, p)
    ensures ok ==> r == Patched(sector, p)
  {
    r := sector;
    match p
    case BitPatch(o, k, set_) =>
      ok := o < 512 && k < 8;
      if ok { r := PatchedBit(sector, o, k, set_); }
    case U32Patch(o, v) =>
      ok := o + 4 <= 512;
      if ok { r := PutLe32(sector, o, v); }
    case BytesPatch(o, bs) =>
      ok := o + |bs| <= 512;
      if ok { r := Splice(sector, o, bs); }
    case DeletePatch(o, n) =>
      if o + n * 32 > 512 {
        return false, sector;
      }
      ok, r := DeleteEntries(sector, o, n);
  }

  // ---------- buffered sectors over a disk ----------

  datatype Buffered = Buffered(lba: nat, sector: Sector)

  function Lbas(es: seq<Buffered>): (s: set<nat>) {
    set i | 0 <= i < |es| :: es[i].lba
  }

  ghost predicate Buffers(es: seq<Buffered>, n: nat) {
    && (forall i :: 0 <= i < |es| ==> es[i].lba < n)
    && (forall i, j :: 0 <= i < j < |es| ==> es[i].lba != es[j].lba)
  }

  /** The disk as seen through the buffered sectors. */
  function Overlay(d: Disk, es: seq<Buffered>): (r: Disk)
    ensures |r| == |d|
  {
    if es == [] then d
    else
      var r := Overlay(d, es[..|es| - 1]);
      var e := es[|es| - 1];
      if e.lba < |d| then r[e.lba := e.sector] else r
  }

  lemma {:induction false} OverlayElsewhere(d: Disk, es: seq<Buffered>, l: nat)
    requires l < |d| && (forall i :: 0 <= i < |es| ==> es[i].lba != l)
    ensures Overlay(d, es)[l] == d[l]
  {
    if es != [] {
      OverlayElsewhere(d, es[..|es| - 1], l);
    }
  }

  lemma {:induction false} OverlayAt(d: Disk, es: seq<Buffered>, i: nat)
    requires Buffers(es, |d|) && i < |es|
    ensures Overlay(d, es)[es[i].lba] == es[i].sector
  {
    if i < |es| - 1 {
      OverlayAt(d, es[..|es| - 1], i);
    }
  }

  /** Changing one buffered sector changes the view at that sector and nowhere else. */
  lemma {:induction false} OverlayUpdate(d: Disk, es: seq<Buffered>, i: nat, s: Sector)
    requires Buffers(es, |d|) && i < |es|
    ensures Overlay(d, es[i := Buffered(es[i].lba, s)]) == Overlay(d, es)[es[i].lba := s]
  {
    var n := |es| - 1;
    var es' := es[i := Buffered(es[i].lba, s)];
    if i == n {
      assert es'[..n] == es[..n];
    } else {
      OverlayUpdate(d, es[..n], i, s);
      assert es'[..n] == es[..n][i := Buffered(es[i].lba, s)];
    }
  }

  lemma OverlayAppend(d: Disk, es: seq<Buffered>, lba: nat)
    requires Buffers(es, |d|) && lba < |d| && lba !in Lbas(es)
    ensures Overlay(d, es + [Buffered(lba, d[lba])]) == Overlay(d, es)
    ensures Buffers(es + [Buffered(lba, d[lba])], |d|)
    ensures Lbas(es + [Buffered(lba, d[lba])]) == Lbas(es) + {lba}
  {
    var es' := es + [Buffered(lba, d[lba])];
    assert es'[..|es|] == es;
    forall i | 0 <= i < |es| ensures es[i].lba != lba {
      assert es[i].lba in Lbas(es);
    }
    OverlayElsewhere(d, es, lba);
    assert es'[|es|].lba in Lbas(es');
    forall l | l in Lbas(es) ensures l in Lbas(es') {
      var i :| 0 <= i < |es| && es[i].lba == l;
      assert es'[i].lba == l;
    }
  }

  lemma LbasUpdate(es: seq<Buffered>, i: nat, s: Sector)
    requires i < |es|
    ensures Lbas(es[i := Buffered(es[i].lba, s)]) == Lbas(es)
  {
    var es' := es[i := Buffered(es[i].lba, s)];
    forall l | l in Lbas(es) ensures l in Lbas(es') {
      var j :| 0 <= j < |es| && es[j].lba == l;
      assert es'[j].lba == l;
    }
    forall l | l in Lbas(es') ensures l in Lbas(es) {
      var j :| 0 <= j < |es'| && es'[j].lba == l;
      assert es[j].lba == l;
    }
  }

  class SectorTransaction {
    const device: BlockDevice
    var entries: seq<Buffered>

    ghost predicate Valid()
      reads this, device
    {
      |entries| <= MAX_SECTORS && Buffers(entries, |device.sectors|)
    }

    /** The disk this transaction would leave behind if it were committed now. */
    ghost function View(): (d: Disk)
      reads this, device
      ensures |d| == |device.sectors|
    {
      Overlay(device.sectors, entries)
    }

    constructor (device: BlockDevice)
      ensures this.device == device && entries == [] && Valid() && View() == device.sectors
    {
      this.device := device;
      entries := [];
    }

    /** The index of the buffer of sector `lba`, loading the sector if there is room. */
    method Get(lba: nat) returns (ok: bool, index: nat)
      requires Valid()
      modifies this
      ensures Valid() && View() == old(View())
      ensures ok == (lba < |device.sectors| && (lba in old(Lbas(entries)) || |old(entries)| < MAX_SECTORS))
      ensures ok ==> index < |entries| && entries[index].lba == lba
      ensures ok ==> entries[index].sector == View()[lba]
      ensures Lbas(entries) == if ok then old(Lbas(entries)) + {lba} else old(Lbas(entries))
    {
      hide Overlay;
      index := 0;
      while index < |entries|
        invariant 0 <= index <= |entries|
        invariant forall i :: 0 <= i < index ==> entries[i].lba != lba
      {
        if entries[index].lba == lba {
          OverlayAt(device.sectors, entries, index);
          return true, index;
        }
        index := index + 1;
      }
      assert lba !in Lbas(entries);
      if |entries| >= MAX_SECTORS {
        return false, 0;
      }
      var s;
      ok, s := device.Read(lba);
      if ok {
        OverlayAppend(device.sectors, entries, lba);
        entries := entries + [Buffered(lba, s)];
        OverlayAt(device.sectors, entries, index);
      }
    }

    /** Patches the buffered copy of a sector. The device itself is not touched. */
    method Mutate(lba: nat, p: Patch) returns (ok: bool)
      requires Valid()
      modifies this
      ensures Valid()
      ensures ok == (lba < |device.sectors| && (lba in old(Lbas(entries)) || |old(entries)| < MAX_SECTORS)
                     && PatchApplies(old(View())[lba], p))
      ensures ok ==> View() == old(View())[lba := Patched(old(View())[lba], p)]
      ensures ok ==> Lbas(entries) == old(Lbas(entries)) + {lba}
    {
      hide Overlay, Patched, PatchApplies, Lbas;
      var i;
      ok, i := Get(lba);
      if ok {
        var r;
        ok, r := ApplyPatch(entries[i].sector, p);
        if ok {
          OverlayUpdate(device.sectors, entries, i, r);
          LbasUpdate(entries, i, r);
          entries := entries[i := Buffered(lba, r)];
        }
      }
    }

    /** Writes every buffered sector out, then reads each back. */
    method Commit() returns (ok: bool)
      requires Valid()
      modifies device
      ensures ok && device.sectors == old(View())
    {
      ghost var d := device.sectors;
      for i := 0 to |entries|
        invariant Buffers(entries, |d|)
        invariant device.sectors == Overlay(d, entries[..i])
      {
        assert entries[..i + 1][..i] == entries[..i];
        var written := device.WriteChecked(entries[i].lba, entries[i].sector);
        if !written {
          return false;
        }
      }
      assert entries[..|entries|] == entries;
      forall i | 0 <= i < |entries| ensures device.sectors[entries[i].lba] == entries[i].sector {
        OverlayAt(d, entries, i);
      }
      ok := Verify();
    }

    /** Whether the device holds every buffered sector. */
    method Verify() returns (ok: bool)
      ensures ok == forall i :: 0 <= i < |entries| ==>
                      entries[i].lba < |device.sectors| && device.sectors[entries[i].lba] == entries[i].sector
    {
      for i := 0 to |entries|
        invariant forall k :: 0 <= k < i ==>
                    entries[k].lba < |device.sectors| && device.sectors[entries[k].lba] == entries[k].sector
      {
        var readOk, s := device.Read(entries[i].lba);
        if !readOk || s != entries[i].sector {
          return false;
        }
      }
      ok := true;
    }
  }

  // ---------- agreement with direct application ----------

  datatype Edit = Edit(lba: nat, patch: Patch)

  /** Whether the edits can be applied to the disk one after the other. */
  ghost predicate Applicable(d: Disk, edits: seq<Edit>)
    decreases |edits|
  {
    edits == [] ||
    (&& edits[0].lba < |d|
     && PatchApplies(d[edits[0].lba], edits[0].patch)
     && Applicable(d[edits[0].lba := Patched(d[edits[0].lba], edits[0].patch)], edits[1..]))
  }

  /** The disk after applying the edits directly, one by one, in order. */
  ghost function Applied(d: Disk, edits: seq<Edit>): Disk
    requires Applicable(d, edits)
    decreases |edits|
  {
    if edits == [] then d
    else Applied(d[edits[0].lba := Patched(d[edits[0].lba], edits[0].patch)], edits[1..])
  }

  function Touched(edits: seq<Edit>): set<nat> {
    if edits == [] then {} else {edits[0].lba} + Touched(edits[1..])
  }

  lemma {:induction false} AppliedLeavesRest(d: Disk, edits: seq<Edit>, l: nat)
    requires Applicable(d, edits) && l < |d| && l !in Touched(edits)
    ensures |Applied(d, edits)| == |d| && Applied(d, edits)[l] == d[l]
    decreases |edits|
  {
    if edits != [] {
      AppliedLeavesRest(d[edits[0].lba := Patched(d[edits[0].lba], edits[0].patch)], edits[1..], l);
    }
  }

  lemma LbasLast(es: seq<Buffered>)
    requires es != []
    ensures Lbas(es) == Lbas(es[..|es| - 1]) + {es[|es| - 1].lba}
  {
    var k := |es| - 1;
    forall l | l in Lbas(es[..k]) ensures l in Lbas(es) {
      var i :| 0 <= i < k && es[..k][i].lba == l;
      assert es[i].lba == l;
    }
    forall l | l in Lbas(es) ensures l in Lbas(es[..k]) + {es[k].lba} {
      var i :| 0 <= i < |es| && es[i].lba == l;
      if i < k { assert es[..k][i].lba == l; }
    }
    assert es[k].lba in Lbas(es);
  }

  /** As many sectors are buffered as there are distinct addresses. */
  lemma {:induction false} LbasCount(es: seq<Buffered>, n: nat)
    requires Buffers(es, n)
    ensures |Lbas(es)| == |es|
  {
    if es != [] {
      var k := |es| - 1;
      LbasCount(es[..k], n);
      LbasLast(es);
      assert es[k].lba !in Lbas(es[..k]);
      hide Lbas;
    }
  }

  lemma SubsetCount(a: set<nat>, b: set<nat>)
    requires a <= b
    ensures |a| <= |b|
  {
    if a != {} {
      var x :| x in a;
      SubsetCount(a - {x}, b - {x});
    }
  }

  /** Buffers the edits, then commits. The outcome is the direct application of all of them or of none. */
  method RunTransaction(device: BlockDevice, edits: seq<Edit>) returns (ok: bool)
    modifies device
    ensures ok == (Applicable(old(device.sectors), edits) && |Touched(edits)| <= MAX_SECTORS)
    ensures ok ==> device.sectors == Applied(old(device.sectors), edits)
    ensures !ok ==> device.sectors == old(device.sectors)
  {
    var tx := new SectorTransaction(device);
    ghost var d := device.sectors;
    assert edits[0..] == edits;
    for i := 0 to |edits|
      invariant tx.Valid() && tx.device == device && device.sectors == d && fresh(tx)
      invariant Lbas(tx.entries) + Touched(edits[i..]) == Touched(edits)
      invariant Applicable(d, edits) == Applicable(tx.View(), edits[i..])
      invariant Applicable(d, edits) ==> Applied(d, edits) == Applied(tx.View(), edits[i..])
    {
      hide Overlay, PatchApplies, Patched, Lbas;
      assert edits[i..][1..] == edits[i + 1..];
      ghost var before := Lbas(tx.entries);
      LbasCount(tx.entries, |d|);
      ok := tx.Mutate(edits[i].lba, edits[i].patch);
      if !ok {
        if Applicable(d, edits) {
          assert |before + {edits[i].lba}| > MAX_SECTORS;
          SubsetCount(before + {edits[i].lba}, Touched(edits));
        }
        return;
      }
    }
    LbasCount(tx.entries, |d|);
    assert edits[|edits|..] == [];
    ok := tx.Commit();
  }
}
