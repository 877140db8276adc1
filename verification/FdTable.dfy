/** A task's descriptors and its reference-counted open files. */
module FdTables {
  import opened Options
  import opened Bytes

  const MAX_FDS: nat := 11
  const MAX_OPEN: nat := 8
  const FIRST_FD: nat := 3
  const U64_LIMIT: nat := 0x1_0000_0000_0000_0000
  const INT64_MIN: int := -0x8000_0000_0000_0000

  datatype FileType = NoFile | Vfs | Tty

  datatype OpenFile = OpenFile(inUse: bool, refs: nat, kind: FileType, path: string, offset: nat, append: bool)

  const CLOSED: OpenFile := OpenFile(false, 0, NoFile, "", 0, false)

  /** How many descriptors name open file `j`. */
  function Count(fds: seq<Option<nat>>, j: nat): (n: nat) {
    if fds == [] then 0 else Count(fds[..|fds| - 1], j) + if fds[|fds| - 1] == Some(j) then 1 else 0
  }

  function Hit(x: Option<nat>, j: nat): (n: nat) {
    if x == Some(j) then 1 else 0
  }

  lemma {:induction false} CountUpdate(fds: seq<Option<nat>>, i: nat, x: Option<nat>, j: nat)
    requires i < |fds|
    ensures Count(fds[i := x], j) + Hit(fds[i], j) == Count(fds, j) + Hit(x, j)
  {
    var init := fds[..|fds| - 1];
    if i == |fds| - 1 {
      assert fds[i := x][..|fds| - 1] == init;
    } else {
      CountUpdate(init, i, x, j);
      assert fds[i := x][..|fds| - 1] == init[i := x];
    }
  }

  lemma {:induction false} CountNamed(fds: seq<Option<nat>>, i: nat, j: nat)
    requires i < |fds| && fds[i] == Some(j)
    ensures Count(fds, j) > 0
  {
    if i < |fds| - 1 {
      assert fds[..|fds| - 1][i] == fds[i];
      CountNamed(fds[..|fds| - 1], i, j);
    }
  }

  /** Every reference count is the number of descriptors naming the file; a file is in use exactly when it is named. */
  ghost predicate CountsOk(fds: seq<Option<nat>>, files: seq<OpenFile>) {
    forall j :: 0 <= j < |files| ==>
      files[j].refs == Count(fds, j) && (files[j].inUse <==> files[j].refs > 0)
      && (!files[j].inUse ==> files[j] == CLOSED)
  }

  ghost predicate TableOk(fds: seq<Option<nat>>, files: seq<OpenFile>) {
    && |fds| == MAX_FDS && |files| == MAX_OPEN
    && (forall i :: 0 <= i < |fds| ==> fds[i].Some? ==> fds[i].value < |files|)
    && CountsOk(fds, files)
  }

  lemma NamedInUse(fds: seq<Option<nat>>, files: seq<OpenFile>, i: nat)
    requires TableOk(fds, files) && i < |fds| && fds[i].Some?
    ensures fds[i].value < |files| && files[fds[i].value].inUse && files[fds[i].value].refs > 0
  {
    CountNamed(fds, i, fds[i].value);
  }

  /** What a descriptor shows, whoever else shares it. */
  datatype Shown = Shown(kind: FileType, path: string, offset: nat, append: bool)

  function ShowFile(f: OpenFile): Shown {
    Shown(f.kind, f.path, f.offset, f.append)
  }

  function Show(fds: seq<Option<nat>>, files: seq<OpenFile>, i: nat): (r: Option<Shown>)
    requires i < |fds|
  {
    if fds[i].Some? && fds[i].value < |files| then Some(ShowFile(files[fds[i].value])) else None
  }

  // ---------- closing and naming a descriptor ----------

  /** The files after descriptor `i` was closed. */
  function Dropped(files: seq<OpenFile>, x: Option<nat>): (r: seq<OpenFile>)
    ensures |r| == |files|
  {
    if x.None? || x.value >= |files| then files
    else
      var f := files[x.value];
      if f.refs <= 1 then files[x.value := CLOSED] else files[x.value := f.(refs := f.refs - 1)]
  }

  lemma CloseKeeps(fds: seq<Option<nat>>, files: seq<OpenFile>, i: nat)
    requires TableOk(fds, files) && i < |fds|
    ensures TableOk(fds[i := None], Dropped(files, fds[i]))
  {
    var fds', files' := fds[i := None], Dropped(files, fds[i]);
    forall j | 0 <= j < |files'|
      ensures files'[j].refs == Count(fds', j) && (files'[j].inUse <==> files'[j].refs > 0)
      ensures (!files'[j].inUse ==> files'[j] == CLOSED)
    {
      CountUpdate(fds, i, None, j);
      if fds[i] == Some(j) { NamedInUse(fds, files, i); }
    }
  }

  /** Closing one descriptor shows nothing different through the others. */
  lemma CloseShows(fds: seq<Option<nat>>, files: seq<OpenFile>, i: nat, k: nat)
    requires TableOk(fds, files) && i < |fds| && k < |fds| && k != i
    ensures Show(fds[i := None], Dropped(files, fds[i]), k) == Show(fds, files, k)
  {
    hide CountsOk;
    if fds[i].Some? && fds[k] == fds[i] { SharedTwice(fds, files, i, k); }
  }

  /** A file with two names has at least two references. */
  lemma SharedTwice(fds: seq<Option<nat>>, files: seq<OpenFile>, i: nat, k: nat)
    requires TableOk(fds, files) && i < |fds| && k < |fds| && i != k && fds[i].Some? && fds[k] == fds[i]
    ensures fds[i].value < |files| && files[fds[i].value].refs >= 2
  {
    var j := fds[i].value;
    CountUpdate(fds, i, None, j);
    CountNamed(fds[i := None], k, j);
  }

  /** Giving an unused descriptor to a file that is in use, or about to be. */
  lemma NameKeeps(fds: seq<Option<nat>>, files: seq<OpenFile>, i: nat, j: nat, f: OpenFile)
    requires TableOk(fds, files) && i < |fds| && fds[i].None? && j < |files|
    requires f.inUse && f.refs == files[j].refs
    ensures TableOk(fds[i := Some(j)], files[j := f.(refs := f.refs + 1)])
  {
    var fds', files' := fds[i := Some(j)], files[j := f.(refs := f.refs + 1)];
    forall k | 0 <= k < |files'|
      ensures files'[k].refs == Count(fds', k) && (files'[k].inUse <==> files'[k].refs > 0)
      ensures (!files'[k].inUse ==> files'[k] == CLOSED)
    {
      CountUpdate(fds, i, Some(j), k);
    }
  }

  /** The first free open-file slot from `j` on. */
  function FreeSlot(files: seq<OpenFile>, j: nat): (r: Option<nat>)
    requires j <= |files|
    ensures r.Some? ==> j <= r.value < |files| && !files[r.value].inUse && forall k :: j <= k < r.value ==>
              files[k].inUse
    ensures r.None? ==> forall k :: j <= k < |files| ==> files[k].inUse
    decreases |files| - j
  {
    if j == |files| then None else if !files[j].inUse then Some(j) else FreeSlot(files, j + 1)
  }

  function FreeFd(fds: seq<Option<nat>>, i: nat): (r: Option<nat>)
    requires i <= |fds|
    ensures r.Some? ==> i <= r.value < |fds| && fds[r.value].None? && forall k :: i <= k < r.value ==> fds[k].Some?
    ensures r.None? ==> forall k :: i <= k < |fds| ==> fds[k].Some?
    decreases |fds| - i
  {
    if i == |fds| then None else if fds[i].None? then Some(i) else FreeFd(fds, i + 1)
  }

  // ---------- reading ----------

  lemma SlicesJoin(s: seq<Byte>, offset: nat, a: nat, b: nat)
    requires a == |Slice(s, offset, a)|
    ensures Slice(s, offset, a) + Slice(s, offset + a, b) == Slice(s, offset, a + |Slice(s, offset + a, b)|)
  {
  }

  /** How many bytes the first `n` reads ask for. */
  function Asked(names: seq<(int, nat)>, n: nat): (k: nat)
    requires n <= |names|
  {
    if n == 0 then 0 else Asked(names, n - 1) + names[n - 1].1
  }

  lemma SliceLengths(s: seq<Byte>, offset: nat, a: nat, b: nat)
    ensures var n := |Slice(s, offset, a)|;
            n + |Slice(s, offset + n, b)| == |Slice(s, offset, a + b)|
  {
  }

  lemma SliceNone(s: seq<Byte>, offset: nat)
    ensures Slice(s, offset, 0) == []
  {
  }

  /** A seek: the new position, computed without overflow in 64 bits. */
  function Sought(base: nat, delta: int): (r: Option<nat>) {
    if delta < 0 then
      (if delta == INT64_MIN || -delta > base then None else Some(base + delta))
    else (if base + delta >= U64_LIMIT then None else Some(base + delta))
  }

  /** A seek succeeds exactly when the target is an unsigned 64-bit number, except that the least delta is always
      refused: negating it overflows, and the code turns it away even where the target would be a position. */
  lemma SoughtIs(base: nat, delta: int)
    requires base < U64_LIMIT && INT64_MIN <= delta
    ensures Sought(base, delta).Some? <==> delta != INT64_MIN && 0 <= base + delta < U64_LIMIT
    ensures Sought(base, delta).Some? ==> Sought(base, delta).value == base + delta
    ensures Sought(-INT64_MIN, INT64_MIN) == None
  {
  }

  datatype Whence = Set | Cur | End | Invalid

  /** The state of one task's table; descriptors 0 to 2 stand for the terminal while they are unused. */
  class FdTable {
    var fds: seq<Option<nat>>
    var files: seq<OpenFile>

    ghost predicate Valid()
      reads this
    {
      TableOk(fds, files)
    }

    constructor ()
      ensures Valid() && forall i :: 0 <= i < |fds| ==> fds[i].None?
    {
      fds := seq(MAX_FDS, _ => None);
      files := seq(MAX_OPEN, _ => CLOSED);
      new;
      forall j | 0 <= j < MAX_OPEN ensures Count(fds, j) == 0 {
        CountNone(fds, j);
      }
    }

    function Fd(fd: int): (r: Option<nat>)
      reads this
    {
      if 0 <= fd < |fds| then fds[fd] else None
    }

    /** Takes the first free open-file slot, still without a reference. */
    method Allocate(kind: FileType, path: string, append: bool) returns (slot: Option<nat>)
      requires Valid()
      modifies this`files
      ensures slot == FreeSlot(old(files), 0)
      ensures files == if slot.Some? then old(files)[slot.value := OpenFile(true, 0, kind, path, 0, append)]
        else old(files)
    {
      for j := 0 to |files|
        invariant files == old(files) && FreeSlot(files, 0) == FreeSlot(files, j)
      {
        if !files[j].inUse {
          files := files[j := OpenFile(true, 0, kind, path, 0, append)];
          return Some(j);
        }
      }
      slot := None;
    }

    /** Closes a descriptor; the file goes when its last name does. */
    method CloseSlot(fd: nat)
      requires Valid() && fd < |fds|
      modifies this
      ensures Valid() && fds == old(fds)[fd := None] && files == Dropped(old(files), old(fds)[fd])
      ensures forall k :: 0 <= k < |fds| && k != fd ==> Show(fds, files, k) == old(Show(fds, files, k))
    {
      CloseKeeps(fds, files, fd);
      forall k | 0 <= k < |fds| && k != fd
        ensures Show(fds[fd := None], Dropped(files, fds[fd]), k) == Show(fds, files, k) {
        CloseShows(fds, files, fd, k);
      }
      if fds[fd].Some? {
        NamedInUse(fds, files, fd);
        var j := fds[fd].value;
        var f := files[j];
        if f.inUse && f.refs > 0 {
          files := files[j := f.(refs := f.refs - 1)];
          if files[j].refs == 0 {
            files := files[j := CLOSED];
          }
        }
      }
      fds := fds[fd := None];
    }

    /** Opens a file at the lowest free descriptor from 3 on. `ready` is the file system's answer, `size` its idea of
        the size for appending. */
    method Open(path: string, tty: bool, append: bool, ready: bool, size: Option<nat>) returns (fd: Option<nat>)
      requires Valid()
      modifies this
      ensures Valid()
      ensures fd.Some? ==
                (ready && FreeSlot(old(files), 0).Some? && FreeFd(old(fds), FIRST_FD).Some?
                 && (!tty && append ==> size.Some?))
      ensures fd.None? ==> fds == old(fds) && files == old(files)
      ensures fd.Some? ==>
                && fd == FreeFd(old(fds), FIRST_FD) && fds == old(fds)[fd.value := FreeSlot(old(files), 0)]
                && Show(fds, files, fd.value)
                   == Some(Shown(if tty then Tty else Vfs, path, if !tty && append then size.value else 0,
                                 !tty && append))
                && (forall k :: 0 <= k < |fds| && k != fd.value ==> Show(fds, files, k) == old(Show(fds, files, k)))
    {
      hide TableOk, CountsOk;
      fd := None;
      if !ready {
        return;
      }
      var wantsEnd := !tty && append;
      var slot := Allocate(if tty then Tty else Vfs, path, wantsEnd);
      if slot.None? {
        return;
      }
      var j := slot.value;
      SlotUnnamed(fds, old(files), j);
      if wantsEnd && size.None? {
        files := files[j := CLOSED];
        assert files == old(files);
        return;
      }
      if wantsEnd {
        files := files[j := files[j].(offset := size.value)];
      }
      assert files == old(files)[j := files[j]];
      fd := NameNew(j, old(files));
    }

    /** Gives a newly taken slot its descriptor, or gives the slot back; `was` is the table from before. */
    method NameNew(j: nat, ghost was: seq<OpenFile>) returns (fd: Option<nat>)
      requires TableOk(fds, was) && j < |was| == |files| && was[j] == CLOSED && files == was[j := files[j]]
      requires files[j].inUse && files[j].refs == 0
      requires forall i :: 0 <= i < |fds| ==> fds[i] != Some(j)
      modifies this
      ensures Valid() && fd == FreeFd(old(fds), FIRST_FD)
      ensures fd.None? ==> fds == old(fds) && files == was
      ensures fd.Some? ==>
                fds == old(fds)[fd.value := Some(j)] && Show(fds, files, fd.value) == Some(ShowFile(old(files)[j]))
                           && forall k :: 0 <= k < |fds| && k != fd.value ==>
                                Show(fds, files, k) == Show(old(fds), was, k)
    {
      TableSizes(fds, was);
      hide TableOk, CountsOk;
      ghost var f := files[j];
      fd := FindFd();
      if fd.None? {
        files := files[j := CLOSED];
        assert files == was;
        return;
      }
      NameKeeps(fds, was, fd.value, j, f);
      fds := fds[fd.value := Some(j)];
      files := files[j := files[j].(refs := files[j].refs + 1)];
      assert files == was[j := f.(refs := f.refs + 1)];
    }

    /** The lowest unused descriptor from 3 on. */
    method FindFd() returns (fd: Option<nat>)
      requires FIRST_FD <= |fds|
      ensures fd == FreeFd(fds, FIRST_FD)
    {
      for i := FIRST_FD to |fds|
        invariant FreeFd(fds, FIRST_FD) == FreeFd(fds, i)
      {
        if fds[i].None? {
          return Some(i);
        }
      }
      fd := None;
    }

    method Close(fd: int) returns (ok: bool)
      requires Valid()
      modifies this
      ensures Valid() && ok == old(Fd(fd)).Some?
      ensures !ok ==> fds == old(fds) && files == old(files)
      ensures ok ==> fds == old(fds)[fd := None]
                     && forall k :: 0 <= k < |fds| && k != fd ==> Show(fds, files, k) == old(Show(fds, files, k))
    {
      if fd < 0 || fd >= |fds| || fds[fd].None? {
        return false;
      }
      CloseSlot(fd);
      ok := true;
    }

    /** Whether a descriptor stands for the terminal, by default or by name. */
    method IsTty(fd: int) returns (r: bool)
      requires Valid()
      ensures r == (0 <= fd < |fds| && (if fds[fd].None? then fd <= 2 else files[fds[fd].value].kind == Tty))
    {
      if fd < 0 || fd >= |fds| {
        return false;
      }
      if fds[fd].None? {
        return fd <= 2;
      }
      NamedInUse(fds, files, fd);
      r := files[fds[fd].value].kind == Tty;
    }

    /** Makes `to` another name of the file behind `from`; an unused standard descriptor gets a terminal file first.
        The file behind `from` survives even when `to` was another name of it. */
    method Dup2(from: int, to: int) returns (r: Option<int>)
      requires Valid()
      modifies this
      ensures Valid() && (r.Some? ==> r.value == to)
      ensures r.Some? == (0 <= from < |old(fds)| && 0 <= to < |old(fds)|
                          && (old(Fd(from)).Some? || (from <= 2 && (from == to || FreeSlot(old(files), 0).Some?))))
      ensures r.None? || from == to ==> fds == old(fds) && files == old(files)
      ensures r.Some? && from != to ==>
                && fds == old(fds)[to := if old(Fd(from)).Some? then old(Fd(from)) else FreeSlot(old(files), 0)]
                && Show(fds, files, to) ==
                     (if old(Fd(from)).Some? then old(Show(fds, files, from))
                        else Some(Shown(Tty, "/dev/tty", 0, false)))
                && (forall k :: 0 <= k < |fds| && k != to ==> Show(fds, files, k) == old(Show(fds, files, k)))
    {
      r := None;
      if from < 0 || from >= |fds| || to < 0 || to >= |fds| {
        return;
      }
      if from == to {
        if fds[from].Some? || from <= 2 {
          r := Some(to);
        }
        return;
      }
      ghost var fds0, files0 := fds, files;
      if fds[from].None? {
        if from > 2 {
          return;
        }
        r := DupTerminal(to);
        return;
      }
      NamedInUse(fds, files, from);
      var j := fds[from].value;
      CloseSlot(to);
      DupAlive(fds0, files0, from, to);
      NameKeeps(fds, files, to, j, files[j]);
      hide TableOk;
      fds := fds[to := Some(j)];
      files := files[j := files[j].(refs := files[j].refs + 1)];
      r := Some(to);
    }

    /** The part of `Dup2` for an unused standard descriptor. */
    method DupTerminal(to: nat) returns (r: Option<int>)
      requires Valid() && to < |fds|
      modifies this
      ensures Valid() && (r.Some? ==> r.value == to) && r.Some? == FreeSlot(old(files), 0).Some?
      ensures r.None? ==> fds == old(fds) && files == old(files)
      ensures r.Some? ==>
                && fds == old(fds)[to := FreeSlot(old(files), 0)]
                   && Show(fds, files, to) == Some(Shown(Tty, "/dev/tty", 0, false))
                && (forall k :: 0 <= k < |fds| && k != to ==> Show(fds, files, k) == old(Show(fds, files, k)))
    {
      var slot := FindSlot();
      if slot.None? {
        return None;
      }
      var j := slot.value;
      SlotUnnamed(fds, files, j);
      CloseSlot(to);
      assert files[j] == CLOSED;
      NameKeeps(fds, files, to, j, OpenFile(true, 0, Tty, "/dev/tty", 0, false));
      hide TableOk;
      files := files[j := OpenFile(true, 1, Tty, "/dev/tty", 0, false)];
      fds := fds[to := Some(j)];
      r := Some(to);
    }

    method FindSlot() returns (slot: Option<nat>)
      ensures slot == FreeSlot(files, 0)
    {
      for j := 0 to |files|
        invariant FreeSlot(files, 0) == FreeSlot(files, j)
      {
        if !files[j].inUse {
          return Some(j);
        }
      }
      slot := None;
    }

    /** Reads from the shared position and moves it; `contents` is what the file system holds. */
    method Read(fd: int, len: nat, contents: map<string, seq<Byte>>) returns (out: Option<seq<Byte>>)
      requires Valid()
      modifies this`files
      ensures Valid()
      ensures out.Some? ==
                (old(Fd(fd)).Some? && var f := old(files)[old(Fd(fd)).value]; f.kind == Vfs && f.path in contents)
      ensures out.None? ==> files == old(files)
      ensures out.Some? ==>
                var j := old(Fd(fd)).value; var f := old(files)[j];
                && out.value == Slice(contents[f.path], f.offset, len)
                && (f.offset <= |contents[f.path]| ==>
                      && f.offset + |out.value| <= |contents[f.path]|
                      && out.value == contents[f.path][f.offset..f.offset + |out.value|])
                && files == old(files)[j := f.(offset := f.offset + |out.value|)]
    {
      out := None;
      if fd < 0 || fd >= |fds| || fds[fd].None? {
        return;
      }
      var j := fds[fd].value;
      var f := files[j];
      if f.kind != Vfs || f.path !in contents {
        return;
      }
      NamedInUse(fds, files, fd);
      OffsetKeeps(fds, files, j, f.offset + |Slice(contents[f.path], f.offset, len)|);
      out := Some(Slice(contents[f.path], f.offset, len));
      files := files[j := f.(offset := f.offset + |out.value|)];
    }

    /** Reads through any names of one file, in any order: together they deliver one consecutive slice. */
    method ReadAliases(names: seq<(int, nat)>, j: nat, contents: map<string, seq<Byte>>) returns (out: seq<Byte>)
      requires Valid() && j < |files| && files[j].kind == Vfs && files[j].path in contents
      requires forall k :: 0 <= k < |names| ==> Fd(names[k].0) == Some(j)
      modifies this`files
      ensures Valid()
      ensures var c, from := contents[old(files)[j].path], old(files)[j].offset;
              if from <= |c| then from + |out| <= |c| && out == c[from..from + |out|] else out == []
      ensures var c, from := contents[old(files)[j].path], old(files)[j].offset;
              from <= |c| ==> |out| == if Asked(names, |names|) < |c| - from then Asked(names, |names|) else |c| - from
      ensures files == old(files)[j := old(files)[j].(offset := old(files)[j].offset + |out|)]
    {
      hide TableOk, Slice;
      out := [];
      ghost var f := files[j];
      SliceNone(contents[f.path], f.offset);
      for k := 0 to |names|
        invariant Valid() && |files| == |old(files)| && files == old(files)[j := f.(offset := f.offset + |out|)]
        invariant out == Slice(contents[f.path], f.offset, |out|)
        invariant |out| == |Slice(contents[f.path], f.offset, Asked(names, k))|
        invariant forall i :: 0 <= i < |names| ==> Fd(names[i].0) == Some(j)
      {
        var part := Read(names[k].0, names[k].1, contents);
        SlicesJoin(contents[f.path], f.offset, |out|, names[k].1);
        SliceLengths(contents[f.path], f.offset, Asked(names, k), names[k].1);
        out := out + part.value;
      }
    }

    /** Writes at the shared position, or at the end when appending; the file system answers `size` and `written`. */
    method Write(fd: int, size: Option<nat>, written: Option<nat>) returns (r: Option<nat>)
      requires Valid()
      modifies this`files
      ensures Valid()
      ensures r.Some? == (old(Fd(fd)).Some? && var f := old(files)[old(Fd(fd)).value];
                          f.kind == Vfs && (f.append ==> size.Some?) && written.Some?)
      ensures r.None? ==> files == old(files)
      ensures r.Some? ==>
                var j := old(Fd(fd)).value; var f := old(files)[j];
                && r == written
                && files == old(files)[j := f.(offset := (if f.append then size.value else f.offset) + written.value)]
    {
      r := None;
      if fd < 0 || fd >= |fds| || fds[fd].None? {
        return;
      }
      var j := fds[fd].value;
      var f := files[j];
      if f.kind != Vfs || (f.append && size.None?) || written.None? {
        return;
      }
      NamedInUse(fds, files, fd);
      var at := if f.append then size.value else f.offset;
      OffsetKeeps(fds, files, j, at + written.value);
      files := files[j := f.(offset := at + written.value)];
      r := written;
    }

    /** Moves the shared position of a file; a refused seek changes nothing. */
    method Seek(fd: int, delta: int, whence: Whence, size: Option<nat>) returns (r: Option<nat>)
      requires Valid()
      modifies this`files
      ensures Valid()
      ensures old(Fd(fd)).None? ==> r.None?
      ensures r.None? ==> files == old(files)
      ensures old(Fd(fd)).Some? ==>
                var j := old(Fd(fd)).value; var f := old(files)[j];
                && r == (if f.kind != Vfs then None
                         else match whence
                           case Set => Sought(0, delta)
                           case Cur => Sought(f.offset, delta)
                           case End => (if size.None? then None else Sought(size.value, delta))
                           case Invalid => None)
                && (r.Some? ==> files == old(files)[j := f.(offset := r.value)])
    {
      r := None;
      if fd < 0 || fd >= |fds| || fds[fd].None? {
        return;
      }
      var j := fds[fd].value;
      var f := files[j];
      if f.kind != Vfs {
        return;
      }
      NamedInUse(fds, files, fd);
      var base;
      match whence {
        case Set => base := 0;
        case Cur => base := f.offset;
        case End =>
          if size.None? {
            return;
          }
          base := size.value;
        case Invalid => return;
      }
      r := Sought(base, delta);
      if r.Some? {
        OffsetKeeps(fds, files, j, r.value);
        files := files[j := f.(offset := r.value)];
      }
    }
  }

  /** Moving the position of a file in use. */
  lemma OffsetKeeps(fds: seq<Option<nat>>, files: seq<OpenFile>, j: nat, offset: nat)
    requires TableOk(fds, files) && j < |files| && files[j].inUse
    ensures TableOk(fds, files[j := files[j].(offset := offset)])
  {
  }

  /** Closing the target of a duplication leaves the source's file in use, also when both named the same one. */
  lemma DupAlive(fds: seq<Option<nat>>, files: seq<OpenFile>, from: nat, to: nat)
    requires TableOk(fds, files) && from < |fds| && to < |fds| && from != to && fds[from].Some?
    ensures var j, files' := fds[from].value, Dropped(files, fds[to]);
            j < |files'| && files'[j].inUse && ShowFile(files'[j]) == ShowFile(files[j])
  {
    NamedInUse(fds, files, from);
    if fds[to] == fds[from] { SharedTwice(fds, files, to, from); }
    hide CountsOk;
  }

  lemma {:induction false} CountNone(fds: seq<Option<nat>>, j: nat)
    requires forall i :: 0 <= i < |fds| ==> fds[i].None?
    ensures Count(fds, j) == 0
  {
    if fds != [] { CountNone(fds[..|fds| - 1], j); }
  }

  lemma TableSizes(fds: seq<Option<nat>>, files: seq<OpenFile>)
    requires TableOk(fds, files)
    ensures |fds| == MAX_FDS && |files| == MAX_OPEN
  {
  }

  /** A free slot is named by no descriptor and holds nothing. */
  lemma SlotUnnamed(fds: seq<Option<nat>>, files: seq<OpenFile>, j: nat)
    requires TableOk(fds, files) && j < |files| && !files[j].inUse
    ensures files[j] == CLOSED && forall i :: 0 <= i < |fds| ==> fds[i] != Some(j)
  {
    forall i | 0 <= i < |fds| ensures fds[i] != Some(j) {
      if fds[i] == Some(j) { NamedInUse(fds, files, i); }
    }
  }
}
