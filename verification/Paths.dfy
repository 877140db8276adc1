/** File names the write path accepts, and the split of a path into parent and name. */
module Paths {
  import opened Options

  const NAME_MAX: nat := 64

  // ---------- 8.3 names ----------

  predicate NameCharValid(c: char) {
    'A' <= c <= 'Z' || '0' <= c <= '9' || c == '_'
  }

  predicate Plain(s: string) {
    forall i :: 0 <= i < |s| ==> NameCharValid(s[i])
  }

  /** One to eight base characters, optionally followed by a dot and one to three more. */
  ghost predicate ShortName(s: string) {
    || (1 <= |s| <= 8 && Plain(s))
    || (exists d :: DotAt(s, d) && 1 <= d <= 8 && 1 <= |s| - d - 1 <= 3)
  }

  /** The only dot of `s` is at `d`, and everything else is a plain character. */
  ghost predicate DotAt(s: string, d: int) {
    0 <= d < |s| && s[d] == '.' && forall i :: 0 <= i < |s| && i != d ==> NameCharValid(s[i])
  }

  lemma ShortNameShape(s: string)
    requires ShortName(s)
    ensures 1 <= |s| <= 12
    ensures forall i :: 0 <= i < |s| ==> 32 <= s[i] as int < 127 && s[i] != '/'
  {
  }

  /** The text read so far and the counters the scanner keeps about it. */
  ghost predicate Scanned(s: string, base: nat, ext: nat, seenDot: bool) {
    && base <= 8 && ext <= 3
    && if seenDot then 1 <= base && |s| == base + 1 + ext && DotAt(s, base)
       else |s| == base && ext == 0 && Plain(s)
  }

  lemma ScannedDecides(s: string, base: nat, ext: nat, seenDot: bool)
    requires Scanned(s, base, ext, seenDot)
    ensures ShortName(s) == !(base == 0 || (seenDot && ext == 0))
  {
    if seenDot {
      assert !NameCharValid(s[base]);
      assert forall d :: DotAt(s, d) ==> d == base;
    }
  }

  /** Whether the scanner accepts `c` next. */
  predicate Extends(base: nat, ext: nat, seenDot: bool, c: char) {
    if c == '.' then !seenDot && base > 0
    else NameCharValid(c) && (if seenDot then ext < 3 else base < 8)
  }

  lemma ExtendScan(s: string, base: nat, ext: nat, seenDot: bool, c: char)
    requires Scanned(s, base, ext, seenDot) && Extends(base, ext, seenDot, c)
    ensures if c == '.' then Scanned(s + [c], base, ext, true)
            else if seenDot then Scanned(s + [c], base, ext + 1, seenDot)
            else Scanned(s + [c], base + 1, ext, seenDot)
  {
  }

  /** A character that stops the scanner cannot be part of any short name with this prefix. */
  lemma StuckScan(s: string, base: nat, ext: nat, seenDot: bool, c: char, rest: string)
    requires Scanned(s, base, ext, seenDot) && !Extends(base, ext, seenDot, c)
    ensures !ShortName(s + [c] + rest)
  {
    var t := s + [c] + rest;
    assert t[|s|] == c && t[..|s|] == s;
    assert forall i :: 0 <= i < |s| ==> t[i] == s[i];
    if seenDot {
      assert !NameCharValid(t[base]);
      assert forall d :: DotAt(t, d) ==> d == base;
    } else {
      assert forall d :: DotAt(t, d) ==> d >= |s|;
      assert forall d :: DotAt(t, d) ==> d == |s| || NameCharValid(c);
    }
  }

  method ParseShortName(path: string) returns (ok: bool, name: string)
    ensures ok == (path != "" && path[0] == '/' && ShortName(path[1..]))
    ensures ok ==> name == path[1..]
  {
    hide ShortName, Scanned;
    name := "";
    if path == "" || path[0] != '/' {
      return false, name;
    }
    var base, ext, seenDot, i := 0, 0, false, 1;
    ScannedEmpty();
    while i < |path|
      invariant 1 <= i <= |path| && name == path[1..i]
      invariant Scanned(name, base, ext, seenDot)
    {
      var c := path[i];
      if !Extends(base, ext, seenDot, c) {
        StuckScan(name, base, ext, seenDot, c, path[i + 1..]);
        assert name + [c] + path[i + 1..] == path[1..];
        return false, name;
      }
      ExtendScan(name, base, ext, seenDot, c);
      if c == '.' {
        seenDot := true;
      } else if seenDot {
        ext := ext + 1;
      } else {
        base := base + 1;
      }
      name := name + [c];
      i := i + 1;
    }
    assert path[1..i] == path[1..];
    ScannedDecides(name, base, ext, seenDot);
    ok := !(base == 0 || (seenDot && ext == 0));
  }

  lemma ScannedEmpty()
    ensures Scanned("", 0, 0, false)
  {
  }

  // ---------- parent and name of a path ----------

  /** The position of the last slash before `n`, not counting a leading one; 0 when there is none. */
  function LastSlash(path: string, n: nat): (i: nat)
    requires n <= |path|
    ensures i < n || i == 0
    ensures i > 0 ==> path[i] == '/'
    ensures forall k :: i < k < n ==> path[k] != '/'
  {
    if n <= 1 then 0 else if path[n - 1] == '/' then n - 1 else LastSlash(path, n - 1)
  }

  function Limited(s: string): string {
    if |s| < NAME_MAX then s else s[..NAME_MAX - 1]
  }

  /** The parent directory and the name under which a path is looked up. */
  function PathKey(path: string): Option<(string, string)> {
    if path == "" || path[0] != '/' then None
    else
      var slash := LastSlash(path, |path|);
      if slash + 1 >= NAME_MAX then None
      else
        var parent := if slash == 0 then "/" else path[..slash];
        var name := Limited(path[slash + 1..]);
        if name == "" then None else Some((parent, name))
  }

  method SplitPath(path: string) returns (key: Option<(string, string)>)
    ensures key == PathKey(path)
  {
    if path == "" || path[0] != '/' {
      return None;
    }
    var slash := 0;
    var i := 1;
    while i < |path|
      invariant 1 <= i <= |path| && slash == LastSlash(path, i)
    {
      if path[i] == '/' {
        slash := i;
      }
      i := i + 1;
    }
    if slash + 1 >= NAME_MAX {
      return None;
    }
    var name := Limited(path[slash + 1..]);
    if name == "" {
      return None;
    }
    key := Some((if slash == 0 then "/" else path[..slash], name));
  }

  predicate NoSlash(s: string) {
    forall i :: 0 <= i < |s| ==> s[i] != '/'
  }

  /** How every path that starts with a slash is split: what comes before its last slash is the parent, the root if that
      is empty, and what comes after it the name, cut to the length of the name buffer. Paths without a name and parents
      that do not fit their buffer are refused, and so is everything that does not start with a slash. */
  lemma KeySplits(parent: string, name: string)
    requires (parent == "" || parent[0] == '/') && NoSlash(name)
    ensures PathKey(parent + "/" + name)
         == if name == "" || |parent| + 1 >= NAME_MAX then None
            else Some((if parent == "" then "/" else parent, if |name| < NAME_MAX then name else name[..NAME_MAX - 1]))
    ensures PathKey(name) == None
  {
    var path := parent + "/" + name;
    assert path[|parent|] == '/' && path[..|parent|] == parent && path[|parent| + 1..] == name;
    var slash := LastSlash(path, |path|);
    assert forall k :: |parent| < k < |path| ==> path[k] == name[k - |parent| - 1];
    SlashUnique(path, |parent|);
  }

  lemma SlashUnique(path: string, at: nat)
    requires at < |path| && path[at] == '/' && forall k :: at < k < |path| ==> path[k] != '/'
    ensures LastSlash(path, |path|) == at
  {
    var slash := LastSlash(path, |path|);
    assert !(slash < at);
  }

  /** Every path that starts with a slash has that form. */
  lemma Split(path: string) returns (parent: string, name: string)
    requires path != "" && path[0] == '/'
    ensures path == parent + "/" + name && (parent == "" || parent[0] == '/') && NoSlash(name)
  {
    var slash := LastSlash(path, |path|);
    parent, name := path[..slash], path[slash + 1..];
    assert path == path[..slash] + [path[slash]] + path[slash + 1..];
  }

  /** The paths that name a file of the root directory. */
  lemma RootKey(path: string, name: string)
    requires ShortName(name)
    ensures PathKey(path) == Some(("/", name)) <==> path == "/" + name || path == "//" + name
  {
    ShortNameShape(name);
    hide ShortName, PathKey;
    RootPaths(name);
    if PathKey(path) == Some(("/", name)) { OnlyRootPaths(path, name); }
  }

  lemma OnlyRootPaths(path: string, name: string)
    requires PathKey(path) == Some(("/", name)) && |name| <= 12
    ensures path == "/" + name || path == "//" + name
  {
    KeyStarts(path);
    hide PathKey;
    var parent, n := Split(path);
    KeySplits(parent, n);
    assert parent == "" || parent == "/";
    assert n == name;
    assert "" + "/" + name == "/" + name && "/" + "/" + name == "//" + name;
  }

  lemma KeyStarts(path: string)
    requires PathKey(path).Some?
    ensures path != "" && path[0] == '/'
  {
    hide LastSlash;
  }

  lemma RootPaths(name: string)
    requires 1 <= |name| <= 12 && NoSlash(name)
    ensures PathKey("/" + name) == Some(("/", name)) && PathKey("//" + name) == Some(("/", name))
  {
    KeySplits("", name);
    KeySplits("/", name);
    hide PathKey;
    assert "" + "/" + name == "/" + name && "/" + "/" + name == "//" + name;
  }

  lemma ShortPathKey(path: string)
    requires path != "" && path[0] == '/' && ShortName(path[1..])
    ensures PathKey(path) == Some(("/", path[1..]))
  {
    ShortNameShape(path[1..]);
    assert forall k :: 1 <= k < |path| ==> path[k] == path[1..][k - 1];
  }
}
