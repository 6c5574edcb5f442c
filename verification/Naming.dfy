/** Where objects, locks and temporary files live, and that none of these names collide. */
module Naming {
  import opened Prelude
  import opened Bytes

  /** Text whose every character stands for one byte of its encoding. */
  type Text = s: string | forall c <- s :: c as int < 256

  predicate IsPathSegment(s: Text) {
    s != "" && s != "." && s != ".." && '/' !in s
  }

  /** Locations are non-empty, do not start with a slash and contain no two slashes in a row. */
  predicate IsLocation(s: Text) {
    s != "" && s[0] != '/' && forall i :: 0 <= i < |s| - 1 ==> !(s[i] == '/' && s[i + 1] == '/')
  }

  function StructureText(space: Text, kind: Text, name: Text): Text {
    space + "/" + (kind + "/" + (name + ".json"))
  }

  function Structure(space: Text, kind: Text, name: Text): Option<Text> {
    if !(IsPathSegment(space) && IsPathSegment(kind) && IsPathSegment(name)) then None
    else if !IsLocation(StructureText(space, kind, name)) then None
    else Some(StructureText(space, kind, name))
  }

  function ObjectPath(root: Text, location: Text): Text {
    root + "/" + location
  }

  function TextBytes(s: Text): (bs: seq<byte>)
    ensures |bs| == |s| && forall i :: 0 <= i < |s| ==> bs[i] == s[i] as int
  {
    if s == "" then [] else [s[0] as int] + TextBytes(s[1..])
  }

  function LockPath(root: Text, location: Text): string {
    root + "/" + (".objsds-locks/" + (Hex(TextBytes(location)) + ".lock"))
  }

  /** The temporary file a publication in the directory of `space` and `kind` writes first. */
  function TemporaryPath(root: Text, space: Text, kind: Text, u: Uuid): string {
    root + "/" + (space + "/" + (kind + "/" + (".objsds-" + UuidText(u) + ".tmp")))
  }

  // --- Taking texts apart ---

  lemma {:induction false} SplitAtSlash(a: string, x: string, b: string, y: string)
    requires '/' !in a && '/' !in b && a + "/" + x == b + "/" + y
    ensures a == b && x == y
  {
    var s, t := a + "/" + x, b + "/" + y;
    assert s[|a|] == '/' && t[|b|] == '/';
    assert forall i :: 0 <= i < |a| ==> s[i] == a[i];
    assert forall i :: 0 <= i < |b| ==> t[i] == b[i];
    assert |a| == |b|;
    assert a == s[..|a|] && b == t[..|b|];
    assert x == s[|a| + 1..] && y == t[|b| + 1..];
  }

  lemma {:induction false} CancelFront(a: string, x: string, y: string)
    requires a + x == a + y
    ensures x == y
  {
    assert x == (a + x)[|a|..] && y == (a + y)[|a|..];
  }

  lemma {:induction false} CancelBack(x: string, y: string, z: string)
    requires x + z == y + z
    ensures x == y
  {
    assert |x| == |y|;
    assert x == (x + z)[..|x|] && y == (y + z)[..|y|];
  }

  // --- Paths and their components ---

  /** The components between slashes. */
  function Split(s: string): (parts: seq<string>)
    ensures parts != []
  {
    if s == "" then [""]
    else if s[0] == '/' then [""] + Split(s[1..])
    else [[s[0]] + Split(s[1..])[0]] + Split(s[1..])[1..]
  }

  /** Where a path leads from a directory: empty components and dots stay, two dots go up, which stops at the
      top. */
  function Resolve(parts: seq<string>): seq<string> {
    if parts == [] then []
    else
      var before, last := Resolve(parts[..|parts| - 1]), parts[|parts| - 1];
      if last == "" || last == "." then before
      else if last == ".." then (if before == [] then [] else before[..|before| - 1])
      else before + [last]
  }

  /** The path of the directory that holds the file. */
  function DirectoryOf(path: string): string {
    if path == "" then ""
    else if path[|path| - 1] == '/' then path[..|path| - 1]
    else DirectoryOf(path[..|path| - 1])
  }

  lemma {:induction false} DirectoryOfFile(directory: string, file: string)
    requires '/' !in file
    ensures DirectoryOf(directory + "/" + file) == directory
  {
    var path := directory + "/" + file;
    if file == "" {
      assert path[..|path| - 1] == directory;
    } else {
      assert path[..|path| - 1] == directory + "/" + file[..|file| - 1];
      DirectoryOfFile(directory, file[..|file| - 1]);
    }
  }

  lemma {:induction false} SplitWhole(s: string)
    ensures '/' !in s <==> |Split(s)| == 1
    ensures '/' !in s ==> Split(s) == [s]
    ensures forall part <- Split(s) :: '/' !in part
  {
    if s != "" {
      SplitWhole(s[1..]);
      assert s == [s[0]] + s[1..];
      assert s[0] != '/' ==> Split(s)[0] == [s[0]] + Split(s[1..])[0];
    }
  }

  lemma {:induction false} SplitJoined(a: string, b: string)
    requires '/' !in a
    ensures Split(a + "/" + b) == [a] + Split(b)
  {
    var s := a + "/" + b;
    if a == "" {
      assert s[1..] == b;
    } else {
      assert s[1..] == a[1..] + "/" + b && s[0] == a[0];
      SplitJoined(a[1..], b);
      assert [a[0]] + a[1..] == a && ([a[1..]] + Split(b))[1..] == Split(b);
    }
  }

  /** A segment is valid exactly if, as a path, it leads to the entry of that name. */
  lemma {:induction false} SegmentIffResolves(s: Text)
    ensures IsPathSegment(s) <==> Resolve(Split(s)) == [s]
  {
    SplitWhole(s);
    if '/' !in s {
      assert Split(s)[..0] == [];
    } else {
      ResolvedAreParts(Split(s));
    }
  }

  lemma {:induction false} ResolvedAreParts(parts: seq<string>)
    ensures forall part <- Resolve(parts) :: part in parts
  {
    if parts != [] { ResolvedAreParts(parts[..|parts| - 1]); }
  }

  /** A text is a location exactly if it is not empty and only its last component may be. */
  lemma {:induction false} LocationIffParts(s: Text)
    ensures IsLocation(s) <==> s != "" && forall i :: 0 <= i < |Split(s)| - 1 ==> Split(s)[i] != ""
  {
    InnerParts(s);
    if s != "" { FirstPart(s); }
  }

  lemma {:induction false} FirstPart(s: string)
    requires s != ""
    ensures Split(s)[0] == "" <==> s[0] == '/'
    ensures s[0] == '/' ==> |Split(s)| > 1
  {
  }

  /** No component but the first and the last is empty exactly if no two slashes stand together. */
  lemma {:induction false} InnerParts(s: string)
    ensures (forall i :: 1 <= i < |Split(s)| - 1 ==> Split(s)[i] != "")
       <==> forall i :: 0 <= i < |s| - 1 ==> !(s[i] == '/' && s[i + 1] == '/')
  {
    if s != "" {
      var t := s[1..];
      InnerParts(t);
      DoubleSlash(s);
      if t != "" { FirstPart(t); }
      var inner, parts := Split(s), Split(t);
      if s[0] == '/' {
        assert inner == [""] + parts;
        assert forall i :: 1 <= i < |inner| ==> inner[i] == parts[i - 1];
        assert forall i :: 0 <= i < |parts| ==> parts[i] == inner[i + 1];
      } else {
        assert |inner| == |parts|;
        assert forall i :: 1 <= i < |inner| ==> inner[i] == parts[i];
      }
    }
  }

  lemma {:induction false} DoubleSlash(s: string)
    requires s != ""
    ensures (forall i :: 0 <= i < |s| - 1 ==> !(s[i] == '/' && s[i + 1] == '/'))
       <==> && (forall i :: 0 <= i < |s[1..]| - 1 ==> !(s[1..][i] == '/' && s[1..][i + 1] == '/'))
            && !(|s| > 1 && s[0] == '/' && s[1] == '/')
  {
    var t := s[1..];
    assert forall i :: 0 <= i < |t| ==> t[i] == s[i + 1];
    assert forall i :: 1 <= i < |s| ==> s[i] == t[i - 1];
    if forall i :: 0 <= i < |t| - 1 ==> !(t[i] == '/' && t[i + 1] == '/') {
      forall i | 1 <= i < |s| - 1 ensures !(s[i] == '/' && s[i + 1] == '/') {
        assert !(t[i - 1] == '/' && t[i - 1 + 1] == '/');
      }
    }
    if forall i :: 0 <= i < |s| - 1 ==> !(s[i] == '/' && s[i + 1] == '/') {
      forall i | 0 <= i < |t| - 1 ensures !(t[i] == '/' && t[i + 1] == '/') {
        assert !(s[i + 1] == '/' && s[i + 1 + 1] == '/');
      }
    }
  }

  // --- Locations ---

  /** Valid segments always make a location, and only valid segments do. */
  lemma {:induction false} StructureIffSegments(space: Text, kind: Text, name: Text)
    ensures Structure(space, kind, name)
         == if IsPathSegment(space) && IsPathSegment(kind) && IsPathSegment(name)
            then Some(StructureText(space, kind, name)) else None
  {
    if IsPathSegment(space) && IsPathSegment(kind) && IsPathSegment(name) {
      var t := StructureText(space, kind, name);
      var m := |space| + 1 + |kind|;
      assert forall i :: 0 <= i < |t| ==>
                           t[i] == if i < |space| then space[i] else if i == |space| then '/'
                                   else if i < m then kind[i - |space| - 1] else if i == m then '/'
                                   else (name + ".json")[i - m - 1];
      assert forall i :: 0 <= i < |t| ==> (t[i] == '/' <==> i == |space| || i == m);
    }
  }

  /** Different structures have different locations. */
  lemma {:induction false} StructureIsInjective(s: Text, k: Text, n: Text, s': Text, k': Text, n': Text)
    requires Structure(s, k, n).Some? && Structure(s', k', n') == Structure(s, k, n)
    ensures s == s' && k == k' && n == n'
  {
    SplitAtSlash(s, k + "/" + (n + ".json"), s', k' + "/" + (n' + ".json"));
    SplitAtSlash(k, n + ".json", k', n' + ".json");
    CancelBack(n, n', ".json");
  }

  // --- Files ---

  lemma {:induction false} TextBytesIsInjective(a: Text, b: Text)
    requires TextBytes(a) == TextBytes(b)
    ensures a == b
  {
    forall i | 0 <= i < |a| ensures a[i] == b[i] {
      assert a[i] as int == TextBytes(a)[i] == b[i] as int;
    }
  }

  /** Different locations take different locks. */
  lemma {:induction false} LockPathIsInjective(root: Text, a: Text, b: Text)
    requires LockPath(root, a) == LockPath(root, b)
    ensures a == b
  {
    CancelFront(root + "/", ".objsds-locks/" + (Hex(TextBytes(a)) + ".lock"),
                ".objsds-locks/" + (Hex(TextBytes(b)) + ".lock"));
    CancelFront(".objsds-locks/", Hex(TextBytes(a)) + ".lock", Hex(TextBytes(b)) + ".lock");
    CancelBack(Hex(TextBytes(a)), Hex(TextBytes(b)), ".lock");
    HexIsInjective(TextBytes(a), TextBytes(b));
    TextBytesIsInjective(a, b);
  }

  /** Different structures have different files, hence every lock guards one file. */
  lemma {:induction false} ObjectPathIsInjective(root: Text, s: Text, k: Text, n: Text, s': Text, k': Text, n': Text)
    requires Structure(s, k, n).Some? && Structure(s', k', n').Some?
    ensures var a, b := Structure(s, k, n).value, Structure(s', k', n').value;
            && (ObjectPath(root, a) == ObjectPath(root, b) <==> a == b)
            && (ObjectPath(root, a) == ObjectPath(root, b) <==> s == s' && k == k' && n == n')
            && (ObjectPath(root, a) == ObjectPath(root, b) <==> LockPath(root, a) == LockPath(root, b))
  {
    var a, b := Structure(s, k, n).value, Structure(s', k', n').value;
    if ObjectPath(root, a) == ObjectPath(root, b) {
      CancelFront(root + "/", a, b);
      StructureIsInjective(s, k, n, s', k', n');
    }
    if LockPath(root, a) == LockPath(root, b) { LockPathIsInjective(root, a, b); }
  }

  /** The object and the temporary files of its publications lie in one directory, below the root by namespace and
      kind; locks lie in a directory of their own. */
  lemma {:induction false} Directories(root: Text, space: Text, kind: Text, name: Text, u: Uuid)
    requires Structure(space, kind, name).Some?
    ensures var directory := root + "/" + space + "/" + kind;
            && DirectoryOf(ObjectPath(root, Structure(space, kind, name).value)) == directory
            && DirectoryOf(TemporaryPath(root, space, kind, u)) == directory
    ensures DirectoryOf(LockPath(root, Structure(space, kind, name).value)) == root + "/.objsds-locks"
  {
    ObjectDirectory(root, space, kind, name);
    TemporaryDirectory(root, space, kind, u);
    LockDirectory(root, Structure(space, kind, name).value);
  }

  lemma {:induction false} ObjectDirectory(root: Text, space: Text, kind: Text, name: Text)
    requires Structure(space, kind, name).Some?
    ensures DirectoryOf(ObjectPath(root, Structure(space, kind, name).value)) == root + "/" + space + "/" + kind
  {
    var directory := root + "/" + space + "/" + kind;
    assert ObjectPath(root, Structure(space, kind, name).value) == directory + "/" + (name + ".json");
    DirectoryOfFile(directory, name + ".json");
  }

  lemma {:induction false} TemporaryDirectory(root: Text, space: Text, kind: Text, u: Uuid)
    ensures DirectoryOf(TemporaryPath(root, space, kind, u)) == root + "/" + space + "/" + kind
  {
    var directory, temporary := root + "/" + space + "/" + kind, ".objsds-" + UuidText(u) + ".tmp";
    assert TemporaryPath(root, space, kind, u) == directory + "/" + temporary;
    UuidTextHasNoSlash(u);
    DirectoryOfFile(directory, temporary);
  }

  lemma {:induction false} LockDirectory(root: Text, location: Text)
    ensures DirectoryOf(LockPath(root, location)) == root + "/.objsds-locks"
  {
    var lock := Hex(TextBytes(location)) + ".lock";
    assert LockPath(root, location) == root + "/.objsds-locks" + "/" + lock;
    DirectoryOfFile(root + "/.objsds-locks", lock);
  }

  lemma {:induction false} UuidTextHasNoSlash(u: Uuid)
    ensures '/' !in UuidText(u)
  {
    WordWidths();
    var h := Hex(BigEndian(u, 16));
    assert '/' !in HEX_DIGITS;
    assert forall i :: 0 <= i < |h| ==> h[i] in h;
  }

  /** The file of a structure has its name, and the path of its location, walked from the root, leads to it. */
  lemma {:induction false} LocationLeadsToFile(space: Text, kind: Text, name: Text)
    requires Structure(space, kind, name).Some?
    ensures Resolve(Split(Structure(space, kind, name).value)) == [space, kind, name + ".json"]
  {
    SplitJoined(space, kind + "/" + (name + ".json"));
    SplitJoined(kind, name + ".json");
    SplitWhole(name + ".json");
    var parts := Split(Structure(space, kind, name).value);
    assert parts == [space, kind, name + ".json"];
    ResolvesToItself(parts);
  }

  lemma {:induction false} ResolvesToItself(parts: seq<string>)
    requires forall part <- parts :: part != "" && part != "." && part != ".."
    ensures Resolve(parts) == parts
  {
    if parts != [] {
      var n := |parts| - 1;
      assert parts[n] in parts && forall part <- parts[..n] :: part in parts;
      ResolvesToItself(parts[..n]);
    }
  }

  /** The object file of a structure is never a lock file, of whatever location. */
  lemma {:induction false} ObjectsAreNotLocks(root: Text, space: Text, kind: Text, name: Text, other: Text)
    requires Structure(space, kind, name).Some?
    ensures ObjectPath(root, Structure(space, kind, name).value) != LockPath(root, other)
  {
    var lock := Hex(TextBytes(other)) + ".lock";
    var rest := kind + "/" + (name + ".json");
    assert rest[|kind|] == '/' && '/' !in lock;
    if ObjectPath(root, Structure(space, kind, name).value) == LockPath(root, other) {
      CancelFront(root + "/", space + "/" + rest, ".objsds-locks/" + lock);
      assert ".objsds-locks/" + lock == ".objsds-locks" + "/" + lock;
      SplitAtSlash(space, rest, ".objsds-locks", lock);
      assert false;
    }
  }

  /** Nor is it a temporary file of any publication. */
  lemma {:induction false} ObjectsAreNotTemporary(
    root: Text, space: Text, kind: Text, name: Text, s: Text, k: Text, u: Uuid)
    requires Structure(space, kind, name).Some?
    ensures ObjectPath(root, Structure(space, kind, name).value) != TemporaryPath(root, s, k, u)
  {
    var a := ObjectPath(root, Structure(space, kind, name).value);
    var b := TemporaryPath(root, s, k, u);
    assert a[|a| - 1] == 'n';
    assert b[|b| - 1] == 'p';
  }

  /** Publications with different identifiers, or for structures of different directories, use different
      temporary files. */
  lemma {:induction false} TemporaryIsInjective(root: Text, s: Text, k: Text, u: Uuid, s': Text, k': Text, v: Uuid)
    requires IsPathSegment(s) && IsPathSegment(k) && IsPathSegment(s') && IsPathSegment(k')
    requires TemporaryPath(root, s, k, u) == TemporaryPath(root, s', k', v)
    ensures u == v && s == s' && k == k'
  {
    var x, y := ".objsds-" + UuidText(u) + ".tmp", ".objsds-" + UuidText(v) + ".tmp";
    CancelFront(root + "/", s + "/" + (k + "/" + x), s' + "/" + (k' + "/" + y));
    SplitAtSlash(s, k + "/" + x, s', k' + "/" + y);
    SplitAtSlash(k, x, k', y);
    CancelBack(".objsds-" + UuidText(u), ".objsds-" + UuidText(v), ".tmp");
    CancelFront(".objsds-", UuidText(u), UuidText(v));
    UuidTextIsInjective(u, v);
  }
}
