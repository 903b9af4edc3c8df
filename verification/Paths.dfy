/** POSIX paths in the manner of `PurePosixPath`, the bytes of files, and ZIP archives. */
module Paths {
  import opened Wrappers
  import opened Text

  type Bytes = seq<bv8>

  // ---------------------------------------------------------------- paths

  predicate IsNamed(part: string) {
    part != "" && part != "."
  }

  function KeepNamed(parts: seq<string>): seq<string> {
    if parts == [] then []
    else (if IsNamed(parts[0]) then [parts[0]] else []) + KeepNamed(parts[1..])
  }

  /** The parts of a relative path: empty ones and single dots do not count. */
  function Components(path: string): seq<string> {
    KeepNamed(Split(path, '/'))
  }

  function AsPosix(parts: seq<string>): string {
    if parts == [] then "." else Join(parts, '/')
  }

  predicate IsAbsolute(path: string) {
    path != "" && path[0] == '/'
  }

  lemma {:induction false} JoinConcat(p: seq<string>, q: seq<string>, c: char)
    requires p != [] && q != []
    ensures Join(p + q, c) == Join(p, c) + [c] + Join(q, c)
  {
    if |p| == 1 {
      assert (p + q)[1..] == q;
    } else {
      assert (p + q)[1..] == p[1..] + q;
      JoinConcat(p[1..], q, c);
    }
  }

  lemma {:induction false} SplitHasNone(s: string, c: char)
    ensures forall p :: p in Split(s, c) ==> c !in p
    decreases |s|
  {
    if c in s { SplitHasNone(s[Find(s, c) + 1..], c); }
  }

  lemma {:induction false} SplitConcat(a: string, c: char, b: string)
    ensures Split(a + [c] + b, c) == Split(a, c) + Split(b, c)
  {
    JoinConcat(Split(a, c), Split(b, c), c);
    JoinOfSplit(a, c);
    JoinOfSplit(b, c);
    SplitHasNone(a, c);
    SplitHasNone(b, c);
    SplitOfJoin(Split(a, c) + Split(b, c), c);
  }

  lemma {:induction false} KeepConcat(a: seq<string>, b: seq<string>)
    ensures KeepNamed(a + b) == KeepNamed(a) + KeepNamed(b)
  {
    if a == [] {
      assert a + b == b;
    } else {
      assert (a + b)[1..] == a[1..] + b;
      KeepConcat(a[1..], b);
    }
  }

  /** The parts of a path lie between its slashes, and none is dropped but the empty ones and single dots. */
  lemma {:induction false} PartsBetweenSlashes(a: string, b: string)
    ensures Components(a + "/" + b) == Components(a) + Components(b)
    ensures '/' !in a ==> Components(a) == if a == "" || a == "." then [] else [a]
  {
    SplitConcat(a, '/', b);
    KeepConcat(Split(a, '/'), Split(b, '/'));
    assert [a][1..] == [];
  }

  /** Parts as a file system has them. */
  predicate ArePathParts(parts: seq<string>) {
    parts != [] && forall p :: p in parts ==> IsNamed(p) && '/' !in p
  }

  lemma {:induction false} KeepAll(parts: seq<string>)
    requires forall p :: p in parts ==> IsNamed(p)
    ensures KeepNamed(parts) == parts
  {
    if parts != [] {
      assert parts[0] in parts;
      KeepAll(parts[1..]);
      assert parts == [parts[0]] + parts[1..];
    }
  }

  lemma {:induction false} KeptAreNamed(parts: seq<string>)
    ensures forall p :: p in KeepNamed(parts) ==> IsNamed(p) && p in parts
  {
    if parts != [] { KeptAreNamed(parts[1..]); }
  }

  /** A path is its own canonical form exactly when no part is empty or a dot, or when it is the dot itself. */
  lemma {:induction false} CanonicalPaths(path: string)
    ensures AsPosix(Components(path)) == path <==> path == "." || forall p :: p in Split(path, '/') ==> IsNamed(p)
  {
    JoinOfSplit(path, '/');
    if forall p :: p in Split(path, '/') ==> IsNamed(p) {
      KeepAll(Split(path, '/'));
    } else if AsPosix(Components(path)) == path && path != "." {
      KeptAreNamed(Split(path, '/'));
      SplitHasNone(path, '/');
      SplitOfJoin(Components(path), '/');
    }
    if path == "." { assert Split(".", '/') == ["."] && KeepNamed(["."]) == KeepNamed([]); }
  }

  // ---------------------------------------------------------------- files

  datatype File = File(path: string, data: Bytes)

  ghost predicate DistinctPaths(files: seq<File>) {
    forall i, j :: 0 <= i < j < |files| ==> files[i].path != files[j].path
  }

  function ContentsOf(files: seq<File>): (r: map<string, Bytes>) {
    if files == [] then map[]
    else
      var last := files[|files| - 1];
      ContentsOf(files[..|files| - 1])[last.path := last.data]
  }

  lemma {:induction false} ContentsAt(files: seq<File>, path: string)
    requires DistinctPaths(files)
    ensures path in ContentsOf(files) <==> exists i :: 0 <= i < |files| && files[i].path == path
    ensures forall i :: 0 <= i < |files| && files[i].path == path ==> path in ContentsOf(files) && ContentsOf(files)[path] == files[i].data
  {
    if files != [] {
      var init, last := files[..|files| - 1], files[|files| - 1];
      ContentsAt(init, path);
      if path in ContentsOf(init) {
        var i :| 0 <= i < |init| && init[i].path == path;
        assert files[i].path == path;
      } else if path == last.path {
        assert files[|files| - 1].path == path;
      }
      forall i | 0 <= i < |files| && files[i].path == path ensures path in ContentsOf(files) && ContentsOf(files)[path] == files[i].data {
        if i < |files| - 1 { assert init[i].path == path; }
      }
    }
  }

  // ---------------------------------------------------------------- archives

  /** A member of a ZIP archive; a name ending in a slash is a directory's. */
  datatype Member = Member(name: string, data: Bytes, symlink: bool)

  type Archive = seq<Member>

  predicate IsDirectory(m: Member) {
    m.name != "" && m.name[|m.name| - 1] == '/'
  }

  /** `archive.read(name)`: of several members with one name the last is read. */
  function Read(archive: Archive, name: string): Option<Bytes> {
    if archive == [] then None
    else
      var last := archive[|archive| - 1];
      if last.name == name then Some(last.data) else Read(archive[..|archive| - 1], name)
  }

  lemma {:induction false} ReadFinds(archive: Archive, name: string)
    ensures Read(archive, name).None? <==> forall m :: m in archive ==> m.name != name
    ensures Read(archive, name).Some? ==> exists m :: m in archive && m.name == name && m.data == Read(archive, name).value
  {
    if archive != [] {
      var init, last := archive[..|archive| - 1], archive[|archive| - 1];
      assert last in archive && archive == init + [last];
      ReadFinds(init, name);
    }
  }

  ghost predicate DistinctNames(archive: Archive) {
    forall i, j :: 0 <= i < j < |archive| ==> archive[i].name != archive[j].name
  }

  lemma {:induction false} ReadOnly(archive: Archive, m: Member)
    requires DistinctNames(archive) && m in archive
    ensures Read(archive, m.name) == Some(m.data)
  {
    var init, last := archive[..|archive| - 1], archive[|archive| - 1];
    assert archive == init + [last];
    if m in init {
      ReadOnly(init, m);
      var i :| 0 <= i < |init| && init[i] == m;
      assert archive[i].name != archive[|archive| - 1].name;
    }
  }
}
