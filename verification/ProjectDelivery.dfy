/** Change-only delivery: the delta to a baseline, its archive and manifest, and their verification. */
module ProjectDelivery {
  import opened Wrappers
  import opened Ordering
  import opened Text
  import opened Paths

  const MAX_FILE_BYTES := 64 * 1024 * 1024
  const MAX_TOTAL_BYTES := 512 * 1024 * 1024

  const IMPORT_EXCLUDED: set<string> := {
    ".DS_Store", ".env", ".empy", ".git", ".idea", ".mypy_cache", ".pytest_cache", ".ruff_cache", ".venv", "__MACOSX",
    "__pycache__", "outputs", "private", "releases", "venv", "work"
  }

  const DELIVERY_EXCLUDED: set<string> := IMPORT_EXCLUDED + {
    "build", ".cache", "coverage", "dist", "node_modules", ".next", ".nuxt", ".parcel-cache", ".svelte-kit", ".tox",
    ".turbo", "vendor"
  }

  const EXCLUDED_SUFFIXES: seq<string> := [
    ".pem", ".key", ".p12", ".pfx", ".jks", ".keystore", ".map", ".min.css", ".min.js", ".zip"
  ]

  /** SHA-256, and the policy that calls some paths sensitive. */
  datatype Environment = Environment(sha: Bytes -> string, sensitive: seq<string> -> bool)

  // ---------------------------------------------------------------- names

  function LowerChar(c: char): char {
    if 'A' <= c <= 'Z' then 'a' + (c - 'A') else c
  }

  predicate EndsWith(s: string, suffix: string) {
    |suffix| <= |s| && forall i :: 0 <= i < |suffix| ==> LowerChar(s[|s| - |suffix| + i]) == suffix[i]
  }

  predicate ExcludedPart(part: string, names: set<string>) {
    part in names || ".env." <= part || exists suffix :: suffix in EXCLUDED_SUFFIXES && EndsWith(part, suffix)
  }

  predicate IsVerificationManifest(parts: seq<string>) {
    |parts| >= 2 && parts[|parts| - 2] == ".empy" && parts[|parts| - 1] == "verification.json"
  }

  /** `_excluded` */
  predicate Excluded(env: Environment, parts: seq<string>, names: set<string>, allowManifest: bool) {
    || env.sensitive(parts)
    || (var checked := if allowManifest && IsVerificationManifest(parts) then parts[..|parts| - 2] else parts;
        exists part :: part in checked && ExcludedPart(part, names))
  }

  function Slashed(name: string): string {
    seq(|name|, i requires 0 <= i < |name| => if name[i] == '\\' then '/' else name[i])
  }

  /** `_safe_member_name` */
  function SafeName(env: Environment, name: string, names: set<string>, allowManifest: bool): Option<seq<string>> {
    var normalized := Slashed(name);
    if '\0' in normalized || IsAbsolute(normalized) || (|normalized| >= 2 && normalized[1] == ':') || normalized == "" then None
    else
      var parts := Components(normalized);
      if ".." in parts || Excluded(env, parts, names, allowManifest) then None else Some(parts)
  }

  /** A name that is safe to deliver and written in its canonical form. */
  predicate Deliverable(env: Environment, name: string) {
    var parts := SafeName(env, name, DELIVERY_EXCLUDED, false);
    parts.Some? && parts.value != [] && AsPosix(parts.value) == name
  }

  lemma {:induction false} SplitKeepsChars(s: string, c: char, p: string, x: char)
    requires p in Split(s, c) && x in p
    ensures x in s
    decreases |s|
  {
    if c in s {
      var i := Find(s, c);
      if p != s[..i] { SplitKeepsChars(s[i + 1..], c, p, x); }
    }
  }

  /** A canonical name has no backslash: it would have been read as a slash. */
  lemma {:induction false} CanonicalHasNoBackslash(name: string)
    requires AsPosix(Components(Slashed(name))) == name
    ensures '\\' !in name
  {
    var parts := Components(Slashed(name));
    KeptAreNamed(Split(Slashed(name), '/'));
    if parts != [] {
      JoinChars(parts, '/');
      forall p | p in parts ensures '\\' !in p {
        if '\\' in p { SplitKeepsChars(Slashed(name), '/', p, '\\'); }
      }
    }
  }

  /** A text does not begin with a slash when its first part is not empty. */
  lemma {:induction false} HeadOfSplit(s: string)
    requires Split(s, '/')[0] != ""
    ensures s != "" && s[0] != '/'
  {
  }

  lemma {:induction false} PlainDeliverable(env: Environment, name: string)
    requires '\\' !in name
    ensures Deliverable(env, name) <==>
      && ArePathParts(Split(name, '/')) && ".." !in Split(name, '/')
      && '\0' !in name && (|name| >= 2 ==> name[1] != ':')
      && !Excluded(env, Split(name, '/'), DELIVERY_EXCLUDED, false)
  {
    var parts := Split(name, '/');
    assert Slashed(name) == name;
    SplitHasNone(name, '/');
    CanonicalPaths(name);
    if name == "." {
      assert parts == ["."] && KeepNamed(["."]) == KeepNamed([]);
    } else if forall p :: p in parts ==> IsNamed(p) {
      KeepAll(parts);
      assert parts[0] in parts;
      HeadOfSplit(name);
    }
  }

  /** Deliverable names, from the definition of a path alone. */
  lemma {:induction false} DeliverableNames(env: Environment, name: string)
    ensures Deliverable(env, name) <==>
      && ArePathParts(Split(name, '/')) && ".." !in Split(name, '/')
      && '\\' !in name && '\0' !in name && (|name| >= 2 ==> name[1] != ':')
      && !Excluded(env, Split(name, '/'), DELIVERY_EXCLUDED, false)
  {
    if '\\' in name {
      if AsPosix(Components(Slashed(name))) == name { CanonicalHasNoBackslash(name); }
    } else {
      PlainDeliverable(env, name);
    }
  }

  // ---------------------------------------------------------------- the manifest

  datatype FileEntry = FileEntry(path: string, size: int, sha256: string)

  datatype Manifest = Manifest(
    schemaVersion: int, archiveMode: string, extractionRoot: string, projectName: string, fileCount: int,
    files: seq<FileEntry>, changedFiles: seq<string>, deletedFiles: seq<string>, baselineSha256: string, instruction: string)

  predicate IsDigest(s: string) {
    |s| == 64 && forall i :: 0 <= i < 64 ==> IsDigit(s[i]) || 'a' <= s[i] <= 'f'
  }

  predicate ValidEntry(env: Environment, e: FileEntry) {
    Deliverable(env, e.path) && 0 <= e.size <= MAX_FILE_BYTES && IsDigest(e.sha256)
  }

  predicate SafelyNamed(env: Environment, name: string) {
    var parts := SafeName(env, name, DELIVERY_EXCLUDED, false);
    parts.Some? && AsPosix(parts.value) == name
  }

  predicate ValidHeader(m: Manifest) {
    && m.schemaVersion == 3 && m.archiveMode == "delta" && m.extractionRoot == "."
    && Strip(m.projectName) != "" && |m.projectName| <= 255
    && m.fileCount >= 1 && |m.files| == m.fileCount
  }

  predicate ValidTrailer(m: Manifest) {
    IsDigest(m.baselineSha256) && Strip(m.instruction) != "" && |m.instruction| <= 4096
  }

  ghost predicate ValidEntries(env: Environment, files: seq<FileEntry>) {
    && (forall i {:trigger ValidEntry(env, files[i])} :: 0 <= i < |files| ==> ValidEntry(env, files[i]))
    && forall i, j :: 0 <= i < j < |files| ==> files[i].path != files[j].path
  }

  function EntryPaths(files: seq<FileEntry>): seq<string> {
    seq(|files|, i requires 0 <= i < |files| => files[i].path)
  }

  ghost predicate ValidDeletions(env: Environment, deleted: seq<string>, files: seq<FileEntry>) {
    && (forall i {:trigger SafelyNamed(env, deleted[i])} :: 0 <= i < |deleted| ==> SafelyNamed(env, deleted[i]))
    && NoDuplicates(deleted) && forall i :: 0 <= i < |deleted| ==> deleted[i] !in EntryPaths(files)
  }

  /** What `validate_export_manifest` accepts. */
  ghost predicate ValidManifest(env: Environment, m: Manifest) {
    && ValidHeader(m) && ValidEntries(env, m.files) && m.changedFiles == EntryPaths(m.files)
    && ValidDeletions(env, m.deletedFiles, m.files) && ValidTrailer(m)
  }

  function EntryNames(files: seq<FileEntry>): set<string> {
    set k | 0 <= k < |files| :: files[k].path
  }

  ghost predicate PassAndDiffer(files: seq<FileEntry>, valid: FileEntry -> bool) {
    && (forall i :: 0 <= i < |files| ==> valid(files[i]))
    && forall i, j :: 0 <= i < j < |files| ==> files[i].path != files[j].path
  }

  /** The loop over the entries, for any test of a single entry. */
  method CheckEach(files: seq<FileEntry>, valid: FileEntry -> bool) returns (ok: bool)
    ensures ok <==> PassAndDiffer(files, valid)
  {
    var seen: set<string> := {};
    for index := 0 to |files|
      invariant PassAndDiffer(files[..index], valid) && seen == EntryNames(files[..index])
    {
      var e := files[index];
      assert files[..index + 1] == files[..index] + [e];
      if !valid(e) { return false; }
      if e.path in seen {
        var k :| 0 <= k < index && files[..index][k].path == e.path;
        return false;
      }
      seen := seen + {e.path};
    }
    assert files[..|files|] == files;
    return true;
  }

  method CheckEntries(env: Environment, files: seq<FileEntry>) returns (ok: bool)
    ensures ok <==> ValidEntries(env, files)
  {
    var valid := (e: FileEntry) => ValidEntry(env, e);
    ok := CheckEach(files, valid);
    forall i | 0 <= i < |files| ensures valid(files[i]) <==> ValidEntry(env, files[i]) {}
  }

  ghost predicate PassOnce(names: seq<string>, safe: string -> bool, shipped: seq<string>) {
    && (forall i :: 0 <= i < |names| ==> safe(names[i]))
    && NoDuplicates(names) && forall i :: 0 <= i < |names| ==> names[i] !in shipped
  }

  /** The loop over the deleted names, for any test of a single name. */
  method CheckOnce(names: seq<string>, safe: string -> bool, shipped: seq<string>) returns (ok: bool)
    ensures ok <==> PassOnce(names, safe, shipped)
  {
    for index := 0 to |names|
      invariant PassOnce(names[..index], safe, shipped)
    {
      var item := names[index];
      assert names[..index + 1] == names[..index] + [item];
      if !safe(item) || item in shipped { return false; }
      if item in names[..index] {
        var k :| 0 <= k < index && names[..index][k] == item;
        return false;
      }
    }
    assert names[..|names|] == names;
    return true;
  }

  method CheckDeletions(env: Environment, deleted: seq<string>, files: seq<FileEntry>) returns (ok: bool)
    ensures ok <==> ValidDeletions(env, deleted, files)
  {
    var safe := (name: string) => SafelyNamed(env, name);
    ok := CheckOnce(deleted, safe, EntryPaths(files));
    forall i | 0 <= i < |deleted| ensures safe(deleted[i]) <==> SafelyNamed(env, deleted[i]) {}
  }

  /** `validate_export_manifest` */
  method ValidateManifest(env: Environment, m: Manifest) returns (ok: bool)
    ensures ok <==> ValidManifest(env, m)
  {
    if !ValidHeader(m) { return false; }
    var entries := CheckEntries(env, m.files);
    if !entries || m.changedFiles != EntryPaths(m.files) { return false; }
    var deletions := CheckDeletions(env, m.deletedFiles, m.files);
    return deletions && ValidTrailer(m);
  }

  // ---------------------------------------------------------------- verification

  function StripSlashes(s: string): string {
    if s != "" && s[|s| - 1] == '/' then StripSlashes(s[..|s| - 1]) else s
  }

  function ArchiveName(m: Member): string {
    if IsDirectory(m) then StripSlashes(m.name) else m.name
  }

  /** The member's name, if it is safe to deliver and canonical. */
  function CanonicalName(env: Environment, m: Member): Option<string> {
    var parts := SafeName(env, m.name, DELIVERY_EXCLUDED, false);
    if parts.Some? && AsPosix(parts.value) == ArchiveName(m) then Some(ArchiveName(m)) else None
  }

  function Expected(files: seq<FileEntry>): map<string, FileEntry> {
    if files == [] then map[]
    else
      var last := files[|files| - 1];
      Expected(files[..|files| - 1])[last.path := last]
  }

  /** The size of the files of an archive together. */
  function TotalBytes(archive: Archive): nat {
    if archive == [] then 0
    else
      var last := archive[|archive| - 1];
      TotalBytes(archive[..|archive| - 1]) + if IsDirectory(last) then 0 else |last.data|
  }

  /** The files of an archive by name. */
  function FilesOf(archive: Archive): map<string, Bytes> {
    if archive == [] then map[]
    else
      var last := archive[|archive| - 1];
      var before := FilesOf(archive[..|archive| - 1]);
      if IsDirectory(last) then before else before[last.name := last.data]
  }

  predicate MemberFits(env: Environment, m: Member, expected: map<string, FileEntry>) {
    && CanonicalName(env, m).Some?
    && (!IsDirectory(m) ==>
        !m.symlink && |m.data| <= MAX_FILE_BYTES && m.name in expected && expected[m.name].size == |m.data|)
  }

  predicate SameName(env: Environment, a: Member, b: Member) {
    CanonicalName(env, a) == CanonicalName(env, b)
  }

  ghost predicate MembersFit(env: Environment, archive: Archive, expected: map<string, FileEntry>) {
    && (forall i {:trigger MemberFits(env, archive[i], expected)} :: 0 <= i < |archive| ==> MemberFits(env, archive[i], expected))
    && forall i, j {:trigger SameName(env, archive[i], archive[j])} :: 0 <= i < j < |archive| ==> !SameName(env, archive[i], archive[j])
  }

  predicate HashesMatch(env: Environment, files: map<string, Bytes>, expected: map<string, FileEntry>) {
    files.Keys == expected.Keys && forall name :: name in files && name in expected ==> env.sha(files[name]) == expected[name].sha256
  }

  /** What `verify_project_archive` accepts. */
  ghost predicate Verifies(env: Environment, archive: Archive, m: Manifest) {
    && ValidManifest(env, m) && MembersFit(env, archive, Expected(m.files)) && TotalBytes(archive) <= MAX_TOTAL_BYTES
    && HashesMatch(env, FilesOf(archive), Expected(m.files))
  }

  lemma {:induction false} TotalGrows(archive: Archive, n: nat)
    requires n <= |archive|
    ensures TotalBytes(archive[..n]) <= TotalBytes(archive)
  {
    if n < |archive| {
      TotalGrows(archive[..|archive| - 1], n);
      assert archive[..|archive| - 1][..n] == archive[..n];
    } else {
      assert archive[..n] == archive;
    }
  }

  predicate NameIn(env: Environment, m: Member, names: set<string>) {
    var name := CanonicalName(env, m);
    name.Some? && name.value in names
  }

  predicate NamedAs(env: Environment, m: Member, name: string) {
    CanonicalName(env, m) == Some(name)
  }

  /** The canonical names of the members so far are the ones collected. */
  ghost predicate Collected(env: Environment, archive: Archive, names: set<string>) {
    && (forall k {:trigger NameIn(env, archive[k], names)} :: 0 <= k < |archive| ==> NameIn(env, archive[k], names))
    && forall n :: n in names ==> exists k {:trigger NamedAs(env, archive[k], n)} :: 0 <= k < |archive| && NamedAs(env, archive[k], n)
  }

  /** One turn of the loop over the members: `name` is set if the member passes, and is new. */
  method CheckMember(env: Environment, info: Member, names: set<string>, total: nat, expected: map<string, FileEntry>)
    returns (ok: bool, name: string)
    ensures ok <==>
      && !NameIn(env, info, names) && MemberFits(env, info, expected)
      && (IsDirectory(info) || total + |info.data| <= MAX_TOTAL_BYTES)
    ensures ok ==> NamedAs(env, info, name)
  {
    name := "";
    var canonical := CanonicalName(env, info);
    if canonical.None? || canonical.value in names { return false, ""; }
    if !IsDirectory(info) {
      if info.symlink || |info.data| > MAX_FILE_BYTES || total + |info.data| > MAX_TOTAL_BYTES { return false, ""; }
      if info.name !in expected || expected[info.name].size != |info.data| { return false, ""; }
    }
    return true, canonical.value;
  }

  lemma {:induction false} CollectedStep(env: Environment, archive: Archive, m: Member, names: set<string>, name: string)
    requires Collected(env, archive, names) && NamedAs(env, m, name)
    ensures Collected(env, archive + [m], names + {name})
  {
    var more, all := archive + [m], names + {name};
    forall k | 0 <= k < |more| ensures NameIn(env, more[k], all) {
      if k < |archive| { assert NameIn(env, archive[k], names); }
    }
    forall n | n in all ensures exists k {:trigger NamedAs(env, more[k], n)} :: 0 <= k < |more| && NamedAs(env, more[k], n) {
      if n in names {
        var k :| 0 <= k < |archive| && NamedAs(env, archive[k], n);
        assert NamedAs(env, more[k], n);
      } else {
        assert NamedAs(env, more[|archive|], n);
      }
    }
  }

  lemma {:induction false} FitStep(env: Environment, archive: Archive, m: Member, names: set<string>, expected: map<string, FileEntry>)
    requires Collected(env, archive, names) && MembersFit(env, archive, expected)
    ensures MembersFit(env, archive + [m], expected) <==> MemberFits(env, m, expected) && !NameIn(env, m, names)
  {
    var more := archive + [m];
    if MembersFit(env, more, expected) {
      assert MemberFits(env, more[|archive|], expected);
      if NameIn(env, m, names) {
        var k :| 0 <= k < |archive| && NamedAs(env, archive[k], CanonicalName(env, m).value);
        assert SameName(env, more[k], more[|archive|]);
      }
    }
    if MemberFits(env, m, expected) && !NameIn(env, m, names) {
      forall k | 0 <= k < |more| ensures MemberFits(env, more[k], expected) {
        if k < |archive| { assert MemberFits(env, archive[k], expected); }
      }
      forall i, j | 0 <= i < j < |more| ensures !SameName(env, more[i], more[j]) {
        if j < |archive| { assert !SameName(env, archive[i], archive[j]); } else { assert NameIn(env, archive[i], names); }
      }
    }
  }

  lemma {:induction false} FitPrefix(env: Environment, archive: Archive, n: nat, expected: map<string, FileEntry>)
    requires n <= |archive| && MembersFit(env, archive, expected)
    ensures MembersFit(env, archive[..n], expected)
  {
    forall k | 0 <= k < n ensures MemberFits(env, archive[..n][k], expected) { assert MemberFits(env, archive[k], expected); }
    forall i, j | 0 <= i < j < n ensures !SameName(env, archive[..n][i], archive[..n][j]) {
      assert !SameName(env, archive[i], archive[j]);
    }
  }

  /** The first `i` members fit, with these names and this many bytes in all. */
  ghost predicate Checking(env: Environment, archive: Archive, expected: map<string, FileEntry>, i: nat, names: set<string>, total: nat) {
    && i <= |archive| && MembersFit(env, archive[..i], expected) && Collected(env, archive[..i], names)
    && total == TotalBytes(archive[..i]) <= MAX_TOTAL_BYTES
  }

  function BytesIn(m: Member): nat {
    if IsDirectory(m) then 0 else |m.data|
  }

  lemma {:induction false} CheckingPasses(env: Environment, archive: Archive, expected: map<string, FileEntry>, i: nat, names: set<string>,
                                          total: nat, name: string)
    requires Checking(env, archive, expected, i, names, total) && i < |archive|
    requires !NameIn(env, archive[i], names) && MemberFits(env, archive[i], expected) && NamedAs(env, archive[i], name)
    requires total + BytesIn(archive[i]) <= MAX_TOTAL_BYTES
    ensures Checking(env, archive, expected, i + 1, names + {name}, total + BytesIn(archive[i]))
  {
    assert archive[..i + 1] == archive[..i] + [archive[i]];
    assert archive[..i + 1][..i] == archive[..i];
    FitStep(env, archive[..i], archive[i], names, expected);
    CollectedStep(env, archive[..i], archive[i], names, name);
  }

  lemma {:induction false} CheckingFails(env: Environment, archive: Archive, expected: map<string, FileEntry>, i: nat, names: set<string>,
                                         total: nat)
    requires Checking(env, archive, expected, i, names, total) && i < |archive|
    ensures MembersFit(env, archive, expected) ==> !NameIn(env, archive[i], names) && MemberFits(env, archive[i], expected)
    ensures total + BytesIn(archive[i]) <= TotalBytes(archive)
  {
    assert archive[..i + 1] == archive[..i] + [archive[i]];
    assert archive[..i + 1][..i] == archive[..i];
    TotalGrows(archive, i + 1);
    if MembersFit(env, archive, expected) {
      FitPrefix(env, archive, i + 1, expected);
      FitStep(env, archive[..i], archive[i], names, expected);
    }
  }

  method CheckMembers(env: Environment, archive: Archive, expected: map<string, FileEntry>) returns (ok: bool)
    ensures ok <==> MembersFit(env, archive, expected) && TotalBytes(archive) <= MAX_TOTAL_BYTES
  {
    var names: set<string> := {};
    var total: nat := 0;
    for i := 0 to |archive|
      invariant Checking(env, archive, expected, i, names, total)
    {
      var info := archive[i];
      var fits, name := CheckMember(env, info, names, total, expected);
      if !fits {
        CheckingFails(env, archive, expected, i, names, total);
        return false;
      }
      CheckingPasses(env, archive, expected, i, names, total, name);
      names := names + {name};
      if !IsDirectory(info) { total := total + |info.data|; }
    }
    assert archive[..|archive|] == archive;
    return true;
  }

  /** `verify_project_archive`, for manifests of the current version. */
  method VerifyArchive(env: Environment, archive: Archive, m: Manifest) returns (ok: bool)
    ensures ok <==> Verifies(env, archive, m)
  {
    var valid := ValidateManifest(env, m);
    if !valid { return false; }
    var expected: map<string, FileEntry> := map[];
    for i := 0 to |m.files|
      invariant expected == Expected(m.files[..i])
    {
      assert m.files[..i + 1][..i] == m.files[..i];
      expected := expected[m.files[i].path := m.files[i]];
    }
    assert m.files[..|m.files|] == m.files;
    var fit := CheckMembers(env, archive, expected);
    if !fit { return false; }
    var actual: map<string, Bytes> := map[];
    for i := 0 to |archive|
      invariant actual == FilesOf(archive[..i])
    {
      assert archive[..i + 1][..i] == archive[..i];
      if !IsDirectory(archive[i]) { actual := actual[archive[i].name := archive[i].data]; }
    }
    assert archive[..|archive|] == archive;
    return HashesMatch(env, actual, expected);
  }

  // ---------------------------------------------------------------- the baseline

  datatype BaselineError = UnsafePath | DuplicateFile | Oversized | TotalExceeded

  /** The name of a baseline file as the snapshot is read; the verification contract is let through. */
  function BaselineName(env: Environment, m: Member): Option<string> {
    var parts := SafeName(env, m.name, IMPORT_EXCLUDED, true);
    if parts.Some? then Some(AsPosix(parts.value)) else None
  }

  /** A snapshot file that belongs to the deliverable part of the baseline. */
  predicate InBaseline(env: Environment, m: Member) {
    var parts := SafeName(env, m.name, IMPORT_EXCLUDED, true);
    !IsDirectory(m) && parts.Some? && !Excluded(env, parts.value, DELIVERY_EXCLUDED, false)
  }

  predicate BaselineFits(env: Environment, m: Member) {
    IsDirectory(m) || (BaselineName(env, m).Some? && !m.symlink && |m.data| <= MAX_FILE_BYTES)
  }

  /** The deliverable files of the baseline by name. */
  function BaselineFiles(env: Environment, snapshot: Archive): map<string, Bytes> {
    if snapshot == [] then map[]
    else
      var last := snapshot[|snapshot| - 1];
      var before := BaselineFiles(env, snapshot[..|snapshot| - 1]);
      if InBaseline(env, last) then before[BaselineName(env, last).value := last.data] else before
  }

  function HashesOf(env: Environment, files: map<string, Bytes>): map<string, string> {
    map path | path in files :: env.sha(files[path])
  }

  /** An earlier deliverable file and a later file go by one name. */
  predicate Repeats(env: Environment, earlier: Member, later: Member) {
    InBaseline(env, earlier) && !IsDirectory(later) && BaselineName(env, earlier) == BaselineName(env, later)
  }

  /** What `_baseline_hashes` reads without an error. */
  ghost predicate Readable(env: Environment, snapshot: Archive) {
    && (forall i {:trigger BaselineFits(env, snapshot[i])} :: 0 <= i < |snapshot| ==> BaselineFits(env, snapshot[i]))
    && (forall i, j {:trigger Repeats(env, snapshot[i], snapshot[j])} :: 0 <= i < j < |snapshot| ==> !Repeats(env, snapshot[i], snapshot[j]))
    && TotalBytes(snapshot) <= MAX_TOTAL_BYTES
  }

  predicate InBaselineAs(env: Environment, m: Member, name: string) {
    InBaseline(env, m) && BaselineName(env, m) == Some(name)
  }

  lemma {:induction false} BaselineNames(env: Environment, snapshot: Archive, name: string)
    ensures name in BaselineFiles(env, snapshot) <==>
      exists i {:trigger InBaselineAs(env, snapshot[i], name)} :: 0 <= i < |snapshot| && InBaselineAs(env, snapshot[i], name)
  {
    if snapshot != [] {
      var init, last := snapshot[..|snapshot| - 1], snapshot[|snapshot| - 1];
      BaselineNames(env, init, name);
      if name in BaselineFiles(env, init) {
        var i :| 0 <= i < |init| && InBaselineAs(env, init[i], name);
        assert InBaselineAs(env, snapshot[i], name);
      } else if InBaselineAs(env, last, name) {
        assert InBaselineAs(env, snapshot[|snapshot| - 1], name);
      }
      if i :| 0 <= i < |snapshot| && InBaselineAs(env, snapshot[i], name) {
        if i < |init| { assert InBaselineAs(env, init[i], name); }
      }
    }
  }

  /** Whether the file `info` may be read after the snapshot members read so far. */
  predicate NextReads(env: Environment, info: Member, before: map<string, Bytes>, total: nat) {
    && BaselineFits(env, info)
    && (!IsDirectory(info) ==> total + |info.data| <= MAX_TOTAL_BYTES && BaselineName(env, info).value !in before)
  }

  /** The file's name is taken exactly when an earlier deliverable file goes by it. */
  lemma {:induction false} NameTaken(env: Environment, init: Archive, info: Member)
    requires BaselineFits(env, info) && !IsDirectory(info)
    ensures BaselineName(env, info).value in BaselineFiles(env, init) <==>
      exists k {:trigger Repeats(env, init[k], info)} :: 0 <= k < |init| && Repeats(env, init[k], info)
  {
    var name := BaselineName(env, info).value;
    BaselineNames(env, init, name);
    if name in BaselineFiles(env, init) {
      var k :| 0 <= k < |init| && InBaselineAs(env, init[k], name);
      assert Repeats(env, init[k], info);
    }
    if k :| 0 <= k < |init| && Repeats(env, init[k], info) {
      assert InBaselineAs(env, init[k], name);
    }
  }

  lemma {:induction false} NeverRepeated(env: Environment, earlier: Member, later: Member)
    requires IsDirectory(later)
    ensures !Repeats(env, earlier, later)
  {
  }

  lemma {:induction false} ReadableMore(env: Environment, init: Archive, info: Member)
    requires Readable(env, init)
    ensures Readable(env, init + [info]) <==>
      && BaselineFits(env, info) && TotalBytes(init + [info]) <= MAX_TOTAL_BYTES
      && forall k {:trigger Repeats(env, init[k], info)} :: 0 <= k < |init| ==> !Repeats(env, init[k], info)
  {
    var more := init + [info];
    if Readable(env, more) {
      assert BaselineFits(env, more[|init|]);
      forall k | 0 <= k < |init| ensures !Repeats(env, init[k], info) { assert !Repeats(env, more[k], more[|init|]); }
    } else {
      forall i | 0 <= i < |init| ensures BaselineFits(env, more[i]) { assert BaselineFits(env, init[i]); }
      forall i, j | 0 <= i < j < |init| ensures !Repeats(env, more[i], more[j]) { assert !Repeats(env, init[i], init[j]); }
      forall i | 0 <= i < |init| ensures Repeats(env, more[i], more[|init|]) <==> Repeats(env, init[i], info) {}
    }
  }

  lemma {:induction false} ReadableStep(env: Environment, snapshot: Archive, i: nat)
    requires i < |snapshot| && Readable(env, snapshot[..i])
    ensures Readable(env, snapshot[..i + 1]) <==> NextReads(env, snapshot[i], BaselineFiles(env, snapshot[..i]), TotalBytes(snapshot[..i]))
  {
    var init, info := snapshot[..i], snapshot[i];
    assert snapshot[..i + 1] == init + [info];
    assert (init + [info])[..i] == init;
    ReadableMore(env, init, info);
    if IsDirectory(info) {
      forall k | 0 <= k < i ensures !Repeats(env, init[k], info) { NeverRepeated(env, init[k], info); }
    } else if BaselineFits(env, info) {
      NameTaken(env, init, info);
    }
  }

  lemma {:induction false} ReadablePrefix(env: Environment, snapshot: Archive, n: nat)
    requires n <= |snapshot| && Readable(env, snapshot)
    ensures Readable(env, snapshot[..n])
  {
    TotalGrows(snapshot, n);
    forall k | 0 <= k < n ensures BaselineFits(env, snapshot[..n][k]) { assert BaselineFits(env, snapshot[k]); }
    forall k, m | 0 <= k < m < n ensures !Repeats(env, snapshot[..n][k], snapshot[..n][m]) {
      assert !Repeats(env, snapshot[k], snapshot[m]);
    }
  }

  /** What is wrong with the member that stops the reading. */
  ghost predicate StopsReading(e: BaselineError, env: Environment, info: Member, before: map<string, Bytes>, total: nat) {
    && !IsDirectory(info)
    && match e
       case UnsafePath => BaselineName(env, info).None? || info.symlink
       case DuplicateFile => BaselineName(env, info).Some? && BaselineName(env, info).value in before
       case Oversized => |info.data| > MAX_FILE_BYTES
       case TotalExceeded => total + |info.data| > MAX_TOTAL_BYTES
  }

  /** Some member stops the reading, none before it does. */
  ghost predicate StopsAt(e: BaselineError, env: Environment, snapshot: Archive, i: nat) {
    && i < |snapshot| && Readable(env, snapshot[..i])
    && StopsReading(e, env, snapshot[i], BaselineFiles(env, snapshot[..i]), TotalBytes(snapshot[..i]))
  }

  /** One turn of the loop: what a snapshot member adds. */
  method ReadBaselineMember(env: Environment, info: Member, hashes: map<string, string>, total: nat, ghost before: map<string, Bytes>)
    returns (r: Result<map<string, string>, BaselineError>)
    requires hashes == HashesOf(env, before)
    ensures r.Success? <==> NextReads(env, info, before, total)
    ensures r.Failure? ==> StopsReading(r.error, env, info, before, total)
    ensures r.Success? ==>
      r.value == HashesOf(env, if InBaseline(env, info) then before[BaselineName(env, info).value := info.data] else before)
  {
    if IsDirectory(info) { return Success(hashes); }
    var parts := SafeName(env, info.name, IMPORT_EXCLUDED, true);
    if parts.None? || info.symlink { return Failure(UnsafePath); }
    var name := AsPosix(parts.value);
    if name in hashes { return Failure(DuplicateFile); }
    if |info.data| > MAX_FILE_BYTES { return Failure(Oversized); }
    if total + |info.data| > MAX_TOTAL_BYTES { return Failure(TotalExceeded); }
    if Excluded(env, parts.value, DELIVERY_EXCLUDED, false) { return Success(hashes); }
    return Success(hashes[name := env.sha(info.data)]);
  }

  /** `_baseline_hashes`: on success the digests of the deliverable baseline files. */
  method BaselineHashes(env: Environment, snapshot: Archive) returns (r: Result<map<string, string>, BaselineError>)
    ensures r.Success? <==> Readable(env, snapshot)
    ensures r.Success? ==> r.value == HashesOf(env, BaselineFiles(env, snapshot))
    ensures r.Failure? ==> exists i: nat :: StopsAt(r.error, env, snapshot, i)
  {
    var hashes: map<string, string> := map[];
    var total := 0;
    for i := 0 to |snapshot|
      invariant hashes == HashesOf(env, BaselineFiles(env, snapshot[..i]))
      invariant Readable(env, snapshot[..i]) && total == TotalBytes(snapshot[..i])
    {
      var info := snapshot[i];
      ReadableStep(env, snapshot, i);
      assert snapshot[..i + 1][..i] == snapshot[..i];
      var read := ReadBaselineMember(env, info, hashes, total, BaselineFiles(env, snapshot[..i]));
      if read.Failure? {
        if Readable(env, snapshot) { ReadablePrefix(env, snapshot, i + 1); }
        assert StopsAt(read.error, env, snapshot, i);
        return Failure(read.error);
      }
      hashes := read.value;
      if !IsDirectory(info) { total := total + |info.data|; }
    }
    assert snapshot[..|snapshot|] == snapshot;
    return Success(hashes);
  }

  // ---------------------------------------------------------------- the delta

  datatype Delta = Delta(changed: seq<File>, deleted: seq<string>)

  predicate Changed(env: Environment, f: File, baseline: map<string, string>) {
    !(f.path in baseline && baseline[f.path] == env.sha(f.data))
  }

  /** The current files that are new or differ from the baseline, in the order of the current listing. */
  function ChangedFiles(env: Environment, current: seq<File>, baseline: map<string, string>): seq<File> {
    if current == [] then []
    else
      var last := current[|current| - 1];
      ChangedFiles(env, current[..|current| - 1], baseline) + if Changed(env, last, baseline) then [last] else []
  }

  function PathsOf(files: seq<File>): set<string> {
    set i | 0 <= i < |files| :: files[i].path
  }

  /** `inspect_project_delta` */
  method InspectDelta(env: Environment, current: seq<File>, snapshot: Archive) returns (r: Result<Delta, BaselineError>)
    ensures r.Success? <==> Readable(env, snapshot)
    ensures r.Success? ==>
      var baseline := HashesOf(env, BaselineFiles(env, snapshot));
      r.value.changed == ChangedFiles(env, current, baseline) && r.value.deleted == Sorted(baseline.Keys - PathsOf(current))
  {
    var read := BaselineHashes(env, snapshot);
    if read.Failure? { return Failure(read.error); }
    var baseline := read.value;
    var changed: seq<File> := [];
    for i := 0 to |current|
      invariant changed == ChangedFiles(env, current[..i], baseline)
    {
      assert current[..i + 1][..i] == current[..i];
      if !(current[i].path in baseline && baseline[current[i].path] == env.sha(current[i].data)) {
        changed := changed + [current[i]];
      }
    }
    assert current[..|current|] == current;
    var deleted := SortedKeys(baseline.Keys - PathsOf(current));
    return Success(Delta(changed, deleted));
  }

  /** SHA-256 does not confuse any two of the byte strings at hand. */
  ghost predicate CollisionFree(env: Environment, data: set<Bytes>) {
    forall a, b :: a in data && b in data && env.sha(a) == env.sha(b) ==> a == b
  }

  /** Extracting files over a tree. */
  function Overlay(tree: map<string, Bytes>, files: map<string, Bytes>): map<string, Bytes> {
    tree + files
  }

  lemma {:induction false} ChangedAt(env: Environment, current: seq<File>, baseline: map<string, string>)
    requires DistinctPaths(current)
    ensures var changed := ChangedFiles(env, current, baseline);
      && DistinctPaths(changed)
      && forall f :: f in changed <==> f in current && Changed(env, f, baseline)
  {
    if current != [] {
      var init, last := current[..|current| - 1], current[|current| - 1];
      assert current == init + [last];
      ChangedAt(env, init, baseline);
      var before := ChangedFiles(env, init, baseline);
      forall k | 0 <= k < |before| ensures before[k].path != last.path {
        assert before[k] in init;
        var i :| 0 <= i < |init| && init[i] == before[k];
        assert current[i].path != current[|current| - 1].path;
      }
    }
  }

  /** What the changed files hold at a path: the current file there, if it changed. */
  lemma {:induction false} ChangedContents(env: Environment, current: seq<File>, baseline: map<string, string>, path: string)
    requires DistinctPaths(current)
    ensures var changed := ContentsOf(ChangedFiles(env, current, baseline));
      && (path in changed <==> path in ContentsOf(current) && Changed(env, File(path, ContentsOf(current)[path]), baseline))
      && (path in changed ==> changed[path] == ContentsOf(current)[path])
  {
    var changed := ChangedFiles(env, current, baseline);
    ChangedAt(env, current, baseline);
    ContentsAt(changed, path);
    ContentsAt(current, path);
    if path in ContentsOf(changed) {
      var j :| 0 <= j < |changed| && changed[j].path == path;
      assert changed[j] in changed && changed[j] in current;
      var i :| 0 <= i < |current| && current[i] == changed[j];
      assert current[i].path == path;
      assert changed[j] == File(path, ContentsOf(current)[path]);
    } else if path in ContentsOf(current) {
      var i :| 0 <= i < |current| && current[i].path == path;
      assert current[i] in current && current[i] == File(path, ContentsOf(current)[path]);
      assert current[i] !in changed;
    }
  }

  lemma {:induction false} OverlayAt(env: Environment, baseline: map<string, Bytes>, current: seq<File>, path: string)
    requires DistinctPaths(current) && baseline.Keys <= PathsOf(current)
    requires CollisionFree(env, baseline.Values + ContentsOf(current).Values)
    ensures var over := Overlay(baseline, ContentsOf(ChangedFiles(env, current, HashesOf(env, baseline))));
      && (path in over <==> path in ContentsOf(current))
      && (path in over ==> over[path] == ContentsOf(current)[path])
  {
    var changed := ContentsOf(ChangedFiles(env, current, HashesOf(env, baseline)));
    ChangedContents(env, current, HashesOf(env, baseline), path);
    ContentsAt(current, path);
    if path in baseline {
      var i :| 0 <= i < |current| && current[i].path == path;
      assert path in ContentsOf(current);
      if path !in changed {
        assert env.sha(baseline[path]) == env.sha(ContentsOf(current)[path]);
        assert baseline[path] in baseline.Values && ContentsOf(current)[path] in ContentsOf(current).Values;
      }
    }
  }

  /**
   With no deliverable file deleted, extracting the changed files over the
   baseline's deliverable files gives the current ones.
   */
  lemma {:induction false} OverlayIsCurrent(env: Environment, baseline: map<string, Bytes>, current: seq<File>)
    requires DistinctPaths(current) && baseline.Keys <= PathsOf(current)
    requires CollisionFree(env, baseline.Values + ContentsOf(current).Values)
    ensures Overlay(baseline, ContentsOf(ChangedFiles(env, current, HashesOf(env, baseline)))) == ContentsOf(current)
  {
    var over := Overlay(baseline, ContentsOf(ChangedFiles(env, current, HashesOf(env, baseline))));
    forall path: string
      ensures path in over <==> path in ContentsOf(current)
      ensures path in over ==> over[path] == ContentsOf(current)[path]
    {
      OverlayAt(env, baseline, current, path);
    }
  }

  // ---------------------------------------------------------------- the archive and its manifest

  function ZipOf(files: seq<File>): (r: Archive) {
    seq(|files|, i requires 0 <= i < |files| => Member(files[i].path, files[i].data, false))
  }

  function EntryOf(env: Environment, f: File): FileEntry {
    FileEntry(f.path, |f.data|, env.sha(f.data))
  }

  function EntriesOf(env: Environment, files: seq<File>): (r: seq<FileEntry>) {
    seq(|files|, i requires 0 <= i < |files| => EntryOf(env, files[i]))
  }

  /** What a manifest says besides the files: the project's name, the baseline's digest, the instruction to the reader. */
  datatype Heading = Heading(projectName: string, baselineSha256: string, instruction: string)

  /** The manifest of a delta without deletions. */
  function ManifestFor(env: Environment, heading: Heading, files: seq<File>): Manifest {
    Manifest(3, "delta", ".", heading.projectName, |files|, EntriesOf(env, files), EntryPaths(EntriesOf(env, files)), [],
             heading.baselineSha256, heading.instruction)
  }

  predicate Ships(env: Environment, f: File) {
    Deliverable(env, f.path) && |f.data| <= MAX_FILE_BYTES
  }

  predicate ValidHeading(heading: Heading) {
    && Strip(heading.projectName) != "" && |heading.projectName| <= 255
    && IsDigest(heading.baselineSha256) && Strip(heading.instruction) != "" && |heading.instruction| <= 4096
  }

  /** What a delta must be like for its archive to be delivered. */
  ghost predicate CanShip(env: Environment, heading: Heading, files: seq<File>) {
    && files != [] && ValidHeading(heading)
    && (forall i {:trigger Ships(env, files[i])} :: 0 <= i < |files| ==> Ships(env, files[i]))
    && TotalBytes(ZipOf(files)) <= MAX_TOTAL_BYTES
  }

  lemma {:induction false} LastOfSplit(s: string)
    requires forall p :: p in Split(s, '/') ==> p != ""
    ensures s != "" && s[|s| - 1] != '/'
    decreases |s|
  {
    var parts := Split(s, '/');
    assert parts[0] in parts;
    if '/' in s {
      var rest := Split(s[Find(s, '/') + 1..], '/');
      forall k | 0 <= k < |rest| ensures rest[k] != "" { assert parts[k + 1] == rest[k] && parts[k + 1] in parts; }
      LastOfSplit(s[Find(s, '/') + 1..]);
    }
  }

  /** A deliverable name is no directory's and its own canonical name in an archive. */
  lemma {:induction false} DeliverableMember(env: Environment, f: File)
    requires Deliverable(env, f.path)
    ensures var m := Member(f.path, f.data, false); !IsDirectory(m) && NamedAs(env, m, f.path)
  {
    DeliverableNames(env, f.path);
    JoinOfSplit(f.path, '/');
    LastOfSplit(f.path);
  }

  lemma {:induction false} ExpectedAt(files: seq<FileEntry>, path: string)
    requires forall i, j :: 0 <= i < j < |files| ==> files[i].path != files[j].path
    ensures path in Expected(files) <==> exists i :: 0 <= i < |files| && files[i].path == path
    ensures forall i :: 0 <= i < |files| && files[i].path == path ==> path in Expected(files) && Expected(files)[path] == files[i]
  {
    if files != [] {
      var init, last := files[..|files| - 1], files[|files| - 1];
      ExpectedAt(init, path);
      if path in Expected(init) {
        var i :| 0 <= i < |init| && init[i].path == path;
        assert files[i].path == path;
      } else if path == last.path {
        assert files[|files| - 1].path == path;
      }
      forall i | 0 <= i < |files| && files[i].path == path ensures path in Expected(files) && Expected(files)[path] == files[i] {
        if i < |files| - 1 { assert init[i].path == path; }
      }
    }
  }

  lemma {:induction false} FilesOfZip(env: Environment, files: seq<File>)
    requires forall i {:trigger Ships(env, files[i])} :: 0 <= i < |files| ==> Ships(env, files[i])
    ensures FilesOf(ZipOf(files)) == ContentsOf(files)
  {
    if files != [] {
      var init, last := files[..|files| - 1], files[|files| - 1];
      forall i | 0 <= i < |init| ensures Ships(env, init[i]) { assert Ships(env, files[i]); }
      FilesOfZip(env, init);
      assert Ships(env, last);
      DeliverableMember(env, last);
      assert ZipOf(files)[..|files| - 1] == ZipOf(init);
    }
  }

  /** The entries of the manifest tell path, size and digest of the shipped contents. */
  lemma {:induction false} ExpectedContents(env: Environment, files: seq<File>, path: string)
    requires DistinctPaths(files)
    ensures var expected, contents := Expected(EntriesOf(env, files)), ContentsOf(files);
      && (path in expected <==> path in contents)
      && (path in expected ==> expected[path] == EntryOf(env, File(path, contents[path])))
  {
    var entries := EntriesOf(env, files);
    forall i, j | 0 <= i < j < |entries| ensures entries[i].path != entries[j].path {
      assert files[i].path != files[j].path;
    }
    ExpectedAt(entries, path);
    ContentsAt(files, path);
    forall i | 0 <= i < |entries| ensures entries[i].path == files[i].path {}
    if path in ContentsOf(files) {
      var i :| 0 <= i < |files| && files[i].path == path;
      assert entries[i].path == path;
    }
  }

  lemma {:induction false} EntriesShip(env: Environment, files: seq<File>)
    requires DistinctPaths(files) && forall i :: 0 <= i < |files| ==> IsDigest(env.sha(files[i].data))
    ensures ValidEntries(env, EntriesOf(env, files)) <==> forall i {:trigger Ships(env, files[i])} :: 0 <= i < |files| ==> Ships(env, files[i])
  {
    var entries := EntriesOf(env, files);
    forall i | 0 <= i < |files| ensures ValidEntry(env, entries[i]) <==> Ships(env, files[i]) {}
    forall i, j | 0 <= i < j < |entries| ensures entries[i].path != entries[j].path {
      assert files[i].path != files[j].path;
    }
    if ValidEntries(env, entries) {
      forall i | 0 <= i < |files| ensures Ships(env, files[i]) { assert ValidEntry(env, entries[i]); }
    }
    if forall i {:trigger Ships(env, files[i])} :: 0 <= i < |files| ==> Ships(env, files[i]) {
      forall i | 0 <= i < |entries| ensures ValidEntry(env, entries[i]) { assert Ships(env, files[i]); }
    }
  }

  lemma {:induction false} ZipMembersFit(env: Environment, files: seq<File>)
    requires DistinctPaths(files)
    requires forall i {:trigger Ships(env, files[i])} :: 0 <= i < |files| ==> Ships(env, files[i])
    ensures MembersFit(env, ZipOf(files), Expected(EntriesOf(env, files)))
  {
    var zip, expected := ZipOf(files), Expected(EntriesOf(env, files));
    forall i | 0 <= i < |zip| ensures MemberFits(env, zip[i], expected) && NamedAs(env, zip[i], files[i].path) {
      assert Ships(env, files[i]);
      DeliverableMember(env, files[i]);
      ExpectedContents(env, files, files[i].path);
      ContentsAt(files, files[i].path);
    }
    forall i, j | 0 <= i < j < |zip| ensures !SameName(env, zip[i], zip[j]) {
      assert NamedAs(env, zip[i], files[i].path) && NamedAs(env, zip[j], files[j].path);
      assert files[i].path != files[j].path;
    }
  }

  /** The archive built from a delta passes verification against the delta's manifest exactly when the delta can be shipped. */
  lemma {:induction false} BuiltArchiveVerifies(env: Environment, heading: Heading, files: seq<File>)
    requires DistinctPaths(files) && forall i :: 0 <= i < |files| ==> IsDigest(env.sha(files[i].data))
    ensures Verifies(env, ZipOf(files), ManifestFor(env, heading, files)) <==> CanShip(env, heading, files)
  {
    var manifest := ManifestFor(env, heading, files);
    EntriesShip(env, files);
    assert ValidManifest(env, manifest) <==> ValidEntries(env, manifest.files) && files != [] && ValidHeading(heading);
    if ValidEntries(env, manifest.files) {
      ZipMembersFit(env, files);
      FilesOfZip(env, files);
      forall path ensures path in ContentsOf(files) <==> path in Expected(manifest.files) { ExpectedContents(env, files, path); }
      forall path | path in ContentsOf(files) ensures env.sha(ContentsOf(files)[path]) == Expected(manifest.files)[path].sha256 {
        ExpectedContents(env, files, path);
      }
    }
  }

  /** Any archive accepted against the delta's manifest holds exactly the delta's bytes. */
  lemma {:induction false} AcceptedArchiveIsTheDelta(env: Environment, heading: Heading, files: seq<File>, archive: Archive)
    requires DistinctPaths(files) && Verifies(env, archive, ManifestFor(env, heading, files))
    requires CollisionFree(env, ContentsOf(files).Values + FilesOf(archive).Values)
    ensures FilesOf(archive) == ContentsOf(files)
  {
    var actual, expected := FilesOf(archive), Expected(EntriesOf(env, files));
    forall path: string
      ensures path in actual <==> path in ContentsOf(files)
      ensures path in actual ==> actual[path] == ContentsOf(files)[path]
    {
      ExpectedContents(env, files, path);
      if path in actual {
        assert env.sha(actual[path]) == expected[path].sha256;
        assert actual[path] in actual.Values && ContentsOf(files)[path] in ContentsOf(files).Values;
      }
    }
  }

  datatype ExportError = BadBaseline(error: BaselineError) | DeletedFiles | NothingChanged | NotVerified

  datatype Export = Export(archive: Archive, manifest: Manifest)

  lemma {:induction false} NothingDeleted(env: Environment, baseline: map<string, Bytes>, current: seq<File>)
    ensures Sorted(HashesOf(env, baseline).Keys - PathsOf(current)) == [] <==> baseline.Keys <= PathsOf(current)
  {
    var gone := HashesOf(env, baseline).Keys - PathsOf(current);
    assert HashesOf(env, baseline).Keys == baseline.Keys;
    ElementsEmpty(Sorted(gone));
    forall path | path in baseline.Keys && path !in PathsOf(current) ensures path in gone {}
  }

  lemma {:induction false} ChangedDigests(env: Environment, current: seq<File>, baseline: map<string, string>)
    requires DistinctPaths(current) && forall i :: 0 <= i < |current| ==> IsDigest(env.sha(current[i].data))
    ensures var changed := ChangedFiles(env, current, baseline);
      DistinctPaths(changed) && forall i :: 0 <= i < |changed| ==> IsDigest(env.sha(changed[i].data))
  {
    var changed := ChangedFiles(env, current, baseline);
    ChangedAt(env, current, baseline);
    forall i | 0 <= i < |changed| ensures IsDigest(env.sha(changed[i].data)) {
      assert changed[i] in changed;
      var k :| 0 <= k < |current| && current[k] == changed[i];
    }
  }

  /** Extracting the delta's archive over the baseline gives the current files. */
  lemma {:induction false} DeliveryIsCurrent(env: Environment, heading: Heading, baseline: map<string, Bytes>, current: seq<File>)
    requires DistinctPaths(current) && baseline.Keys <= PathsOf(current)
    requires CanShip(env, heading, ChangedFiles(env, current, HashesOf(env, baseline)))
    requires CollisionFree(env, baseline.Values + ContentsOf(current).Values)
    ensures Overlay(baseline, FilesOf(ZipOf(ChangedFiles(env, current, HashesOf(env, baseline))))) == ContentsOf(current)
  {
    FilesOfZip(env, ChangedFiles(env, current, HashesOf(env, baseline)));
    OverlayIsCurrent(env, baseline, current);
  }

  /** Archive and manifest list these files, one by one, and the manifest carries the heading. */
  ghost predicate Describes(env: Environment, heading: Heading, files: seq<File>, archive: Archive, m: Manifest) {
    && m.schemaVersion == 3 && m.archiveMode == "delta" && m.extractionRoot == "." && m.deletedFiles == []
    && m.projectName == heading.projectName && m.baselineSha256 == heading.baselineSha256 && m.instruction == heading.instruction
    && |archive| == |m.files| == |m.changedFiles| == m.fileCount == |files|
    && forall i :: 0 <= i < |files| ==>
         && archive[i].name == m.files[i].path == m.changedFiles[i] == files[i].path
         && archive[i].data == files[i].data && !archive[i].symlink
         && m.files[i].size == |files[i].data| && m.files[i].sha256 == env.sha(files[i].data)
  }

  lemma {:induction false} BuiltDescribes(env: Environment, heading: Heading, files: seq<File>)
    ensures Describes(env, heading, files, ZipOf(files), ManifestFor(env, heading, files))
  {
  }

  /** What each error says. */
  ghost predicate ExportFails(e: ExportError, env: Environment, current: seq<File>, snapshot: Archive) {
    var baseline := BaselineFiles(env, snapshot);
    match e
    case BadBaseline(_) => !Readable(env, snapshot)
    case DeletedFiles => Readable(env, snapshot) && exists path :: path in baseline && path !in PathsOf(current)
    case NothingChanged => forall f :: f in current ==> f.path in baseline && env.sha(baseline[f.path]) == env.sha(f.data)
    case NotVerified => exists f :: f in current && (f.path !in baseline || env.sha(baseline[f.path]) != env.sha(f.data))
  }

  /** A file belongs to the delta if the baseline has no file of its name, or one of another digest. */
  lemma {:induction false} DeltaIsWhatChanged(env: Environment, current: seq<File>, baseline: map<string, Bytes>)
    requires DistinctPaths(current)
    ensures forall f :: f in ChangedFiles(env, current, HashesOf(env, baseline)) <==>
      f in current && (f.path !in baseline || env.sha(baseline[f.path]) != env.sha(f.data))
  {
    ChangedAt(env, current, HashesOf(env, baseline));
    forall f ensures Changed(env, f, HashesOf(env, baseline)) <==> f.path !in baseline || env.sha(baseline[f.path]) != env.sha(f.data) {}
  }

  /** The delta lists its files in the order of the current listing. */
  lemma {:induction false} DeltaKeepsOrder(env: Environment, a: seq<File>, b: seq<File>, baseline: map<string, string>)
    ensures ChangedFiles(env, a + b, baseline) == ChangedFiles(env, a, baseline) + ChangedFiles(env, b, baseline)
  {
    if b == [] {
      assert a + b == a;
    } else {
      assert (a + b)[..|a + b| - 1] == a + b[..|b| - 1];
      DeltaKeepsOrder(env, a, b[..|b| - 1], baseline);
    }
  }

  /** The core of `export_project_zip`: delta, archive, manifest, and the archive's own verification. */
  method ExportProject(env: Environment, heading: Heading, current: seq<File>, snapshot: Archive) returns (r: Result<Export, ExportError>)
    requires DistinctPaths(current) && forall i :: 0 <= i < |current| ==> IsDigest(env.sha(current[i].data))
    ensures r.Success? <==>
      && Readable(env, snapshot) && BaselineFiles(env, snapshot).Keys <= PathsOf(current)
      && CanShip(env, heading, ChangedFiles(env, current, HashesOf(env, BaselineFiles(env, snapshot))))
    ensures r.Success? ==> Verifies(env, r.value.archive, r.value.manifest)
    ensures r.Success? ==>
      Describes(env, heading, ChangedFiles(env, current, HashesOf(env, BaselineFiles(env, snapshot))), r.value.archive, r.value.manifest)
    ensures r.Failure? ==> ExportFails(r.error, env, current, snapshot)
    ensures r.Success? && CollisionFree(env, BaselineFiles(env, snapshot).Values + ContentsOf(current).Values) ==>
      Overlay(BaselineFiles(env, snapshot), FilesOf(r.value.archive)) == ContentsOf(current)
  {
    var read := InspectDelta(env, current, snapshot);
    if read.Failure? { return Failure(BadBaseline(read.error)); }
    var delta := read.value;
    ghost var baseline := BaselineFiles(env, snapshot);
    NothingDeleted(env, baseline, current);
    DeltaIsWhatChanged(env, current, baseline);
    if delta.deleted != [] { return Failure(DeletedFiles); }
    if delta.changed == [] { return Failure(NothingChanged); }
    var archive, manifest := ZipOf(delta.changed), ManifestFor(env, heading, delta.changed);
    ChangedDigests(env, current, HashesOf(env, baseline));
    BuiltArchiveVerifies(env, heading, delta.changed);
    BuiltDescribes(env, heading, delta.changed);
    assert delta.changed[0] in delta.changed;
    var ok := VerifyArchive(env, archive, manifest);
    if !ok { return Failure(NotVerified); }
    if CollisionFree(env, baseline.Values + ContentsOf(current).Values) { DeliveryIsCurrent(env, heading, baseline, current); }
    return Success(Export(archive, manifest));
  }
}
