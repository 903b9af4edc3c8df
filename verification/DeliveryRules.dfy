/** The rules of change-only delivery spelled out: which names never leave, which manifests, archives and baselines are accepted, what a delta is. */
module DeliveryRules {
  import opened Wrappers
  import opened Ordering
  import opened Text
  import opened Paths
  import opened ProjectDelivery

  // ---------------------------------------------------------------- names

  predicate SameLetter(c: char, small: char) {
    c == small || ('a' <= small <= 'z' && 'A' <= c <= 'Z' && c - 'A' == small - 'a')
  }

  /** `s` ends in `suffix`, in small letters or capitals. */
  predicate EndsIn(s: string, suffix: string) {
    |suffix| <= |s| && forall i :: 0 <= i < |suffix| ==> SameLetter(s[|s| - |suffix| + i], suffix[i])
  }

  predicate IsImportExcluded(part: string) {
    part in {".DS_Store", ".env", ".empy", ".git", ".idea", ".mypy_cache", ".pytest_cache", ".ruff_cache", ".venv", "__MACOSX",
             "__pycache__", "outputs", "private", "releases", "venv", "work"}
  }

  predicate IsDeliveryExcluded(part: string) {
    part in {"build", ".cache", "coverage", "dist", "node_modules", ".next", ".nuxt", ".parcel-cache", ".svelte-kit", ".tox",
             ".turbo", "vendor"}
  }

  predicate HasExcludedSuffix(part: string) {
    || EndsIn(part, ".pem") || EndsIn(part, ".key") || EndsIn(part, ".p12") || EndsIn(part, ".pfx") || EndsIn(part, ".jks")
    || EndsIn(part, ".keystore") || EndsIn(part, ".map") || EndsIn(part, ".min.css") || EndsIn(part, ".min.js") || EndsIn(part, ".zip")
  }

  /** A part of a path that is not even imported. */
  predicate NeverImported(part: string) {
    IsImportExcluded(part) || ".env." <= part || HasExcludedSuffix(part)
  }

  /** A part of a path that is not delivered. */
  predicate NeverDelivered(part: string) {
    NeverImported(part) || IsDeliveryExcluded(part)
  }

  lemma {:induction false} SuffixIgnoresCase(s: string, suffix: string)
    requires forall i :: 0 <= i < |suffix| ==> !('A' <= suffix[i] <= 'Z')
    ensures EndsWith(s, suffix) <==> EndsIn(s, suffix)
  {
    forall i | 0 <= i < |suffix| && |suffix| <= |s|
      ensures LowerChar(s[|s| - |suffix| + i]) == suffix[i] <==> SameLetter(s[|s| - |suffix| + i], suffix[i])
    {
    }
  }

  lemma {:induction false} SuffixesAreSmall(k: nat)
    requires k < |EXCLUDED_SUFFIXES|
    ensures forall i :: 0 <= i < |EXCLUDED_SUFFIXES[k]| ==> !('A' <= EXCLUDED_SUFFIXES[k][i] <= 'Z')
  {
    assert k in {0, 1, 2, 3, 4, 5, 6, 7, 8, 9};
  }

  predicate EndsInOne(part: string, suffixes: seq<string>) {
    exists k :: 0 <= k < |suffixes| && EndsIn(part, suffixes[k])
  }

  lemma {:induction false} ExcludedSuffixes(part: string)
    ensures (exists suffix :: suffix in EXCLUDED_SUFFIXES && EndsWith(part, suffix)) <==> EndsInOne(part, EXCLUDED_SUFFIXES)
  {
    forall k | 0 <= k < |EXCLUDED_SUFFIXES| ensures EndsWith(part, EXCLUDED_SUFFIXES[k]) <==> EndsIn(part, EXCLUDED_SUFFIXES[k]) {
      SuffixesAreSmall(k);
      SuffixIgnoresCase(part, EXCLUDED_SUFFIXES[k]);
    }
    forall k | 0 <= k < |EXCLUDED_SUFFIXES| ensures EXCLUDED_SUFFIXES[k] in EXCLUDED_SUFFIXES {}
  }

  lemma {:induction false} TenSuffixes(part: string, s: seq<string>)
    requires |s| == 10
    ensures EndsInOne(part, s) <==>
      || EndsIn(part, s[0]) || EndsIn(part, s[1]) || EndsIn(part, s[2]) || EndsIn(part, s[3]) || EndsIn(part, s[4])
      || EndsIn(part, s[5]) || EndsIn(part, s[6]) || EndsIn(part, s[7]) || EndsIn(part, s[8]) || EndsIn(part, s[9])
  {
    if EndsInOne(part, s) {
      var k :| 0 <= k < |s| && EndsIn(part, s[k]);
      assert k in {0, 1, 2, 3, 4, 5, 6, 7, 8, 9};
    }
  }

  lemma {:induction false} ExcludedBySuffix(part: string)
    ensures (exists suffix :: suffix in EXCLUDED_SUFFIXES && EndsWith(part, suffix)) <==> HasExcludedSuffix(part)
  {
    ExcludedSuffixes(part);
    TenSuffixes(part, EXCLUDED_SUFFIXES);
  }

  lemma {:induction false} ExcludedByName(part: string)
    ensures part in IMPORT_EXCLUDED <==> IsImportExcluded(part)
    ensures part in DELIVERY_EXCLUDED <==> IsImportExcluded(part) || IsDeliveryExcluded(part)
  {
  }

  /** The names and suffixes of the code are these. */
  lemma {:induction false} ExcludedParts(part: string)
    ensures ExcludedPart(part, IMPORT_EXCLUDED) <==> NeverImported(part)
    ensures ExcludedPart(part, DELIVERY_EXCLUDED) <==> NeverDelivered(part)
  {
    ExcludedBySuffix(part);
    ExcludedByName(part);
  }

  /** Exactly these names are delivered, whatever is written in place of the names and suffixes above. */
  lemma {:induction false} WhatIsDelivered(env: Environment, name: string)
    ensures Deliverable(env, name) <==>
      && ArePathParts(Split(name, '/')) && ".." !in Split(name, '/')
      && '\\' !in name && '\0' !in name && (|name| >= 2 ==> name[1] != ':')
      && !env.sensitive(Split(name, '/')) && forall part :: part in Split(name, '/') ==> !NeverDelivered(part)
  {
    DeliverableNames(env, name);
    forall part ensures ExcludedPart(part, DELIVERY_EXCLUDED) <==> NeverDelivered(part) { ExcludedParts(part); }
  }

  /** The parts of an imported name that are looked at: a project's verification contract is let through. */
  function ImportedParts(parts: seq<string>): seq<string> {
    if |parts| >= 2 && parts[|parts| - 2] == ".empy" && parts[|parts| - 1] == "verification.json" then parts[..|parts| - 2] else parts
  }

  /** A name in its canonical form is part of the baseline exactly if it is deliverable. */
  lemma {:induction false} WhatIsInTheBaseline(env: Environment, m: Member)
    requires '\\' !in m.name && m.name != "." && AsPosix(Components(m.name)) == m.name && !IsDirectory(m)
    ensures InBaselineAs(env, m, m.name) <==> Deliverable(env, m.name)
    ensures BaselineFits(env, m) <==>
      && '\0' !in m.name && !("/" <= m.name) && (|m.name| >= 2 ==> m.name[1] != ':')
      && ".." !in Split(m.name, '/') && !env.sensitive(Split(m.name, '/'))
      && (forall part :: part in ImportedParts(Split(m.name, '/')) ==> !NeverImported(part))
      && !m.symlink && |m.data| <= 67108864
  {
    var parts := Split(m.name, '/');
    assert Slashed(m.name) == m.name;
    CanonicalPaths(m.name);
    KeepAll(parts);
    forall part ensures ExcludedPart(part, IMPORT_EXCLUDED) <==> NeverImported(part) { ExcludedParts(part); }
    forall part | ExcludedPart(part, IMPORT_EXCLUDED) ensures ExcludedPart(part, DELIVERY_EXCLUDED) { ExcludedParts(part); }
  }

  /** One member more: it is stored under its name if it has one. */
  ghost predicate Stored(files: nat -> map<string, Bytes>, names: nat -> Option<string>, data: nat -> Bytes, k: nat) {
    files(k + 1) == if names(k).Some? then files(k)[names(k).value := data(k)] else files(k)
  }

  /** What is stored under a name stays until the name comes again. */
  lemma {:induction false} StaysStored(files: nat -> map<string, Bytes>, names: nat -> Option<string>, data: nat -> Bytes, i: nat, n: nat)
    requires i <= n && names(i).Some?
    requires forall k: nat {:trigger Stored(files, names, data, k)} :: k <= n ==> Stored(files, names, data, k)
    requires forall k: nat :: i < k <= n ==> names(k) != names(i)
    ensures names(i).value in files(n + 1) && files(n + 1)[names(i).value] == data(i)
  {
    assert Stored(files, names, data, n);
    if i < n { StaysStored(files, names, data, i, n - 1); }
  }

  /** The name under which a member is stored. */
  function StoredAs(env: Environment, m: Member): Option<string> {
    if InBaseline(env, m) then BaselineName(env, m) else None
  }

  lemma {:induction false} BaselineStep(env: Environment, snapshot: Archive, k: nat)
    requires k < |snapshot|
    ensures BaselineFiles(env, snapshot[..k + 1]) == var before := BaselineFiles(env, snapshot[..k]);
      if StoredAs(env, snapshot[k]).Some? then before[StoredAs(env, snapshot[k]).value := snapshot[k].data] else before
  {
    assert snapshot[..k + 1][..k] == snapshot[..k];
  }

  lemma {:induction false} NotRepeated(env: Environment, snapshot: Archive, i: nat, k: nat)
    requires Readable(env, snapshot) && i < k < |snapshot| && InBaseline(env, snapshot[i])
    ensures StoredAs(env, snapshot[k]) != StoredAs(env, snapshot[i])
  {
    assert !Repeats(env, snapshot[i], snapshot[k]);
  }

  /** The last member stored under a name is the one that is found there. */
  lemma {:induction false} LastStoredIsFound(env: Environment, snapshot: Archive, i: nat)
    requires i < |snapshot| && StoredAs(env, snapshot[i]).Some?
    requires forall k: nat {:trigger snapshot[k]} :: i < k < |snapshot| ==> StoredAs(env, snapshot[k]) != StoredAs(env, snapshot[i])
    ensures var files, name := BaselineFiles(env, snapshot[..|snapshot|]), StoredAs(env, snapshot[i]).value;
      name in files && files[name] == snapshot[i].data
  {
    var files := (k: nat) => if k <= |snapshot| then BaselineFiles(env, snapshot[..k]) else map[];
    var names := (k: nat) => if k < |snapshot| then StoredAs(env, snapshot[k]) else None;
    var data := (k: nat) => if k < |snapshot| then snapshot[k].data else [];
    forall k: nat | k < |snapshot| ensures Stored(files, names, data, k) { BaselineStep(env, snapshot, k); }
    StaysStored(files, names, data, i, |snapshot| - 1);
  }

  /** A readable baseline holds the bytes of its deliverable files. */
  lemma {:induction false} BaselineHolds(env: Environment, snapshot: Archive, i: nat, name: string)
    requires Readable(env, snapshot) && i < |snapshot| && InBaselineAs(env, snapshot[i], name)
    ensures name in BaselineFiles(env, snapshot) && BaselineFiles(env, snapshot)[name] == snapshot[i].data
  {
    forall k: nat | i < k < |snapshot| ensures StoredAs(env, snapshot[k]) != StoredAs(env, snapshot[i]) {
      NotRepeated(env, snapshot, i, k);
    }
    LastStoredIsFound(env, snapshot, i);
    assert snapshot[..|snapshot|] == snapshot;
  }

  // ---------------------------------------------------------------- manifests

  predicate IsHex(s: string) {
    |s| == 64 && forall i :: 0 <= i < 64 ==> '0' <= s[i] <= '9' || 'a' <= s[i] <= 'f'
  }

  predicate AcceptedEntry(env: Environment, e: FileEntry) {
    Deliverable(env, e.path) && 0 <= e.size <= 67108864 && IsHex(e.sha256)
  }

  /** A deliverable name; the code lets the project root through as well. */
  predicate MayBeDeleted(env: Environment, name: string) {
    Deliverable(env, name) || (name == "." && !env.sensitive([]))
  }

  /** A manifest as it must be, field by field. */
  ghost predicate AcceptedManifest(env: Environment, m: Manifest) {
    && m.schemaVersion == 3 && m.archiveMode == "delta" && m.extractionRoot == "."
    && Strip(m.projectName) != "" && |m.projectName| <= 255
    && |m.files| == |m.changedFiles| == m.fileCount && m.fileCount >= 1
    && (forall i {:trigger AcceptedEntry(env, m.files[i])} :: 0 <= i < |m.files| ==> AcceptedEntry(env, m.files[i]))
    && (forall i, j :: 0 <= i < j < |m.files| ==> m.files[i].path != m.files[j].path)
    && (forall i :: 0 <= i < |m.files| ==> m.changedFiles[i] == m.files[i].path)
    && (forall i {:trigger MayBeDeleted(env, m.deletedFiles[i])} :: 0 <= i < |m.deletedFiles| ==> MayBeDeleted(env, m.deletedFiles[i]))
    && (forall i, j :: 0 <= i < j < |m.deletedFiles| ==> m.deletedFiles[i] != m.deletedFiles[j])
    && (forall i, j :: 0 <= i < |m.deletedFiles| && 0 <= j < |m.files| ==> m.deletedFiles[i] != m.files[j].path)
    && IsHex(m.baselineSha256) && Strip(m.instruction) != "" && |m.instruction| <= 4096
  }

  lemma {:induction false} SafelyNamedIs(env: Environment, name: string)
    ensures SafelyNamed(env, name) <==> MayBeDeleted(env, name)
  {
    var dot := ".";
    assert Slashed(dot) == dot && Split(dot, '/') == [dot] && [dot][1..] == [] && KeepNamed([dot]) == KeepNamed([]);
    assert Components(dot) == [];
    if SafelyNamed(env, name) && !Deliverable(env, name) { assert name == "."; }
  }

  lemma {:induction false} NotShipped(deleted: seq<string>, files: seq<FileEntry>)
    ensures (forall i :: 0 <= i < |deleted| ==> deleted[i] !in EntryPaths(files)) <==>
      forall i, j :: 0 <= i < |deleted| && 0 <= j < |files| ==> deleted[i] != files[j].path
  {
    var paths := EntryPaths(files);
    assert forall j :: 0 <= j < |files| ==> paths[j] == files[j].path && paths[j] in paths;
  }

  lemma {:induction false} AllMayBeDeleted(env: Environment, deleted: seq<string>)
    ensures (forall i {:trigger SafelyNamed(env, deleted[i])} :: 0 <= i < |deleted| ==> SafelyNamed(env, deleted[i])) <==>
      forall i {:trigger MayBeDeleted(env, deleted[i])} :: 0 <= i < |deleted| ==> MayBeDeleted(env, deleted[i])
  {
    forall i | 0 <= i < |deleted| ensures SafelyNamed(env, deleted[i]) <==> MayBeDeleted(env, deleted[i]) { SafelyNamedIs(env, deleted[i]); }
  }

  lemma {:induction false} AllAreAccepted(env: Environment, files: seq<FileEntry>)
    ensures (forall i {:trigger ValidEntry(env, files[i])} :: 0 <= i < |files| ==> ValidEntry(env, files[i])) <==>
      forall i {:trigger AcceptedEntry(env, files[i])} :: 0 <= i < |files| ==> AcceptedEntry(env, files[i])
  {
    forall i | 0 <= i < |files| ensures ValidEntry(env, files[i]) <==> AcceptedEntry(env, files[i]) {}
  }

  /** Validation accepts these manifests and no others. */
  lemma {:induction false} WhatManifestsAreAccepted(env: Environment, m: Manifest)
    ensures ValidManifest(env, m) <==> AcceptedManifest(env, m)
  {
    AllAreAccepted(env, m.files);
    AllMayBeDeleted(env, m.deletedFiles);
    NotShipped(m.deletedFiles, m.files);
    assert |EntryPaths(m.files)| == |m.files|;
    if AcceptedManifest(env, m) { assert m.changedFiles == EntryPaths(m.files); }
  }

  // ---------------------------------------------------------------- archives

  /** The file is listed with its size and its digest. */
  predicate Listed(env: Environment, files: seq<FileEntry>, m: Member) {
    exists k :: 0 <= k < |files| && files[k].path == m.name && files[k].size == |m.data| && files[k].sha256 == env.sha(m.data)
  }

  predicate AcceptedMember(env: Environment, files: seq<FileEntry>, m: Member) {
    && CanonicalName(env, m).Some?
    && (!IsDirectory(m) ==> !m.symlink && |m.data| <= 67108864 && Listed(env, files, m))
  }

  predicate HoldsFile(archive: Archive, path: string) {
    exists i :: 0 <= i < |archive| && !IsDirectory(archive[i]) && archive[i].name == path
  }

  /** An archive as it must be: members that fit, none twice, nothing missing, not too much. */
  ghost predicate AcceptedArchive(env: Environment, archive: Archive, files: seq<FileEntry>) {
    && (forall i {:trigger AcceptedMember(env, files, archive[i])} :: 0 <= i < |archive| ==> AcceptedMember(env, files, archive[i]))
    && (forall i, j {:trigger SameName(env, archive[i], archive[j])} :: 0 <= i < j < |archive| ==> !SameName(env, archive[i], archive[j]))
    && (forall k :: 0 <= k < |files| ==> HoldsFile(archive, files[k].path))
    && TotalBytes(archive) <= 536870912
  }

  predicate Canonical(env: Environment, m: Member) {
    CanonicalName(env, m).Some?
  }

  lemma {:induction false} HoldsOneMore(init: Archive, last: Member, path: string)
    ensures HoldsFile(init + [last], path) <==> HoldsFile(init, path) || (!IsDirectory(last) && last.name == path)
  {
    var archive := init + [last];
    if HoldsFile(init, path) {
      var i :| 0 <= i < |init| && !IsDirectory(init[i]) && init[i].name == path;
      assert archive[i] == init[i];
    }
    assert archive[|init|] == last;
  }

  /** The files collected from an archive: each under its name, and nothing else. */
  ghost predicate AreFilesOf(archive: Archive, files: map<string, Bytes>) {
    && (forall i :: 0 <= i < |archive| && !IsDirectory(archive[i]) ==>
          archive[i].name in files && files[archive[i].name] == archive[i].data)
    && forall path {:trigger HoldsFile(archive, path)} :: path in files <==> HoldsFile(archive, path)
  }

  lemma {:induction false} OneMoreFile(init: Archive, last: Member, files: map<string, Bytes>)
    requires AreFilesOf(init, files)
    requires forall i :: 0 <= i < |init| && !IsDirectory(init[i]) && !IsDirectory(last) ==> init[i].name != last.name
    ensures AreFilesOf(init + [last], if IsDirectory(last) then files else files[last.name := last.data])
  {
    var archive, after := init + [last], if IsDirectory(last) then files else files[last.name := last.data];
    forall path ensures path in after <==> HoldsFile(archive, path) { HoldsOneMore(init, last, path); }
    forall i | 0 <= i < |archive| && !IsDirectory(archive[i]) ensures archive[i].name in after && after[archive[i].name] == archive[i].data {
      assert i < |init| ==> archive[i] == init[i];
    }
  }

  /** With canonical names that differ, the files of an archive are its members that are files. */
  lemma {:induction false} FilesAre(env: Environment, archive: Archive)
    requires forall i {:trigger Canonical(env, archive[i])} :: 0 <= i < |archive| ==> Canonical(env, archive[i])
    requires forall i, j {:trigger SameName(env, archive[i], archive[j])} :: 0 <= i < j < |archive| ==> !SameName(env, archive[i], archive[j])
    ensures AreFilesOf(archive, FilesOf(archive))
  {
    if archive != [] {
      var init, last := archive[..|archive| - 1], archive[|archive| - 1];
      assert archive == init + [last];
      forall i | 0 <= i < |init| ensures Canonical(env, init[i]) { assert Canonical(env, archive[i]); }
      forall i, j | 0 <= i < j < |init| ensures !SameName(env, init[i], init[j]) { assert !SameName(env, archive[i], archive[j]); }
      FilesAre(env, init);
      forall i | 0 <= i < |init| && !IsDirectory(init[i]) && !IsDirectory(last) ensures init[i].name != last.name {
        assert Canonical(env, archive[i]) && Canonical(env, archive[|init|]);
        assert !SameName(env, archive[i], archive[|init|]);
      }
      OneMoreFile(init, last, FilesOf(init));
    } else {
      forall path ensures !HoldsFile(archive, path) {}
    }
  }

  ghost predicate DistinctEntries(files: seq<FileEntry>) {
    forall i, j :: 0 <= i < j < |files| ==> files[i].path != files[j].path
  }

  lemma {:induction false} ListedIsExpected(env: Environment, files: seq<FileEntry>, m: Member)
    requires DistinctEntries(files)
    ensures Listed(env, files, m) <==>
      m.name in Expected(files) && Expected(files)[m.name].size == |m.data| && Expected(files)[m.name].sha256 == env.sha(m.data)
  {
    ExpectedAt(files, m.name);
  }

  lemma {:induction false} VerifiedIsAccepted(env: Environment, archive: Archive, files: seq<FileEntry>)
    requires DistinctEntries(files)
    requires MembersFit(env, archive, Expected(files)) && TotalBytes(archive) <= MAX_TOTAL_BYTES
    requires HashesMatch(env, FilesOf(archive), Expected(files))
    ensures AcceptedArchive(env, archive, files)
  {
    forall i | 0 <= i < |archive| ensures Canonical(env, archive[i]) { assert MemberFits(env, archive[i], Expected(files)); }
    FilesAre(env, archive);
    forall i | 0 <= i < |archive| ensures AcceptedMember(env, files, archive[i]) {
      assert MemberFits(env, archive[i], Expected(files));
      ListedIsExpected(env, files, archive[i]);
    }
    forall k | 0 <= k < |files| ensures HoldsFile(archive, files[k].path) {
      ExpectedAt(files, files[k].path);
      assert files[k].path in FilesOf(archive) <==> HoldsFile(archive, files[k].path);
    }
  }

  lemma {:induction false} AcceptedVerifies(env: Environment, archive: Archive, files: seq<FileEntry>)
    requires DistinctEntries(files) && AcceptedArchive(env, archive, files)
    ensures MembersFit(env, archive, Expected(files)) && HashesMatch(env, FilesOf(archive), Expected(files))
  {
    forall i | 0 <= i < |archive| ensures Canonical(env, archive[i]) && MemberFits(env, archive[i], Expected(files)) {
      assert AcceptedMember(env, files, archive[i]);
      ListedIsExpected(env, files, archive[i]);
    }
    FilesAre(env, archive);
    forall path
      ensures path in FilesOf(archive) <==> path in Expected(files)
      ensures path in FilesOf(archive) && path in Expected(files) ==> env.sha(FilesOf(archive)[path]) == Expected(files)[path].sha256
    {
      ExpectedAt(files, path);
      assert path in FilesOf(archive) <==> HoldsFile(archive, path);
      if path in FilesOf(archive) {
        var i :| 0 <= i < |archive| && !IsDirectory(archive[i]) && archive[i].name == path;
        assert AcceptedMember(env, files, archive[i]);
        ListedIsExpected(env, files, archive[i]);
      }
    }
  }

  /** Verification accepts these archives and no others. */
  lemma {:induction false} WhatArchivesAreAccepted(env: Environment, archive: Archive, m: Manifest)
    ensures Verifies(env, archive, m) <==> AcceptedManifest(env, m) && AcceptedArchive(env, archive, m.files)
  {
    WhatManifestsAreAccepted(env, m);
    if AcceptedManifest(env, m) {
      if Verifies(env, archive, m) { VerifiedIsAccepted(env, archive, m.files); }
      if AcceptedArchive(env, archive, m.files) { AcceptedVerifies(env, archive, m.files); }
    }
  }
}
