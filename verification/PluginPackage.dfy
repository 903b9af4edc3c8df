/** Plugin packages: building with integrity records, inspection, and extraction. */
module PluginPackage {
  import opened Wrappers
  import opened Ordering
  import opened Text
  import opened Paths
  import opened StoreModel

  datatype Manifest = Manifest(
    pluginId: string, name: string, version: string, empyRequires: string, entrypoint: string,
    hooks: seq<string>, description: string, capabilities: seq<string>)

  datatype Record = Record(path: string, sha256: string, size: nat)

  /**
   The parts of the environment: SHA-256, the JSON codec for manifests (with
   `from_dict` and `validate`), record files and signatures, and the test whether a
   requirement admits a version of Empy Studio.
   */
  datatype Codec = Codec(
    sha: Bytes -> string,
    manifest: Bytes -> Option<Manifest>,
    records: Bytes -> Option<seq<Record>>,
    encodeRecords: seq<Record> -> Bytes,
    signature: Bytes -> bool,
    compatible: (string, string) -> bool)

  /** Decoding a record file gives back the records it was written from. */
  ghost predicate Faithful(codec: Codec) {
    forall rs :: codec.records(codec.encodeRecords(rs)) == Some(rs)
  }

  const RECORD := "RECORD.sha256.json"
  const SIGNATURE := "SIGNATURE.json"

  /** `_validate_member_name` */
  predicate SafeMember(name: string) {
    !IsAbsolute(name) && ".." !in Components(name) && Components(name) != []
  }

  function ModuleOf(entrypoint: string): string {
    entrypoint[..Find(entrypoint, ':')]
  }

  function Dotted(name: string): string {
    seq(|name|, i requires 0 <= i < |name| => if name[i] == '.' then '/' else name[i])
  }

  predicate IsPayloadFile(name: string) {
    PAYLOAD <= name && name[|name| - 1] != '/'
  }

  /** The entrypoint's module is a file or a package of the payload. */
  predicate HasEntrypoint(manifest: Manifest, payload: set<string>) {
    var base := PAYLOAD + Dotted(ModuleOf(manifest.entrypoint));
    base + ".py" in payload || base + "/__init__.py" in payload
  }

  function PayloadNames(archive: Archive): set<string> {
    set m | m in archive && IsPayloadFile(m.name) :: m.name
  }

  function RecordedPayload(records: seq<Record>): set<string> {
    set r | r in records && PAYLOAD <= r.path :: r.path
  }

  // ---------------------------------------------------------------- inspection

  predicate RecordHolds(codec: Codec, archive: Archive, r: Record) {
    && SafeMember(r.path) && Read(archive, r.path).Some?
    && |Read(archive, r.path).value| == r.size && codec.sha(Read(archive, r.path).value) == r.sha256
  }

  ghost predicate RecordsHold(codec: Codec, archive: Archive, records: seq<Record>) {
    && (forall i :: 0 <= i < |records| ==> RecordHolds(codec, archive, records[i]))
    && forall i, j :: 0 <= i < j < |records| ==> records[i].path != records[j].path
  }

  function ManifestOf(codec: Codec, archive: Archive): Option<Manifest> {
    var raw := Read(archive, MANIFEST);
    if raw.Some? then codec.manifest(raw.value) else None
  }

  function RecordsOf(codec: Codec, archive: Archive): Option<seq<Record>> {
    var raw := Read(archive, RECORD);
    if raw.Some? then codec.records(raw.value) else None
  }

  ghost predicate AllSafe(archive: Archive) {
    forall m {:trigger SafeMember(m.name)} :: m in archive ==> SafeMember(m.name)
  }

  /** The records hold and tell of exactly the payload. */
  ghost predicate Recorded(codec: Codec, archive: Archive) {
    && RecordsOf(codec, archive).Some? && RecordsHold(codec, archive, RecordsOf(codec, archive).value)
    && PayloadNames(archive) == RecordedPayload(RecordsOf(codec, archive).value)
  }

  predicate SignatureReads(codec: Codec, archive: Archive) {
    Read(archive, SIGNATURE).Some? ==> codec.signature(Read(archive, SIGNATURE).value)
  }

  /** What inspection accepts. */
  ghost predicate Accepts(codec: Codec, archive: Archive, empyVersion: string) {
    && AllSafe(archive) && Recorded(codec, archive) && SignatureReads(codec, archive)
    && ManifestOf(codec, archive).Some? && codec.compatible(empyVersion, ManifestOf(codec, archive).value.empyRequires)
    && HasEntrypoint(ManifestOf(codec, archive).value, PayloadNames(archive))
  }

  datatype Inspection = Inspection(manifest: Manifest, records: seq<Record>, signed: bool)

  datatype PackageError =
    | UnsafePath | BadManifest | Incompatible | BadRecords | DuplicateRecord | RecordedFileMissing | SizeMismatch | HashMismatch
    | PayloadMismatch | BadSignature | EntrypointMissing | UnexpectedMember

  /** What is wrong with one record. */
  predicate RecordFails(e: PackageError, codec: Codec, archive: Archive, r: Record) {
    match e
    case UnsafePath => !SafeMember(r.path)
    case RecordedFileMissing => Read(archive, r.path).None?
    case SizeMismatch => Read(archive, r.path).Some? && |Read(archive, r.path).value| != r.size
    case HashMismatch => Read(archive, r.path).Some? && codec.sha(Read(archive, r.path).value) != r.sha256
    case _ => false
  }

  /** What is wrong with the records: one of them, or two of one path. */
  ghost predicate RecordsFail(e: PackageError, codec: Codec, archive: Archive, records: seq<Record>) {
    || (exists k {:trigger RecordFails(e, codec, archive, records[k])} :: 0 <= k < |records| && RecordFails(e, codec, archive, records[k]))
    || (e == DuplicateRecord && exists i, j :: 0 <= i < j < |records| && records[i].path == records[j].path)
  }

  /** What each error of an inspection says about the package. */
  ghost predicate InspectionFails(e: PackageError, codec: Codec, archive: Archive, empyVersion: string) {
    || (RecordsOf(codec, archive).Some? && RecordsFail(e, codec, archive, RecordsOf(codec, archive).value))
    || match e
       case UnsafePath => !AllSafe(archive)
       case BadManifest => ManifestOf(codec, archive).None?
       case Incompatible => ManifestOf(codec, archive).Some? && !codec.compatible(empyVersion, ManifestOf(codec, archive).value.empyRequires)
       case BadRecords => RecordsOf(codec, archive).None?
       case PayloadMismatch =>
         RecordsOf(codec, archive).Some? && PayloadNames(archive) != RecordedPayload(RecordsOf(codec, archive).value)
       case BadSignature => !SignatureReads(codec, archive)
       case EntrypointMissing => ManifestOf(codec, archive).Some? && !HasEntrypoint(ManifestOf(codec, archive).value, PayloadNames(archive))
       case _ => false
  }

  /** The checks of one record, in their order. */
  function RecordFault(codec: Codec, archive: Archive, r: Record): (fault: Option<PackageError>)
    ensures fault.None? <==> RecordHolds(codec, archive, r)
    ensures fault.Some? ==> RecordFails(fault.value, codec, archive, r)
  {
    var data := Read(archive, r.path);
    if !SafeMember(r.path) then Some(UnsafePath)
    else if data.None? then Some(RecordedFileMissing)
    else if |data.value| != r.size then Some(SizeMismatch)
    else if codec.sha(data.value) != r.sha256 then Some(HashMismatch)
    else None
  }

  method CheckRecords(codec: Codec, archive: Archive, entries: seq<Record>) returns (r: Result<seq<Record>, PackageError>)
    ensures r.Success? <==> RecordsHold(codec, archive, entries)
    ensures r.Success? ==> r.value == entries
    ensures r.Failure? ==> RecordsFail(r.error, codec, archive, entries)
  {
    var records: seq<Record> := [];
    var recorded: set<string> := {};
    for i := 0 to |entries|
      invariant records == entries[..i]
      invariant RecordsHold(codec, archive, entries[..i])
      invariant forall k :: 0 <= k < i ==> entries[k].path in recorded
      invariant forall p :: p in recorded ==> exists k :: 0 <= k < i && entries[k].path == p
    {
      var record := entries[i];
      var fault := RecordFault(codec, archive, record);
      if fault == Some(UnsafePath) { return Failure(UnsafePath); }
      if record.path in recorded {
        ghost var k :| 0 <= k < i && entries[k].path == record.path;
        return Failure(DuplicateRecord);
      }
      recorded := recorded + {record.path};
      if fault.Some? { return Failure(fault.value); }
      assert RecordHolds(codec, archive, record);
      records := records + [record];
      assert entries[..i + 1] == entries[..i] + [record];
    }
    assert entries[..|entries|] == entries;
    return Success(records);
  }

  /** `inspect_package` */
  method InspectPackage(codec: Codec, archive: Archive, empyVersion: string) returns (r: Result<Inspection, PackageError>)
    ensures r.Success? <==> Accepts(codec, archive, empyVersion)
    ensures r.Success? ==> Some(r.value.manifest) == ManifestOf(codec, archive)
    ensures r.Success? ==> Some(r.value.records) == RecordsOf(codec, archive)
    ensures r.Success? ==> (r.value.signed <==> Read(archive, SIGNATURE).Some?)
    ensures r.Failure? ==> InspectionFails(r.error, codec, archive, empyVersion)
  {
    for i := 0 to |archive|
      invariant forall k :: 0 <= k < i ==> SafeMember(archive[k].name)
    {
      if !SafeMember(archive[i].name) { return Failure(UnsafePath); }
    }
    var manifest := ManifestOf(codec, archive);
    if manifest.None? { return Failure(BadManifest); }
    if !codec.compatible(empyVersion, manifest.value.empyRequires) { return Failure(Incompatible); }
    var entries := RecordsOf(codec, archive);
    if entries.None? { return Failure(BadRecords); }
    var records := CheckRecords(codec, archive, entries.value);
    if records.Failure? { return Failure(records.error); }
    var payload := PayloadNames(archive);
    if payload != RecordedPayload(records.value) { return Failure(PayloadMismatch); }
    var signature := Read(archive, SIGNATURE);
    if signature.Some? && !codec.signature(signature.value) { return Failure(BadSignature); }
    if !HasEntrypoint(manifest.value, payload) { return Failure(EntrypointMissing); }
    return Success(Inspection(manifest.value, records.value, signature.Some?));
  }

  // ---------------------------------------------------------------- building

  /** A plugin's source: its manifest file and the payload files in sorted order, by path below `payload`. */
  datatype Source = Source(manifest: Bytes, payload: seq<File>, signature: Option<Bytes>)

  predicate IsFilePath(path: string) {
    ArePathParts(Split(path, '/')) && ".." !in Split(path, '/')
  }

  /** A manifest that validates and a payload of at least one file, with paths as a file system has them. */
  ghost predicate ValidSource(codec: Codec, source: Source) {
    && codec.manifest(source.manifest).Some? && source.payload != []
    && (source.signature.Some? ==> codec.signature(source.signature.value))
    && (forall i :: 0 <= i < |source.payload| ==> IsFilePath(source.payload[i].path))
    && forall i, j :: 0 <= i < j < |source.payload| ==> source.payload[i].path != source.payload[j].path
  }

  function RecordOfFile(codec: Codec, f: File): Record {
    Record(PAYLOAD + f.path, codec.sha(f.data), |f.data|)
  }

  /** The integrity records: path, digest and size of every payload file. */
  function RecordsFor(codec: Codec, payload: seq<File>): (r: seq<Record>) {
    seq(|payload|, i requires 0 <= i < |payload| => RecordOfFile(codec, payload[i]))
  }

  function PayloadMembers(payload: seq<File>): (r: Archive) {
    seq(|payload|, i requires 0 <= i < |payload| => Member(PAYLOAD + payload[i].path, payload[i].data, false))
  }

  function SignatureMember(source: Source): Archive {
    if source.signature.Some? then [Member(SIGNATURE, source.signature.value, false)] else []
  }

  /** The members of the package, in the order in which the staged files sort. */
  function Package(codec: Codec, source: Source): Archive {
    [Member(RECORD, codec.encodeRecords(RecordsFor(codec, source.payload)), false)]
    + SignatureMember(source) + PayloadMembers(source.payload) + [Member(MANIFEST, source.manifest, false)]
  }

  /** `build_package` */
  method BuildPackage(codec: Codec, source: Source) returns (r: Result<Archive, PackageError>)
    requires forall i :: 0 <= i < |source.payload| ==> IsFilePath(source.payload[i].path)
    ensures r.Success? <==> codec.manifest(source.manifest).Some? && source.payload != []
    ensures r.Success? ==> r.value == Package(codec, source)
  {
    if codec.manifest(source.manifest).None? { return Failure(BadManifest); }
    if source.payload == [] { return Failure(PayloadMismatch); }
    var records: seq<Record> := [];
    var staged: Archive := [];
    for i := 0 to |source.payload|
      invariant records == RecordsFor(codec, source.payload[..i])
      invariant staged == PayloadMembers(source.payload[..i])
    {
      var file := source.payload[i];
      assert source.payload[..i + 1] == source.payload[..i] + [file];
      records := records + [Record(PAYLOAD + file.path, codec.sha(file.data), |file.data|)];
      staged := staged + [Member(PAYLOAD + file.path, file.data, false)];
    }
    assert source.payload[..|source.payload|] == source.payload;
    var archive := [Member(RECORD, codec.encodeRecords(records), false)];
    if source.signature.Some? {
      archive := archive + [Member(SIGNATURE, source.signature.value, false)];
    }
    return Success(archive + staged + [Member(MANIFEST, source.manifest, false)]);
  }

  // ---------------------------------------------------------------- what was built is accepted

  predicate IsPayloadMember(payload: seq<File>, m: Member, i: nat) {
    i < |payload| && m == Member(PAYLOAD + payload[i].path, payload[i].data, false)
  }

  lemma {:induction false} NamesDiffer(path: string)
    ensures RECORD != SIGNATURE && RECORD != MANIFEST && SIGNATURE != MANIFEST
    ensures PAYLOAD + path != RECORD && PAYLOAD + path != SIGNATURE && PAYLOAD + path != MANIFEST
    ensures !(PAYLOAD <= RECORD) && !(PAYLOAD <= SIGNATURE) && !(PAYLOAD <= MANIFEST)
  {
    assert (PAYLOAD + path)[0] == 'p' && (PAYLOAD + path)[1] == 'a';
    assert RECORD[0] == 'R' && SIGNATURE[0] == 'S' && MANIFEST[1] == 'l' && PAYLOAD[0] == 'p' && PAYLOAD[1] == 'a';
  }

  lemma {:induction false} PayloadMembersAre(payload: seq<File>, m: Member)
    ensures m in PayloadMembers(payload) <==> exists i: nat :: IsPayloadMember(payload, m, i)
  {
    var members := PayloadMembers(payload);
    if m in members {
      var k :| 0 <= k < |members| && members[k] == m;
      assert IsPayloadMember(payload, m, k);
    }
    if i: nat :| IsPayloadMember(payload, m, i) {
      assert members[i] == m;
    }
  }

  lemma {:induction false} InFour(a: Archive, b: Archive, c: Archive, d: Archive, m: Member)
    ensures m in a + b + c + d <==> m in a || m in b || m in c || m in d
  {
  }

  lemma {:induction false} PackageMembers(codec: Codec, source: Source, m: Member)
    ensures m in Package(codec, source) <==>
      || m == Member(RECORD, codec.encodeRecords(RecordsFor(codec, source.payload)), false)
      || (source.signature.Some? && m == Member(SIGNATURE, source.signature.value, false))
      || m == Member(MANIFEST, source.manifest, false)
      || exists i: nat :: IsPayloadMember(source.payload, m, i)
  {
    PayloadMembersAre(source.payload, m);
    InFour([Member(RECORD, codec.encodeRecords(RecordsFor(codec, source.payload)), false)], SignatureMember(source),
           PayloadMembers(source.payload), [Member(MANIFEST, source.manifest, false)], m);
  }

  lemma {:induction false} PackageNamesDistinct(codec: Codec, source: Source)
    requires ValidSource(codec, source)
    ensures DistinctNames(Package(codec, source))
  {
    var all, n := Package(codec, source), 1 + |SignatureMember(source)|;
    forall i | 0 <= i < |source.payload| ensures all[n + i].name == PAYLOAD + source.payload[i].path {}
    forall i, j | 0 <= i < j < |all| ensures all[i].name != all[j].name {
      NamesDiffer(if n <= i < |all| - 1 then source.payload[i - n].path else "");
      NamesDiffer(if n <= j < |all| - 1 then source.payload[j - n].path else "");
      if n <= i && j < |all| - 1 {
        assert (PAYLOAD + source.payload[i - n].path)[|PAYLOAD|..] == source.payload[i - n].path;
        assert (PAYLOAD + source.payload[j - n].path)[|PAYLOAD|..] == source.payload[j - n].path;
      }
    }
  }

  lemma {:induction false} EndsWithPart(path: string)
    requires forall p :: p in Split(path, '/') ==> p != ""
    ensures path != "" && path[|path| - 1] != '/'
    decreases |path|
  {
    if '/' in path {
      var i := Find(path, '/');
      var rest, parts := Split(path[i + 1..], '/'), Split(path, '/');
      forall k | 0 <= k < |rest| ensures rest[k] != "" {
        assert parts[k + 1] == rest[k] && parts[k + 1] in parts;
      }
      EndsWithPart(path[i + 1..]);
    } else {
      assert path in Split(path, '/');
    }
  }

  lemma {:induction false} PayloadIsSafe(path: string)
    requires IsFilePath(path)
    ensures SafeMember(PAYLOAD + path) && IsPayloadFile(PAYLOAD + path)
    ensures Components(PAYLOAD + path) == ["payload"] + Split(path, '/') && AsPosix(Components(PAYLOAD + path)) == PAYLOAD + path
  {
    var parts := ["payload"] + Split(path, '/');
    assert PAYLOAD + path == "payload" + ['/'] + path;
    SplitHead("payload", '/', path);
    forall p | p in parts ensures IsNamed(p) {}
    KeepAll(parts);
    CanonicalPaths(PAYLOAD + path);
    assert (PAYLOAD + path)[0] == 'p';
    JoinOfSplit(path, '/');
    EndsWithPart(path);
  }

  lemma {:induction false} PlainNameIsSafe(name: string)
    requires IsNamed(name) && '/' !in name && name != ".."
    ensures SafeMember(name) && Components(name) == [name] && AsPosix(Components(name)) == name
  {
    assert Split(name, '/') == [name];
    KeepAll([name]);
    assert name[0] in name;
  }

  lemma {:induction false} UnsignedReadsNone(codec: Codec, source: Source)
    requires source.signature.None?
    ensures Read(Package(codec, source), SIGNATURE).None?
  {
    ReadFinds(Package(codec, source), SIGNATURE);
    forall m | m in Package(codec, source) ensures m.name != SIGNATURE {
      PackageMembers(codec, source, m);
      NamesDiffer("");
      if i: nat :| IsPayloadMember(source.payload, m, i) { NamesDiffer(source.payload[i].path); }
    }
  }

  /** Reading the members of a built package back. */
  lemma {:induction false} PackageReads(codec: Codec, source: Source)
    requires ValidSource(codec, source)
    ensures var all := Package(codec, source);
      && Read(all, MANIFEST) == Some(source.manifest) && Read(all, SIGNATURE) == source.signature
      && Read(all, RECORD) == Some(codec.encodeRecords(RecordsFor(codec, source.payload)))
      && forall i :: 0 <= i < |source.payload| ==> Read(all, PAYLOAD + source.payload[i].path) == Some(source.payload[i].data)
  {
    var all := Package(codec, source);
    PackageNamesDistinct(codec, source);
    var record, manifest := Member(RECORD, codec.encodeRecords(RecordsFor(codec, source.payload)), false), Member(MANIFEST, source.manifest, false);
    PackageMembers(codec, source, record);
    PackageMembers(codec, source, manifest);
    ReadOnly(all, record);
    ReadOnly(all, manifest);
    if source.signature.Some? {
      var signature := Member(SIGNATURE, source.signature.value, false);
      PackageMembers(codec, source, signature);
      ReadOnly(all, signature);
    } else {
      UnsignedReadsNone(codec, source);
    }
    forall i | 0 <= i < |source.payload| ensures Read(all, PAYLOAD + source.payload[i].path) == Some(source.payload[i].data) {
      var m := Member(PAYLOAD + source.payload[i].path, source.payload[i].data, false);
      assert IsPayloadMember(source.payload, m, i);
      PackageMembers(codec, source, m);
      ReadOnly(all, m);
    }
  }

  function PayloadPaths(payload: seq<File>): set<string> {
    set i | 0 <= i < |payload| :: PAYLOAD + payload[i].path
  }

  lemma {:induction false} PlainMember(name: string)
    requires name == RECORD || name == SIGNATURE || name == MANIFEST
    ensures SafeMember(name) && !IsPayloadFile(name)
  {
    NamesDiffer("");
    assert '/' !in name && name[0] != '.';
    PlainNameIsSafe(name);
  }

  lemma {:induction false} PackageMemberNames(codec: Codec, source: Source, m: Member)
    requires ValidSource(codec, source) && m in Package(codec, source)
    ensures SafeMember(m.name)
    ensures IsPayloadFile(m.name) ==> m.name in PayloadPaths(source.payload)
  {
    PackageMembers(codec, source, m);
    if i: nat :| IsPayloadMember(source.payload, m, i) {
      PayloadIsSafe(source.payload[i].path);
    } else {
      PlainMember(m.name);
    }
  }

  lemma {:induction false} PackagePayload(codec: Codec, source: Source)
    requires ValidSource(codec, source)
    ensures PayloadNames(Package(codec, source)) == PayloadPaths(source.payload)
  {
    var all := Package(codec, source);
    forall m | m in all ensures IsPayloadFile(m.name) ==> m.name in PayloadPaths(source.payload) {
      PackageMemberNames(codec, source, m);
    }
    forall name | name in PayloadPaths(source.payload) ensures name in PayloadNames(all) {
      var i :| 0 <= i < |source.payload| && name == PAYLOAD + source.payload[i].path;
      var m := Member(name, source.payload[i].data, false);
      assert IsPayloadMember(source.payload, m, i);
      PackageMembers(codec, source, m);
      PayloadIsSafe(source.payload[i].path);
    }
  }

  lemma {:induction false} RecordedPaths(codec: Codec, payload: seq<File>)
    ensures RecordedPayload(RecordsFor(codec, payload)) == PayloadPaths(payload)
  {
    var records := RecordsFor(codec, payload);
    forall name | name in PayloadPaths(payload) ensures name in RecordedPayload(records) {
      var i :| 0 <= i < |payload| && name == PAYLOAD + payload[i].path;
      assert records[i] in records && records[i].path == name;
    }
    forall r | r in records ensures r.path in PayloadPaths(payload) {
      var i :| 0 <= i < |records| && records[i] == r;
      assert r.path == PAYLOAD + payload[i].path;
    }
  }

  lemma {:induction false} PackageRecords(codec: Codec, source: Source)
    requires ValidSource(codec, source)
    ensures RecordsHold(codec, Package(codec, source), RecordsFor(codec, source.payload))
  {
    var all, records := Package(codec, source), RecordsFor(codec, source.payload);
    PackageReads(codec, source);
    forall i | 0 <= i < |records| ensures RecordHolds(codec, all, records[i]) { PayloadIsSafe(source.payload[i].path); }
    forall i, j | 0 <= i < j < |records| ensures records[i].path != records[j].path {
      assert records[i].path[|PAYLOAD|..] == source.payload[i].path && records[j].path[|PAYLOAD|..] == source.payload[j].path;
    }
  }

  lemma {:induction false} PackageIsSafe(codec: Codec, source: Source)
    requires ValidSource(codec, source)
    ensures AllSafe(Package(codec, source))
  {
    forall m | m in Package(codec, source) ensures SafeMember(m.name) { PackageMemberNames(codec, source, m); }
  }

  lemma {:induction false} PackageIsRecorded(codec: Codec, source: Source)
    requires Faithful(codec) && ValidSource(codec, source)
    ensures Recorded(codec, Package(codec, source))
    ensures RecordsOf(codec, Package(codec, source)) == Some(RecordsFor(codec, source.payload))
  {
    PackageReads(codec, source);
    PackagePayload(codec, source);
    RecordedPaths(codec, source.payload);
    PackageRecords(codec, source);
  }

  lemma {:induction false} PackageDecodes(codec: Codec, source: Source)
    requires ValidSource(codec, source)
    ensures ManifestOf(codec, Package(codec, source)) == codec.manifest(source.manifest) && SignatureReads(codec, Package(codec, source))
  {
    PackageReads(codec, source);
  }

  /**
   A package built from a valid source is accepted exactly when its
   requirement admits the version of Empy Studio and the entrypoint's module
   is in the payload; its records are the payload's paths, digests and sizes.
   */
  lemma {:induction false} BuiltPackagesAreAccepted(codec: Codec, source: Source, empyVersion: string)
    requires Faithful(codec) && ValidSource(codec, source)
    ensures var manifest := codec.manifest(source.manifest).value;
      Accepts(codec, Package(codec, source), empyVersion) <==>
        codec.compatible(empyVersion, manifest.empyRequires) && HasEntrypoint(manifest, PayloadPaths(source.payload))
    ensures ManifestOf(codec, Package(codec, source)) == codec.manifest(source.manifest)
    ensures RecordsOf(codec, Package(codec, source)) == Some(RecordsFor(codec, source.payload))
  {
    PackageIsSafe(codec, source);
    PackageIsRecorded(codec, source);
    PackageDecodes(codec, source);
    PackagePayload(codec, source);
  }

  // ---------------------------------------------------------------- extraction

  predicate IsTopLevel(part: string) {
    part == MANIFEST || part == RECORD || part == SIGNATURE || part == "payload"
  }

  predicate MayUnpack(name: string) {
    && !IsAbsolute(name) && ".." !in Components(name)
    && (Components(name) != [] ==> IsTopLevel(Components(name)[0]))
  }

  /** The files that unpacking the members in order leaves. */
  function Unpacked(archive: Archive): map<string, Bytes> {
    if archive == [] then map[]
    else
      var last := archive[|archive| - 1];
      var before := Unpacked(archive[..|archive| - 1]);
      if Components(last.name) == [] || IsDirectory(last) then before
      else before[AsPosix(Components(last.name)) := last.data]
  }

  ghost predicate AllMayUnpack(archive: Archive) {
    forall i {:trigger MayUnpack(archive[i].name)} :: 0 <= i < |archive| ==> MayUnpack(archive[i].name)
  }

  lemma {:induction false} MayUnpackStep(archive: Archive, i: nat)
    requires i < |archive|
    ensures AllMayUnpack(archive[..i + 1]) <==> AllMayUnpack(archive[..i]) && MayUnpack(archive[i].name)
    ensures AllMayUnpack(archive) ==> AllMayUnpack(archive[..i + 1])
  {
    var some, more := archive[..i], archive[..i + 1];
    if AllMayUnpack(more) {
      assert MayUnpack(more[i].name);
      forall k | 0 <= k < |some| ensures MayUnpack(some[k].name) { assert MayUnpack(more[k].name); }
    }
    if AllMayUnpack(some) && MayUnpack(archive[i].name) {
      forall k | 0 <= k < |more| ensures MayUnpack(more[k].name) {
        if k < i { assert MayUnpack(some[k].name); }
      }
    }
    if AllMayUnpack(archive) {
      forall k | 0 <= k < |more| ensures MayUnpack(more[k].name) { assert MayUnpack(archive[k].name); }
    }
  }

  /** One turn of the loop: a directory adds nothing, a file goes to its path. */
  method ExtractMember(m: Member, files: map<string, Bytes>) returns (r: Result<map<string, Bytes>, PackageError>)
    ensures r.Success? <==> MayUnpack(m.name)
    ensures r.Success? ==>
      r.value == if Components(m.name) == [] || IsDirectory(m) then files else files[AsPosix(Components(m.name)) := m.data]
  {
    var parts := Components(m.name);
    if IsAbsolute(m.name) || ".." in parts { return Failure(UnsafePath); }
    if parts == [] { return Success(files); }
    if !IsTopLevel(parts[0]) { return Failure(UnexpectedMember); }
    if IsDirectory(m) { return Success(files); }
    return Success(files[AsPosix(parts) := m.data]);
  }

  /** `_safe_extract_package` */
  method ExtractPackage(archive: Archive) returns (r: Result<Tree, PackageError>)
    ensures r.Success? <==> AllMayUnpack(archive)
    ensures r.Success? ==> r.value == Tree(Unpacked(archive))
  {
    var files: map<string, Bytes> := map[];
    for i := 0 to |archive|
      invariant AllMayUnpack(archive[..i])
      invariant files == Unpacked(archive[..i])
    {
      MayUnpackStep(archive, i);
      assert archive[..i + 1][..i] == archive[..i];
      var more := ExtractMember(archive[i], files);
      if more.Failure? { return Failure(more.error); }
      files := more.value;
    }
    assert archive[..|archive|] == archive;
    return Success(Tree(files));
  }

  /** The member unpacks to a file of its own name. */
  predicate UnpacksAsNamed(m: Member) {
    MayUnpack(m.name) && Components(m.name) != [] && AsPosix(Components(m.name)) == m.name && !IsDirectory(m)
  }

  lemma {:induction false} OneMoreName(init: Archive, last: Member)
    ensures (set m | m in init + [last] :: m.name) == (set m | m in init :: m.name) + {last.name}
  {
    assert last in init + [last];
    forall m ensures m in init + [last] <==> m in init || m == last {}
  }

  lemma {:induction false} OneMoreUnpacked(init: Archive, last: Member)
    requires UnpacksAsNamed(last)
    ensures Unpacked(init + [last]) == Unpacked(init)[last.name := last.data]
  {
    assert (init + [last])[..|init|] == init;
  }

  /** Where every member's name is canonical and no two are the same, unpacking keeps exactly the members. */
  lemma {:induction false} UnpackedCanonical(archive: Archive)
    requires DistinctNames(archive)
    requires forall m {:trigger UnpacksAsNamed(m)} :: m in archive ==> UnpacksAsNamed(m)
    ensures Unpacked(archive).Keys == (set m | m in archive :: m.name)
    ensures forall m :: m in archive ==> Unpacked(archive)[m.name] == m.data
  {
    if archive != [] {
      var init, last := archive[..|archive| - 1], archive[|archive| - 1];
      assert archive == init + [last];
      assert UnpacksAsNamed(last);
      UnpackedCanonical(init);
      OneMoreName(init, last);
      OneMoreUnpacked(init, last);
      forall m | m in init ensures m.name != last.name {
        var i :| 0 <= i < |init| && init[i] == m;
        assert archive[i].name != archive[|archive| - 1].name;
      }
    }
  }

  lemma {:induction false} PlainMayUnpack(name: string)
    requires name == MANIFEST || name == RECORD || name == SIGNATURE
    ensures MayUnpack(name) && Components(name) != [] && AsPosix(Components(name)) == name
  {
    assert name[0] != '/' && name[0] != '.' && '/' !in name;
    PlainNameIsSafe(name);
    assert Components(name)[0] == name;
  }

  lemma {:induction false} PayloadMayUnpack(path: string)
    requires IsFilePath(path)
    ensures MayUnpack(PAYLOAD + path) && Components(PAYLOAD + path) != [] && AsPosix(Components(PAYLOAD + path)) == PAYLOAD + path
  {
    PayloadIsSafe(path);
    assert Components(PAYLOAD + path)[0] == "payload";
  }

  lemma {:induction false} NotADirectory(codec: Codec, source: Source, m: Member)
    requires ValidSource(codec, source) && m in Package(codec, source)
    ensures !IsDirectory(m)
  {
    PackageMembers(codec, source, m);
    if i: nat :| IsPayloadMember(source.payload, m, i) {
      PayloadIsSafe(source.payload[i].path);
    } else {
      assert RECORD[|RECORD| - 1] == 'n' && SIGNATURE[|SIGNATURE| - 1] == 'n' && MANIFEST[|MANIFEST| - 1] == 'n';
    }
  }

  lemma {:induction false} MemberIsCanonical(codec: Codec, source: Source, m: Member)
    requires ValidSource(codec, source) && m in Package(codec, source)
    ensures UnpacksAsNamed(m)
  {
    PackageMembers(codec, source, m);
    NotADirectory(codec, source, m);
    if i: nat :| IsPayloadMember(source.payload, m, i) {
      PayloadMayUnpack(source.payload[i].path);
    } else {
      PlainMayUnpack(m.name);
    }
  }

  lemma {:induction false} PackageIsCanonical(codec: Codec, source: Source)
    requires ValidSource(codec, source)
    ensures forall m {:trigger UnpacksAsNamed(m)} :: m in Package(codec, source) ==> UnpacksAsNamed(m)
  {
    forall m | m in Package(codec, source) ensures UnpacksAsNamed(m) { MemberIsCanonical(codec, source, m); }
  }

  lemma {:induction false} PackageKeys(codec: Codec, source: Source)
    ensures (set m | m in Package(codec, source) :: m.name)
      == PayloadPaths(source.payload) + {MANIFEST, RECORD} + (if source.signature.Some? then {SIGNATURE} else {})
  {
    var names := set m | m in Package(codec, source) :: m.name;
    var expected := PayloadPaths(source.payload) + {MANIFEST, RECORD} + (if source.signature.Some? then {SIGNATURE} else {});
    forall name | name in names ensures name in expected {
      var m :| m in Package(codec, source) && m.name == name;
      PackageMembers(codec, source, m);
      if i: nat :| IsPayloadMember(source.payload, m, i) { assert name == PAYLOAD + source.payload[i].path; }
    }
    forall name | name in expected ensures name in names {
      var m := if name == MANIFEST then Member(MANIFEST, source.manifest, false)
               else if name == RECORD then Member(RECORD, codec.encodeRecords(RecordsFor(codec, source.payload)), false)
               else if source.signature.Some? && name == SIGNATURE then Member(SIGNATURE, source.signature.value, false)
               else
                 var i :| 0 <= i < |source.payload| && name == PAYLOAD + source.payload[i].path;
                 Member(name, source.payload[i].data, false);
      if i :| 0 <= i < |source.payload| && m == Member(PAYLOAD + source.payload[i].path, source.payload[i].data, false) {
        assert IsPayloadMember(source.payload, m, i);
      }
      PackageMembers(codec, source, m);
      assert m in Package(codec, source) && m.name == name;
    }
  }

  /** Unpacking a built package gives back the manifest, the payload and the signature, byte for byte. */
  lemma {:induction false} ExtractionRoundTrip(codec: Codec, source: Source)
    requires ValidSource(codec, source)
    ensures forall m {:trigger UnpacksAsNamed(m)} :: m in Package(codec, source) ==> UnpacksAsNamed(m)
    ensures var files := Unpacked(Package(codec, source));
      && files.Keys == PayloadPaths(source.payload) + {MANIFEST, RECORD} + (if source.signature.Some? then {SIGNATURE} else {})
      && files[MANIFEST] == source.manifest && (source.signature.Some? ==> files[SIGNATURE] == source.signature.value)
      && forall i :: 0 <= i < |source.payload| ==> files[PAYLOAD + source.payload[i].path] == source.payload[i].data
  {
    var all := Package(codec, source);
    PackageNamesDistinct(codec, source);
    PackageIsCanonical(codec, source);
    UnpackedCanonical(all);
    PackageKeys(codec, source);
    PackageMembers(codec, source, Member(MANIFEST, source.manifest, false));
    if source.signature.Some? { PackageMembers(codec, source, Member(SIGNATURE, source.signature.value, false)); }
    forall i | 0 <= i < |source.payload| ensures Unpacked(all)[PAYLOAD + source.payload[i].path] == source.payload[i].data {
      var m := Member(PAYLOAD + source.payload[i].path, source.payload[i].data, false);
      assert IsPayloadMember(source.payload, m, i);
      PackageMembers(codec, source, m);
    }
  }

  // ---------------------------------------------------------------- what was accepted is fit for the store

  lemma {:induction false} LastPart(s: string)
    requires s != "" && s[|s| - 1] != '/'
    ensures var parts := Split(s, '/'); var last := parts[|parts| - 1]; last != "" && last[|last| - 1] == s[|s| - 1]
    decreases |s|
  {
    if '/' in s {
      var rest := s[Find(s, '/') + 1..];
      LastPart(rest);
      assert rest[|rest| - 1] == s[|s| - 1];
      assert Split(s, '/') == [s[..Find(s, '/')]] + Split(rest, '/');
    }
  }

  lemma {:induction false} KeepsLast(parts: seq<string>)
    requires parts != [] && IsNamed(parts[|parts| - 1])
    ensures KeepNamed(parts) != []
  {
    if |parts| > 1 { KeepsLast(parts[1..]); }
  }

  lemma {:induction false} ComponentsBelow(rest: string)
    ensures Components(PAYLOAD + rest) == ["payload"] + KeepNamed(Split(rest, '/'))
  {
    assert PAYLOAD + rest == "payload" + ['/'] + rest;
    SplitHead("payload", '/', rest);
    assert (["payload"] + Split(rest, '/'))[1..] == Split(rest, '/');
  }

  lemma {:induction false} PosixBelow(kept: seq<string>)
    requires kept != []
    ensures PAYLOAD <= AsPosix(["payload"] + kept)
  {
    assert (["payload"] + kept)[1..] == kept;
    assert "payload" + ['/'] == PAYLOAD;
  }

  /** A payload file whose name does not end in a dot is unpacked below `payload`. */
  lemma {:induction false} UnpackedBelowPayload(rest: string)
    requires rest != "" && rest[|rest| - 1] != '/' && rest[|rest| - 1] != '.'
    ensures Components(PAYLOAD + rest) != [] && PAYLOAD <= AsPosix(Components(PAYLOAD + rest))
  {
    ComponentsBelow(rest);
    LastPart(rest);
    KeepsLast(Split(rest, '/'));
    PosixBelow(KeepNamed(Split(rest, '/')));
  }

  lemma {:induction false} UnpackedHas(archive: Archive, m: Member)
    requires m in archive && Components(m.name) != [] && !IsDirectory(m)
    ensures AsPosix(Components(m.name)) in Unpacked(archive)
  {
    var init, last := archive[..|archive| - 1], archive[|archive| - 1];
    assert archive == init + [last];
    if m in init { UnpackedHas(init, m); }
  }

  lemma {:induction false} ManifestUnpacks(archive: Archive)
    requires Read(archive, MANIFEST).Some?
    ensures MANIFEST in Unpacked(archive)
  {
    ReadFinds(archive, MANIFEST);
    var manifest :| manifest in archive && manifest.name == MANIFEST;
    PlainNameIsSafe(MANIFEST);
    assert MANIFEST[|MANIFEST| - 1] == 'n';
    UnpackedHas(archive, manifest);
  }

  lemma {:induction false} ModuleUnpacks(archive: Archive, name: string, ending: string)
    requires PAYLOAD + name + ending in PayloadNames(archive)
    requires ending != "" && ending[|ending| - 1] == 'y'
    ensures HasPayload(Tree(Unpacked(archive)))
  {
    var rest := name + ending;
    assert PAYLOAD + name + ending == PAYLOAD + rest;
    var m :| m in archive && IsPayloadFile(m.name) && m.name == PAYLOAD + rest;
    UnpackedBelowPayload(rest);
    UnpackedHas(archive, m);
  }

  lemma {:induction false} EntrypointUnpacks(archive: Archive, manifest: Manifest)
    requires HasEntrypoint(manifest, PayloadNames(archive))
    ensures HasPayload(Tree(Unpacked(archive)))
  {
    var name := Dotted(ModuleOf(manifest.entrypoint));
    if PAYLOAD + name + ".py" in PayloadNames(archive) {
      ModuleUnpacks(archive, name, ".py");
    } else {
      ModuleUnpacks(archive, name, "/__init__.py");
    }
  }

  /** What inspection accepts unpacks to a manifest and a payload: the store finds it sound. */
  lemma {:induction false} AcceptedIsSound(codec: Codec, archive: Archive, empyVersion: string)
    requires Accepts(codec, archive, empyVersion)
    ensures Sound(Tree(Unpacked(archive)))
  {
    ManifestUnpacks(archive);
    EntrypointUnpacks(archive, ManifestOf(codec, archive).value);
  }
}
