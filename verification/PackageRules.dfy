/** The rules of plugin packages spelled out: the names in a package, the entrypoint, what is accepted and what is unpacked. */
module PackageRules {
  import opened Wrappers
  import opened Text
  import opened Paths
  import opened PluginPackage

  // ---------------------------------------------------------------- the entrypoint

  lemma {:induction false} DottedConcat(a: string, b: string)
    ensures Dotted(a + b) == Dotted(a) + Dotted(b)
  {
  }

  lemma {:induction false} DottedPart(part: string)
    requires '.' !in part
    ensures Dotted(part) == part
  {
  }

  lemma {:induction false} DottedModule(parts: seq<string>)
    requires parts != [] && forall p :: p in parts ==> '.' !in p
    ensures Dotted(Join(parts, '.')) == Join(parts, '/')
  {
    assert parts[0] in parts;
    DottedPart(parts[0]);
    if |parts| > 1 {
      DottedModule(parts[1..]);
      DottedConcat(parts[0] + ".", Join(parts[1..], '.'));
      DottedConcat(parts[0], ".");
    }
  }

  lemma {:induction false} ModuleBeforeColon(name: string, rest: string)
    requires ':' !in name
    ensures ModuleOf(name + ":" + rest) == name
  {
    FindFirst(name, ':', rest);
  }

  /** The entrypoint of a dotted module is the file at the path its parts make, or the package there. */
  lemma {:induction false} EntrypointPath(manifest: Manifest, parts: seq<string>, attribute: string, payload: set<string>)
    requires parts != [] && forall p :: p in parts ==> '.' !in p && ':' !in p
    requires manifest.entrypoint == Join(parts, '.') + ":" + attribute
    ensures HasEntrypoint(manifest, payload) <==>
      "payload/" + Join(parts, '/') + ".py" in payload || "payload/" + Join(parts, '/') + "/__init__.py" in payload
  {
    JoinChars(parts, '.');
    ModuleBeforeColon(Join(parts, '.'), attribute);
    DottedModule(parts);
  }

  // ---------------------------------------------------------------- the members of a package

  /** A built package holds its records, its signature if there is one, its payload in order, and its manifest. */
  lemma {:induction false} WhatIsPacked(codec: Codec, source: Source)
    ensures Package(codec, source) ==
      [Member("RECORD.sha256.json", codec.encodeRecords(RecordsFor(codec, source.payload)), false)]
      + (if source.signature.Some? then [Member("SIGNATURE.json", source.signature.value, false)] else [])
      + seq(|source.payload|, i requires 0 <= i < |source.payload| =>
              Member("payload/" + source.payload[i].path, source.payload[i].data, false))
      + [Member("plugin.json", source.manifest, false)]
    ensures |RecordsFor(codec, source.payload)| == |source.payload|
    ensures forall i :: 0 <= i < |source.payload| ==> var r := RecordsFor(codec, source.payload)[i];
      && r.path == "payload/" + source.payload[i].path && r.sha256 == codec.sha(source.payload[i].data)
      && r.size == |source.payload[i].data|
  {
    assert PayloadMembers(source.payload) == seq(|source.payload|, i requires 0 <= i < |source.payload| =>
      Member("payload/" + source.payload[i].path, source.payload[i].data, false));
  }

  /** A relative path that goes nowhere up and is not empty. */
  predicate StaysBelow(name: string) {
    !("/" <= name) && ".." !in Components(name) && Components(name) != []
  }

  /** A record that tells the truth. */
  predicate TrueRecord(codec: Codec, archive: Archive, r: Record) {
    && StaysBelow(r.path)
    && match Read(archive, r.path)
       case None => false
       case Some(data) => |data| == r.size && codec.sha(data) == r.sha256
  }

  predicate IsPayload(name: string) {
    "payload/" <= name && name[|name| - 1] != '/'
  }

  predicate InPayload(archive: Archive, path: string) {
    IsPayload(path) && exists m :: m in archive && m.name == path
  }

  /** The records are true, one for each path, and tell of exactly the payload. */
  ghost predicate TrueRecords(codec: Codec, archive: Archive, records: seq<Record>) {
    && (forall i {:trigger TrueRecord(codec, archive, records[i])} :: 0 <= i < |records| ==> TrueRecord(codec, archive, records[i]))
    && (forall i, j :: 0 <= i < j < |records| ==> records[i].path != records[j].path)
    && forall path {:trigger InPayload(archive, path)} :: InPayload(archive, path) <==>
         "payload/" <= path && exists i :: 0 <= i < |records| && records[i].path == path
  }

  lemma {:induction false} TrueRecordsAre(codec: Codec, archive: Archive, records: seq<Record>)
    ensures TrueRecords(codec, archive, records) <==>
      RecordsHold(codec, archive, records) && PayloadNames(archive) == RecordedPayload(records)
  {
    forall i | 0 <= i < |records| ensures TrueRecord(codec, archive, records[i]) <==> RecordHolds(codec, archive, records[i]) {}
    forall path ensures InPayload(archive, path) <==> path in PayloadNames(archive) {}
    forall path ensures path in RecordedPayload(records) <==> "payload/" <= path && exists i :: 0 <= i < |records| && records[i].path == path {
      if i :| 0 <= i < |records| && records[i].path == path { assert records[i] in records; }
    }
    if PayloadNames(archive) == RecordedPayload(records) {
      forall path ensures InPayload(archive, path) <==>
        "payload/" <= path && exists i :: 0 <= i < |records| && records[i].path == path
      {
        assert path in PayloadNames(archive) <==> path in RecordedPayload(records);
      }
    }
  }

  // ---------------------------------------------------------------- what is accepted and unpacked

  /** Inspection accepts these packages and no others. */
  lemma {:induction false} WhatPackagesAreAccepted(codec: Codec, archive: Archive, empyVersion: string)
    ensures Accepts(codec, archive, empyVersion) <==>
      var manifest, records, signature :=
        Read(archive, "plugin.json"), Read(archive, "RECORD.sha256.json"), Read(archive, "SIGNATURE.json");
      && (forall m {:trigger StaysBelow(m.name)} :: m in archive ==> StaysBelow(m.name))
      && manifest.Some? && codec.manifest(manifest.value).Some?
      && codec.compatible(empyVersion, codec.manifest(manifest.value).value.empyRequires)
      && records.Some? && codec.records(records.value).Some? && TrueRecords(codec, archive, codec.records(records.value).value)
      && (signature.Some? ==> codec.signature(signature.value))
      && HasEntrypoint(codec.manifest(manifest.value).value, PayloadNames(archive))
  {
    forall m | m in archive ensures StaysBelow(m.name) <==> SafeMember(m.name) {}
    if Read(archive, RECORD).Some? && codec.records(Read(archive, RECORD).value).Some? {
      TrueRecordsAre(codec, archive, codec.records(Read(archive, RECORD).value).value);
    }
  }

  /** These members are unpacked and no others. */
  lemma {:induction false} WhatMayBeUnpacked(name: string)
    ensures MayUnpack(name) <==>
      && !("/" <= name) && ".." !in Components(name)
      && (Components(name) == [] ||
          Components(name)[0] in {"plugin.json", "RECORD.sha256.json", "SIGNATURE.json", "payload"})
  {
  }

  predicate UnpacksTo(m: Member, path: string) {
    Components(m.name) != [] && !IsDirectory(m) && AsPosix(Components(m.name)) == path
  }

  /** At a path lies what the last member that goes there holds; where none goes, nothing does. */
  lemma {:induction false} LastMemberStays(archive: Archive, i: nat, path: string)
    ensures i < |archive| && UnpacksTo(archive[i], path) && (forall j :: i < j < |archive| ==> !UnpacksTo(archive[j], path)) ==>
      path in Unpacked(archive) && Unpacked(archive)[path] == archive[i].data
    ensures (forall j :: 0 <= j < |archive| ==> !UnpacksTo(archive[j], path)) ==> path !in Unpacked(archive)
  {
    if archive != [] {
      var init, last := archive[..|archive| - 1], archive[|archive| - 1];
      LastMemberStays(init, i, path);
      assert forall j :: 0 <= j < |init| ==> init[j] == archive[j];
    }
  }
}
