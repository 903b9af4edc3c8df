/** The review workspace: parsing git's status, and deciding captured changes one by one. */
module ReviewWorkspace {
  import opened Wrappers
  import opened Ordering
  import opened Sorting
  import opened Text
  import opened Paths

  // ---------------------------------------------------------------- git status

  /** A status code of two characters, a path, and for renames and copies the path it came from. */
  datatype Entry = Entry(code: string, path: string, original: Option<string>)

  const NUL := '\0'

  predicate CarriesSource(code: string) {
    'R' in code || 'C' in code
  }

  predicate ByPath(a: Entry, b: Entry) {
    Less(a.path, b.path)
  }

  datatype StatusError = InvalidEntry | MissingSource

  function Prepend(e: Entry, rest: Result<seq<Entry>, StatusError>): Result<seq<Entry>, StatusError> {
    if rest.Success? then Success([e] + rest.value) else rest
  }

  /** Reads the fields between the NULs, skipping empty ones. */
  function ParseFields(raw: seq<string>): Result<seq<Entry>, StatusError> {
    if raw == [] then Success([])
    else if raw[0] == "" then ParseFields(raw[1..])
    else if |raw[0]| < 4 then Failure(InvalidEntry)
    else if !CarriesSource(raw[0][..2]) then Prepend(Entry(raw[0][..2], raw[0][3..], None), ParseFields(raw[1..]))
    else if |raw| == 1 || raw[1] == "" then Failure(MissingSource)
    else Prepend(Entry(raw[0][..2], raw[0][3..], Some(raw[1])), ParseFields(raw[2..]))
  }

  function After(entries: seq<Entry>, rest: Result<seq<Entry>, StatusError>): Result<seq<Entry>, StatusError> {
    if rest.Success? then Success(entries + rest.value) else rest
  }

  lemma {:induction false} AfterPrepend(entries: seq<Entry>, e: Entry, rest: Result<seq<Entry>, StatusError>)
    ensures After(entries, Prepend(e, rest)) == After(entries + [e], rest)
  {
    if rest.Success? { assert entries + ([e] + rest.value) == entries + [e] + rest.value; }
  }

  /** `_parse_status` */
  method ParseStatus(value: string) returns (r: Result<seq<Entry>, StatusError>)
    ensures ParseFields(Split(value, NUL)).Failure? ==> r == Failure(ParseFields(Split(value, NUL)).error)
    ensures ParseFields(Split(value, NUL)).Success? ==> r == Success(StableSort(ParseFields(Split(value, NUL)).value, ByPath))
  {
    var raw := Split(value, NUL);
    var entries: seq<Entry> := [];
    var index := 0;
    assert raw[0..] == raw;
    if ParseFields(raw).Success? { assert [] + ParseFields(raw).value == ParseFields(raw).value; }
    while index < |raw|
      invariant index <= |raw| && ParseFields(raw) == After(entries, ParseFields(raw[index..]))
    {
      var entry := raw[index];
      ghost var rest := raw[index..];
      assert rest[0] == entry && rest[1..] == raw[index + 1..];
      if entry == "" {
        index := index + 1;
        continue;
      }
      if |entry| < 4 { return Failure(InvalidEntry); }
      var code, path := entry[..2], entry[3..];
      var original: Option<string> := None;
      if CarriesSource(code) {
        index := index + 1;
        if index >= |raw| || raw[index] == "" { return Failure(MissingSource); }
        assert rest[1] == raw[index] && rest[2..] == raw[index + 1..];
        original := Some(raw[index]);
      }
      AfterPrepend(entries, Entry(code, path, original), ParseFields(raw[index + 1..]));
      entries := entries + [Entry(code, path, original)];
      index := index + 1;
    }
    assert entries + [] == entries;
    return Success(StableSort(entries, ByPath));
  }

  /** An entry as git prints it. */
  predicate ValidEntry(e: Entry) {
    && |e.code| == 2 && e.path != "" && NUL !in e.code && NUL !in e.path
    && ('R' in e.code || 'C' in e.code <==> e.original.Some?)
    && (e.original.Some? ==> e.original.value != "" && NUL !in e.original.value)
  }

  function FieldsOf(e: Entry): seq<string> {
    [e.code + " " + e.path] + if e.original.Some? then [e.original.value] else []
  }

  function AllFields(entries: seq<Entry>): seq<string> {
    if entries == [] then [] else FieldsOf(entries[0]) + AllFields(entries[1..])
  }

  /** Every field is followed by a NUL. */
  function Terminated(fields: seq<string>): string {
    if fields == [] then "" else fields[0] + [NUL] + Terminated(fields[1..])
  }

  /** The output of `git status --porcelain=v1 -z` for these entries. */
  function Print(entries: seq<Entry>): string {
    Terminated(AllFields(entries))
  }

  lemma {:induction false} SplitTerminated(fields: seq<string>)
    requires forall f :: f in fields ==> NUL !in f
    ensures Split(Terminated(fields), NUL) == fields + [""]
  {
    if fields != [] {
      assert fields[0] in fields;
      SplitTerminated(fields[1..]);
      SplitHead(fields[0], NUL, Terminated(fields[1..]));
      assert [fields[0]] + (fields[1..] + [""]) == fields + [""];
    }
  }

  lemma {:induction false} FieldsHaveNoNul(entries: seq<Entry>)
    requires forall e :: e in entries ==> ValidEntry(e)
    ensures forall f :: f in AllFields(entries) ==> NUL !in f
  {
    if entries != [] {
      assert ValidEntry(entries[0]);
      FieldsHaveNoNul(entries[1..]);
    }
  }

  lemma {:induction false} FieldsParse(entries: seq<Entry>)
    requires forall e :: e in entries ==> ValidEntry(e)
    ensures ParseFields(AllFields(entries) + [""]) == Success(entries)
  {
    if entries == [] {
      assert ParseFields([]) == Success([]);
      assert AllFields(entries) + [""] == [""] && [""][1..] == [];
    } else {
      var e := entries[0];
      assert ValidEntry(e);
      FieldsParse(entries[1..]);
      var rest := AllFields(entries[1..]) + [""];
      var raw := AllFields(entries) + [""];
      assert raw == FieldsOf(e) + rest;
      var field := e.code + " " + e.path;
      assert raw[0] == field && field[..2] == e.code && field[3..] == e.path;
      assert entries == [e] + entries[1..];
      if e.original.Some? {
        assert raw[1] == e.original.value && raw[2..] == rest;
      } else {
        assert raw[1..] == rest;
      }
    }
  }

  lemma {:induction false} ByPathIsOrder()
    ensures StrictWeakOrder(ByPath)
  {
    forall x ensures !ByPath(x, x) { LessIrreflexive(x.path); }
    forall x, y, z | ByPath(x, y) && ByPath(y, z) ensures ByPath(x, z) { LessTransitive(x.path, y.path, z.path); }
    forall x, y, z | ByPath(x, z) ensures ByPath(x, y) || ByPath(y, z) {
      LessTotal(x.path, y.path);
      if Less(y.path, x.path) { LessTransitive(y.path, x.path, z.path); }
    }
  }

  /** The entries of one path, in their order. */
  function WithPath(entries: seq<Entry>, path: string): seq<Entry> {
    if entries == [] then [] else (if entries[0].path == path then [entries[0]] else []) + WithPath(entries[1..], path)
  }

  lemma {:induction false} TiesShareThePath(entries: seq<Entry>, e: Entry)
    ensures Ties(entries, e, ByPath) == WithPath(entries, e.path)
  {
    if entries != [] {
      TiesShareThePath(entries[1..], e);
      LessTotal(e.path, entries[0].path);
      LessIrreflexive(e.path);
    }
  }

  lemma {:induction false} SortingKeepsPathOrder(entries: seq<Entry>, path: string)
    ensures WithPath(StableSort(entries, ByPath), path) == WithPath(entries, path)
  {
    var e := Entry("", path, None);
    ByPathIsOrder();
    StableSortIsStable(entries, e, ByPath);
    TiesShareThePath(entries, e);
    TiesShareThePath(StableSort(entries, ByPath), e);
  }

  /** Parsing what git prints for any list of entries gives the list sorted by path, entries of one path in git's order. */
  lemma {:induction false} StatusRoundTrip(entries: seq<Entry>)
    requires forall e :: e in entries ==> ValidEntry(e)
    ensures ParseFields(Split(Print(entries), NUL)) == Success(entries)
    ensures SortedBy(StableSort(entries, ByPath), ByPath)
    ensures multiset(StableSort(entries, ByPath)) == multiset(entries)
    ensures forall path {:trigger WithPath(entries, path)} :: WithPath(StableSort(entries, ByPath), path) == WithPath(entries, path)
  {
    forall path ensures WithPath(StableSort(entries, ByPath), path) == WithPath(entries, path) {
      SortingKeepsPathOrder(entries, path);
    }
    FieldsHaveNoNul(entries);
    SplitTerminated(AllFields(entries));
    FieldsParse(entries);
    ByPathIsOrder();
    StableSortSorts(entries, ByPath);
  }

  lemma {:induction false} TerminatedFew(x: string, y: string)
    ensures Terminated([x]) == x + "\0" && Terminated([x, y]) == x + "\0" + (y + "\0")
  {
    assert [x, y][1..] == [y] && [y][1..] == [] && [x][1..] == [] && Terminated([]) == "";
  }

  lemma {:induction false} PrintOne(e: Entry)
    ensures Print([e]) == e.code + " " + e.path + "\0" + (if e.original.Some? then e.original.value + "\0" else "")
  {
    var line := e.code + " " + e.path;
    assert [e][1..] == [] && AllFields([]) == [] && AllFields([e]) == FieldsOf(e);
    TerminatedFew(line, if e.original.Some? then e.original.value else "");
    assert FieldsOf(e) == if e.original.Some? then [line, e.original.value] else [line];
    assert line + "\0" + "" == line + "\0";
  }

  /** Renames and copies, as git prints them, read with the path they came from, and other changes without. */
  lemma {:induction false} OneChangeReads(e: Entry)
    requires |e.code| == 2 && NUL !in e.code && e.path != "" && NUL !in e.path
    requires e.original.Some? <==> e.code[0] == 'R' || e.code[0] == 'C' || e.code[1] == 'R' || e.code[1] == 'C'
    requires e.original.Some? ==> e.original.value != "" && NUL !in e.original.value
    ensures ParseFields(Split(e.code + " " + e.path + "\0" + (if e.original.Some? then e.original.value + "\0" else ""), NUL)) == Success([e])
  {
    assert ValidEntry(e);
    StatusRoundTrip([e]);
    PrintOne(e);
  }

  // ---------------------------------------------------------------- reports

  datatype Decision = Pending | Accepted | Reverted

  datatype Status = PendingReview | Complete

  datatype ReviewFile = ReviewFile(
    relativePath: string, gitStatus: string, diffText: string, isBinary: bool, sha256: Option<string>,
    originalPath: Option<string>, decision: Decision)

  datatype Report = Report(reviewId: string, baseRevision: string, status: Status, files: seq<ReviewFile>)

  function Count(files: seq<ReviewFile>, d: Decision): nat {
    if files == [] then 0 else Count(files[..|files| - 1], d) + if files[|files| - 1].decision == d then 1 else 0
  }

  predicate NonePending(files: seq<ReviewFile>) {
    forall i :: 0 <= i < |files| ==> files[i].decision != Pending
  }

  function StatusOf(files: seq<ReviewFile>): Status {
    if NonePending(files) then Complete else PendingReview
  }

  /** What `capture` sees: which paths are reviewable, the diff of an entry, and the digest of a file in the tree. */
  datatype View = View(reviewable: string -> bool, diff: Entry -> (string, bool), digest: string -> Option<string>)

  function Reviewable(view: View, entries: seq<Entry>): seq<Entry> {
    if entries == [] then []
    else
      var e := entries[0];
      var kept := view.reviewable(e.path) && (e.original.Some? ==> view.reviewable(e.original.value));
      (if kept then [e] else []) + Reviewable(view, entries[1..])
  }

  /** `_capture_file` */
  function CaptureFile(view: View, e: Entry): ReviewFile {
    ReviewFile(e.path, e.code, view.diff(e).0, view.diff(e).1, view.digest(e.path), e.original, Pending)
  }

  /** `capture` */
  function Capture(view: View, reviewId: string, revision: string, entries: seq<Entry>): Report {
    var kept := Reviewable(view, entries);
    var files := seq(|kept|, i requires 0 <= i < |kept| => CaptureFile(view, kept[i]));
    Report(reviewId, revision, if files == [] then Complete else PendingReview, files)
  }

  /** A report as it is captured: nothing decided yet. */
  predicate Captured(r: Report) {
    (forall i :: 0 <= i < |r.files| ==> r.files[i].decision == Pending) && r.status == StatusOf(r.files)
  }

  predicate DistinctFiles(files: seq<ReviewFile>) {
    forall i, j :: 0 <= i < j < |files| ==> files[i].relativePath != files[j].relativePath
  }

  function FileAt(files: seq<ReviewFile>, path: string): (i: nat)
    ensures i <= |files| && forall k :: 0 <= k < i ==> files[k].relativePath != path
    ensures i < |files| ==> files[i].relativePath == path
  {
    if files == [] || files[0].relativePath == path then 0 else 1 + FileAt(files[1..], path)
  }

  /** `_replace_file`: every file at the path becomes the updated one. */
  function Replaced(files: seq<ReviewFile>, updated: ReviewFile): (r: seq<ReviewFile>) {
    seq(|files|, i requires 0 <= i < |files| => if files[i].relativePath == updated.relativePath then updated else files[i])
  }

  function Decided(r: Report, path: string, d: Decision): Report
    requires FileAt(r.files, path) < |r.files|
  {
    var files := Replaced(r.files, r.files[FileAt(r.files, path)].(decision := d));
    r.(files := files, status := StatusOf(files))
  }

  predicate CanDecide(r: Report, path: string) {
    FileAt(r.files, path) < |r.files| && r.files[FileAt(r.files, path)].decision == Pending
  }

  /** Everything captured about a file, leaving its decision out. */
  function Captures(f: ReviewFile): ReviewFile {
    f.(decision := Pending)
  }

  // ---------------------------------------------------------------- runs of decisions

  datatype Choice = Choice(path: string, decision: Decision)

  /** `r` is what the choices, one after the other, make of the captured report. */
  ghost predicate Reaches(captured: Report, choices: seq<Choice>, r: Report) {
    if choices == [] then r == captured
    else
      var last := choices[|choices| - 1];
      exists before {:trigger Reaches(captured, choices[..|choices| - 1], before)} ::
        && Reaches(captured, choices[..|choices| - 1], before)
        && CanDecide(before, last.path) && last.decision != Pending && r == Decided(before, last.path, last.decision)
  }

  lemma {:induction false} CountUpdate(files: seq<ReviewFile>, i: nat, f: ReviewFile, d: Decision)
    requires i < |files|
    ensures Count(files[i := f], d) ==
      Count(files, d) - (if files[i].decision == d then 1 else 0) + (if f.decision == d then 1 else 0)
  {
    var init, last := files[..|files| - 1], files[|files| - 1];
    if i == |files| - 1 {
      assert files[i := f][..|files| - 1] == init;
    } else {
      CountUpdate(init, i, f, d);
      assert files[i := f][..|files| - 1] == init[i := f];
    }
  }

  /** What one decision does where paths are distinct: it settles one pending file and touches nothing else. */
  lemma {:induction false} DecidesOne(r: Report, path: string, d: Decision)
    requires DistinctFiles(r.files) && CanDecide(r, path) && d != Pending
    ensures var i, after := FileAt(r.files, path), Decided(r, path, d);
      && after.files == r.files[i := r.files[i].(decision := d)]
      && DistinctFiles(after.files) && after.reviewId == r.reviewId && after.baseRevision == r.baseRevision
      && Count(after.files, Pending) == Count(r.files, Pending) - 1
  {
    var i, after := FileAt(r.files, path), Decided(r, path, d);
    forall k | 0 <= k < |r.files| && k != i ensures r.files[k].relativePath != path {}
    assert after.files == r.files[i := r.files[i].(decision := d)];
    CountUpdate(r.files, i, r.files[i].(decision := d), Pending);
  }

  /** The three counts add up to the number of files. */
  lemma {:induction false} CountsAddUp(files: seq<ReviewFile>)
    ensures Count(files, Pending) + Count(files, Accepted) + Count(files, Reverted) == |files|
    ensures Count(files, Pending) == 0 <==> NonePending(files)
  {
    if files != [] {
      var init, last := files[..|files| - 1], files[|files| - 1];
      CountsAddUp(init);
      if NonePending(files) { assert NonePending(init); }
      if NonePending(init) && last.decision != Pending { assert NonePending(files); }
    }
  }

  /** The decision a run has taken on a path. */
  function ChoiceFor(choices: seq<Choice>, path: string): Decision {
    if choices == [] then Pending
    else
      var last := choices[|choices| - 1];
      if last.path == path then last.decision else ChoiceFor(choices[..|choices| - 1], path)
  }

  /** File `i` has the decision taken for its path and is otherwise as captured. */
  predicate FileAsChosen(captured: Report, choices: seq<Choice>, r: Report, i: nat)
    requires i < |captured.files| == |r.files|
  {
    r.files[i] == captured.files[i].(decision := ChoiceFor(choices, captured.files[i].relativePath))
  }

  /** Choice `k` was taken on a captured path and stands. */
  predicate ChoiceStands(captured: Report, choices: seq<Choice>, k: nat)
    requires k < |choices|
  {
    && FileAt(captured.files, choices[k].path) < |captured.files|
    && ChoiceFor(choices, choices[k].path) == choices[k].decision != Pending
  }

  ghost predicate AsChosen(captured: Report, choices: seq<Choice>, r: Report) {
    && |r.files| == |captured.files| && DistinctFiles(r.files)
    && r.reviewId == captured.reviewId && r.baseRevision == captured.baseRevision
    && (forall i {:trigger FileAsChosen(captured, choices, r, i)} :: 0 <= i < |r.files| ==> FileAsChosen(captured, choices, r, i))
    && (forall k {:trigger ChoiceStands(captured, choices, k)} :: 0 <= k < |choices| ==> ChoiceStands(captured, choices, k))
    && (forall k, m :: 0 <= k < m < |choices| ==> choices[k].path != choices[m].path)
  }

  lemma {:induction false} ChosenStep(captured: Report, init: seq<Choice>, before: Report, last: Choice)
    requires AsChosen(captured, init, before) && CanDecide(before, last.path) && last.decision != Pending
    ensures AsChosen(captured, init + [last], Decided(before, last.path, last.decision))
  {
    var choices, after := init + [last], Decided(before, last.path, last.decision);
    var n := FileAt(before.files, last.path);
    DecidesOne(before, last.path, last.decision);
    assert choices[..|init|] == init;
    assert FileAsChosen(captured, init, before, n);
    forall k | 0 <= k < |init| ensures init[k].path != last.path && ChoiceStands(captured, choices, k) {
      assert ChoiceStands(captured, init, k);
    }
    assert ChoiceStands(captured, choices, |init|);
    forall i | 0 <= i < |after.files| ensures FileAsChosen(captured, choices, after, i) {
      assert FileAsChosen(captured, init, before, i);
      assert i != n ==> before.files[i].relativePath != before.files[n].relativePath;
    }
  }

  lemma {:induction false} NothingDecided(files: seq<ReviewFile>)
    requires forall i :: 0 <= i < |files| ==> files[i].decision == Pending
    ensures Count(files, Pending) == |files|
  {
    if files != [] { NothingDecided(files[..|files| - 1]); }
  }

  /**
   Over any run of decisions on a captured report with distinct paths: no
   path is decided twice, every choice stands, every file is as captured but for
   the decision on its path, one pending file goes with every choice, and the
   report is complete exactly when none is pending.
   */
  lemma {:induction false} DecisionsAreFinal(captured: Report, choices: seq<Choice>, r: Report)
    requires Captured(captured) && DistinctFiles(captured.files) && Reaches(captured, choices, r)
    ensures AsChosen(captured, choices, r)
    ensures Count(r.files, Pending) == |captured.files| - |choices|
    ensures Count(r.files, Accepted) + Count(r.files, Reverted) == |choices|
    ensures r.status == Complete <==> Count(r.files, Pending) == 0
  {
    CountsAddUp(r.files);
    if choices == [] {
      NothingDecided(captured.files);
      forall i | 0 <= i < |r.files| ensures FileAsChosen(captured, choices, r, i) {}
    } else {
      var init, last := choices[..|choices| - 1], choices[|choices| - 1];
      assert choices == init + [last];
      var before :| Reaches(captured, init, before)
        && CanDecide(before, last.path) && last.decision != Pending && r == Decided(before, last.path, last.decision);
      DecisionsAreFinal(captured, init, before);
      ChosenStep(captured, init, before, last);
      DecidesOne(before, last.path, last.decision);
    }
  }

  lemma {:induction false} ReviewableOnly(view: View, entries: seq<Entry>, e: Entry)
    ensures e in Reviewable(view, entries) <==>
      e in entries && view.reviewable(e.path) && (e.original.Some? ==> view.reviewable(e.original.value))
  {
    if entries != [] {
      assert entries == [entries[0]] + entries[1..];
      ReviewableOnly(view, entries[1..], e);
    }
  }

  /** A report captures exactly the reviewable entries, each with what is seen of it, and nothing is decided yet. */
  lemma {:induction false} CaptureIsPending(view: View, reviewId: string, revision: string, entries: seq<Entry>) returns (kept: seq<Entry>)
    ensures forall e :: e in kept <==>
      e in entries && view.reviewable(e.path) && (e.original.Some? ==> view.reviewable(e.original.value))
    ensures var r := Capture(view, reviewId, revision, entries);
      && Captured(r) && r.reviewId == reviewId && r.baseRevision == revision && |r.files| == |kept|
      && forall i :: 0 <= i < |kept| ==>
           && r.files[i].relativePath == kept[i].path && r.files[i].gitStatus == kept[i].code
           && r.files[i].originalPath == kept[i].original && r.files[i].sha256 == view.digest(kept[i].path)
           && (r.files[i].diffText, r.files[i].isBinary) == view.diff(kept[i])
  {
    kept := Reviewable(view, entries);
    var files := Capture(view, reviewId, revision, entries).files;
    assert files != [] ==> files[0].decision == Pending;
    forall e { ReviewableOnly(view, entries, e); }
  }

  /** Deciding a path keeps all that was captured exactly if every entry of the path captures the same as the first one. */
  lemma {:induction false} DecidingKeepsCaptures(r: Report, path: string, d: Decision)
    requires CanDecide(r, path)
    ensures (forall i :: 0 <= i < |r.files| ==> Captures(Decided(r, path, d).files[i]) == Captures(r.files[i]))
      <==> forall i :: 0 <= i < |r.files| && r.files[i].relativePath == path ==>
             Captures(r.files[i]) == Captures(r.files[FileAt(r.files, path)])
  {
    var first, after := r.files[FileAt(r.files, path)], Decided(r, path, d);
    forall i | 0 <= i < |r.files|
      ensures Captures(after.files[i]) == if r.files[i].relativePath == path then Captures(first) else Captures(r.files[i])
    {
    }
  }

  /** What git prints after `git rm --cached a`: the file is deleted from the index and untracked in the tree. */
  const UNCACHED := "D  a\0?? a\0"

  lemma {:induction false} PrintTwo(a: Entry, b: Entry)
    requires a.original.None? && b.original.None?
    ensures Print([a, b]) == a.code + " " + a.path + [NUL] + (b.code + " " + b.path + [NUL])
  {
    assert [a, b][1..] == [b] && [b][1..] == [] && AllFields([]) == [];
    var x, y := a.code + " " + a.path, b.code + " " + b.path;
    assert AllFields([b]) == [y] && AllFields([a, b]) == [x, y];
    assert [x, y][1..] == [y] && [y][1..] == [] && Terminated([]) == "";
    assert Terminated([y]) == y + [NUL] && Terminated([x, y]) == x + [NUL] + (y + [NUL]);
    assert y + [NUL] == b.code + " " + b.path + [NUL];
  }

  lemma {:induction false} SortTwo(a: Entry, b: Entry)
    requires a.path == b.path
    ensures StableSort([a, b], ByPath) == [a, b]
  {
    LessIrreflexive(a.path);
    assert [a, b][..1] == [a] && [a][..0] == [] && StableSort([], ByPath) == [];
    assert StableSort([a], ByPath) == Place(a, [], ByPath) == [a];
    assert [a][1..] == [] && Place(b, [], ByPath) == [b];
    assert StableSort([a, b], ByPath) == Place(b, [a], ByPath) == [a] + [b];
  }

  /** Entries as git prints them for a path it has both removed from the index and found untracked. */
  lemma {:induction false} UncachedParses(a: Entry, b: Entry)
    requires a == Entry("D ", "a", None) && b == Entry("??", "a", None)
    ensures ParseFields(Split(UNCACHED, NUL)) == Success([a, b])
  {
    PrintTwo(a, b);
    assert UNCACHED == a.code + " " + a.path + [NUL] + (b.code + " " + b.path + [NUL]);
    assert ValidEntry(a) && ValidEntry(b);
    StatusRoundTrip([a, b]);
  }

  lemma {:induction false} CaptureTwo(view: View, reviewId: string, revision: string, a: Entry, b: Entry)
    requires a.path == b.path && a.original.None? && b.original.None? && view.reviewable(a.path)
    ensures var r := Capture(view, reviewId, revision, [a, b]);
      r.files == [CaptureFile(view, a), CaptureFile(view, b)] && FileAt(r.files, a.path) == 0 && CanDecide(r, a.path)
  {
    assert [a, b][1..] == [b] && [b][1..] == [] && Reviewable(view, []) == [];
    assert Reviewable(view, [b]) == [b];
    assert Reviewable(view, [a, b]) == [a, b];
  }

  /** There the path is listed twice, and the first decision on it overwrites what was captured of the second entry. */
  lemma {:induction false} DuplicatePathsLoseData(view: View, reviewId: string, revision: string, d: Decision)
    requires view.reviewable("a")
    ensures ParseFields(Split(UNCACHED, NUL)).Success?
    ensures var r := Capture(view, reviewId, revision, StableSort(ParseFields(Split(UNCACHED, NUL)).value, ByPath));
      && CanDecide(r, "a") && |r.files| == 2
      && Captures(Decided(r, "a", d).files[1]) != Captures(r.files[1])
  {
    var a, b := Entry("D ", "a", None), Entry("??", "a", None);
    UncachedParses(a, b);
    SortTwo(a, b);
    CaptureTwo(view, reviewId, revision, a, b);
    var r := Capture(view, reviewId, revision, [a, b]);
    DecidingKeepsCaptures(r, "a", d);
    assert Captures(r.files[1]) == r.files[1] && r.files[1].gitStatus == "??";
    assert Decided(r, "a", d).files[1].gitStatus == "D ";
  }

  // ---------------------------------------------------------------- accept and revert

  datatype ReviewError = NoReport | NoSuchFile | AlreadyDecided | HeadMoved | WorkspaceChanged | SourceReappeared | GitFailed

  /** `git restore --source=HEAD`: the paths become what they are in HEAD, where they may be absent. */
  function Restored(tree: map<string, Bytes>, head: map<string, Bytes>, paths: set<string>): map<string, Bytes> {
    map path | path in tree.Keys + head.Keys && (if path in paths then path in head else path in tree)
      :: if path in paths then head[path] else tree[path]
  }

  function PathsOf(f: ReviewFile): set<string> {
    {f.relativePath} + if f.originalPath.Some? then {f.originalPath.value} else {}
  }

  /** The working tree after a change was reverted. */
  function Undone(tree: map<string, Bytes>, head: map<string, Bytes>, f: ReviewFile): map<string, Bytes> {
    if f.gitStatus == "??" then tree - {f.relativePath} else Restored(tree, head, PathsOf(f))
  }

  predicate SameAt(a: map<string, Bytes>, b: map<string, Bytes>, path: string) {
    (path in a <==> path in b) && (path in a && path in b ==> a[path] == b[path])
  }

  /** The change is to this path: it is the file's own, or the one a tracked file came from. */
  predicate Touches(f: ReviewFile, path: string) {
    path == f.relativePath || (f.gitStatus != "??" && f.originalPath == Some(path))
  }

  /** An untracked file is gone; a changed one and the source of a rename are as in HEAD; all other paths are untouched. */
  lemma {:induction false} RevertTouchesItsPathsOnly(tree: map<string, Bytes>, head: map<string, Bytes>, f: ReviewFile, path: string)
    ensures var after := Undone(tree, head, f);
      && (f.gitStatus == "??" && path == f.relativePath ==> path !in after)
      && (f.gitStatus != "??" && (path == f.relativePath || f.originalPath == Some(path)) ==> SameAt(after, head, path))
      && (path != f.relativePath && (f.gitStatus == "??" || f.originalPath != Some(path)) ==> SameAt(after, tree, path))
  {
  }

  /** The working tree after changes were reverted one after the other. */
  function UndoneAll(tree: map<string, Bytes>, head: map<string, Bytes>, files: seq<ReviewFile>): map<string, Bytes> {
    if files == [] then tree else Undone(UndoneAll(tree, head, files[..|files| - 1]), head, files[|files| - 1])
  }

  function LastTouching(files: seq<ReviewFile>, path: string): Option<ReviewFile> {
    if files == [] then None
    else if Touches(files[|files| - 1], path) then Some(files[|files| - 1])
    else LastTouching(files[..|files| - 1], path)
  }

  /** A path no change touches is as in HEAD from the start; one that an untracked file was last on is not in HEAD. */
  predicate EndsAsHead(tree: map<string, Bytes>, head: map<string, Bytes>, files: seq<ReviewFile>, path: string) {
    match LastTouching(files, path)
    case None => SameAt(tree, head, path)
    case Some(f) => f.gitStatus == "??" ==> path !in head
  }

  lemma {:induction false} RevertsEndAsHead(tree: map<string, Bytes>, head: map<string, Bytes>, files: seq<ReviewFile>, path: string)
    ensures SameAt(UndoneAll(tree, head, files), head, path) <==> EndsAsHead(tree, head, files, path)
  {
    if files != [] {
      var init, last := files[..|files| - 1], files[|files| - 1];
      RevertsEndAsHead(tree, head, init, path);
      RevertTouchesItsPathsOnly(UndoneAll(tree, head, init), head, last, path);
    }
  }

  lemma {:induction false} SameEverywhere(a: map<string, Bytes>, b: map<string, Bytes>)
    ensures a == b <==> forall path {:trigger SameAt(a, b, path)} :: SameAt(a, b, path)
  {
    if forall path {:trigger SameAt(a, b, path)} :: SameAt(a, b, path) {
      forall path ensures path in a <==> path in b { assert SameAt(a, b, path); }
      forall path | path in a && path in b ensures a[path] == b[path] { assert SameAt(a, b, path); }
    }
  }

  /** Reverting changes in turn gives HEAD back exactly if every path ends as in HEAD. */
  lemma {:induction false} RevertingAllGivesHead(tree: map<string, Bytes>, head: map<string, Bytes>, files: seq<ReviewFile>)
    ensures UndoneAll(tree, head, files) == head
      <==> forall path {:trigger EndsAsHead(tree, head, files, path)} :: EndsAsHead(tree, head, files, path)
  {
    forall path ensures SameAt(UndoneAll(tree, head, files), head, path) <==> EndsAsHead(tree, head, files, path) {
      RevertsEndAsHead(tree, head, files, path);
    }
    SameEverywhere(UndoneAll(tree, head, files), head);
  }

  class Workspace {
    const sha: Bytes -> string
    var reports: map<string, Report>
    var revision: string
    var tree: map<string, Bytes>
    var head: map<string, Bytes>

    constructor (sha: Bytes -> string, revision: string, tree: map<string, Bytes>, head: map<string, Bytes>)
      ensures this.sha == sha && this.revision == revision && this.tree == tree && this.head == head && reports == map[]
    {
      this.sha, this.revision, this.tree, this.head, this.reports := sha, revision, tree, head, map[];
    }

    function CurrentSha(path: string): Option<string>
      reads this
    {
      if path in tree then Some(sha(tree[path])) else None
    }

    ghost predicate IsListed(id: string, path: string)
      reads this
    {
      id in reports && exists f :: f in reports[id].files && f.relativePath == path
    }

    ghost predicate IsOpen(id: string, path: string)
      reads this
    {
      id in reports && CanDecide(reports[id], path)
    }

    /** The first file captured at the path. */
    function Listed(id: string, path: string): ReviewFile
      requires id in reports && FileAt(reports[id].files, path) < |reports[id].files|
      reads this
    {
      reports[id].files[FileAt(reports[id].files, path)]
    }

    /** The file at the path is what it was when the report was captured. */
    ghost predicate IsUnchanged(id: string, path: string)
      requires IsOpen(id, path)
      reads this
    {
      if path in tree then Listed(id, path).sha256 == Some(sha(tree[path])) else Listed(id, path).sha256.None?
    }

    ghost predicate SourceIsGone(id: string, path: string)
      requires IsOpen(id, path)
      reads this
    {
      Listed(id, path).originalPath.Some? ==> Listed(id, path).originalPath.value !in tree
    }

    /** A file can be decided if it is pending and neither HEAD, nor the file, nor the source of a rename has changed. */
    ghost predicate MayDecide(id: string, path: string)
      reads this
    {
      IsOpen(id, path) && revision == reports[id].baseRevision && IsUnchanged(id, path) && SourceIsGone(id, path)
    }

    /** What each refusal means; at most one of them applies. */
    ghost predicate Explains(e: ReviewError, id: string, path: string)
      reads this
    {
      match e
      case NoReport => id !in reports
      case NoSuchFile => id in reports && !IsListed(id, path)
      case AlreadyDecided => IsListed(id, path) && !IsOpen(id, path)
      case HeadMoved => IsOpen(id, path) && revision != reports[id].baseRevision
      case WorkspaceChanged => IsOpen(id, path) && revision == reports[id].baseRevision && !IsUnchanged(id, path)
      case SourceReappeared =>
        IsOpen(id, path) && revision == reports[id].baseRevision && IsUnchanged(id, path) && !SourceIsGone(id, path)
      case GitFailed => MayDecide(id, path) && Listed(id, path).gitStatus != "??"
    }

    /** The checks before a decision, in their order. */
    function Refusal(id: string, path: string): (r: Option<ReviewError>)
      reads this
      ensures r.None? <==> MayDecide(id, path)
      ensures r.Some? ==> !r.value.GitFailed? && Explains(r.value, id, path)
    {
      if id !in reports then Some(NoReport)
      else if FileAt(reports[id].files, path) == |reports[id].files| then Some(NoSuchFile)
      else
        var f := Listed(id, path);
        if f.decision != Pending then Some(AlreadyDecided)
        else if revision != reports[id].baseRevision then Some(HeadMoved)
        else if CurrentSha(path) != f.sha256 then Some(WorkspaceChanged)
        else if f.originalPath.Some? && f.originalPath.value in tree then Some(SourceReappeared)
        else None
    }

    method Accept(id: string, path: string) returns (r: Result<Report, ReviewError>)
      modifies this`reports
      ensures r.Success? <==> old(MayDecide(id, path))
      ensures r.Failure? ==> !r.error.GitFailed? && old(Explains(r.error, id, path)) && reports == old(reports)
      ensures r.Success? ==> r.value == Decided(old(reports[id]), path, Accepted) && reports == old(reports)[id := r.value]
    {
      var refusal := Refusal(id, path);
      if refusal.Some? { return Failure(refusal.value); }
      var updated := Decided(reports[id], path, Accepted);
      reports := reports[id := updated];
      return Success(updated);
    }

    /** Git may fail, and then nothing is decided. */
    method Revert(id: string, path: string, gitFails: bool) returns (r: Result<Report, ReviewError>)
      modifies this`reports, this`tree
      ensures r.Success? <==> old(MayDecide(id, path)) && !(gitFails && old(Listed(id, path)).gitStatus != "??")
      ensures r.Failure? ==> old(Explains(r.error, id, path)) && reports == old(reports) && tree == old(tree)
      ensures r.Success? ==> r.value == Decided(old(reports[id]), path, Reverted) && reports == old(reports)[id := r.value]
      ensures r.Success? ==> tree == Undone(old(tree), head, old(Listed(id, path)))
    {
      var refusal := Refusal(id, path);
      if refusal.Some? { return Failure(refusal.value); }
      var file := Listed(id, path);
      if file.gitStatus == "??" {
        tree := tree - {file.relativePath};
      } else {
        if gitFails { return Failure(GitFailed); }
        tree := Restored(tree, head, PathsOf(file));
      }
      var updated := Decided(reports[id], path, Reverted);
      reports := reports[id := updated];
      return Success(updated);
    }
  }
}
