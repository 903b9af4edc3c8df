/** The changelog validator: headings, release dates, sections and the order of releases. */
module Changelog {
  import opened Wrappers
  import opened Text
  import opened Calendar
  import opened ReleaseVersion

  // ---------------------------------------------------------------- headings

  const UNRELEASED := "## [Unreleased]"

  const OPENING := "## ["

  const SEPARATOR := " - "

  /** The release heading pattern: the version between the brackets, then perhaps a date. */
  ghost predicate MatchesHeading(s: string, version: string, date: Option<string>) {
    && s == OPENING + version + "]" + (if date.Some? then SEPARATOR + date.value else "")
    && version != "" && ']' !in version
    && (date.Some? ==> IsDateText(date.value))
  }

  function HeadingGroups(s: string): Option<(string, Option<string>)> {
    if !(OPENING <= s) then None
    else
      var body := s[4..];
      var i := Find(body, ']');
      if i == 0 || i == |body| then None
      else
        var rest := body[i + 1..];
        if rest == "" then Some((body[..i], None))
        else if SEPARATOR <= rest && IsDateText(rest[3..]) then Some((body[..i], Some(rest[3..])))
        else None
  }

  lemma {:induction false} Regroup(a: string, b: string, c: string, d: string)
    ensures a + (b + c + d) == a + b + c + d
  {
  }

  lemma {:induction false} Prefixed(prefix: string, s: string)
    requires prefix <= s
    ensures s == prefix + s[|prefix|..]
  {
  }

  lemma {:induction false} TakenApart(s: string, i: nat)
    requires OPENING <= s && i < |s[4..]| && s[4..][i] == ']'
    ensures s == OPENING + s[4..][..i] + "]" + s[4..][i + 1..]
  {
    Prefixed(OPENING, s);
    var body := s[4..];
    assert body == body[..i] + "]" + body[i + 1..];
    Regroup(OPENING, body[..i], "]", body[i + 1..]);
  }

  lemma {:induction false} HeadingGroupsSound(s: string)
    requires HeadingGroups(s).Some?
    ensures MatchesHeading(s, HeadingGroups(s).value.0, HeadingGroups(s).value.1)
  {
    var (version, date) := HeadingGroups(s).value;
    var i := Find(s[4..], ']');
    TakenApart(s, i);
    if date.Some? { Prefixed(SEPARATOR, s[4..][i + 1..]); }
  }

  lemma {:induction false} BracketsFound(version: string, tail: string)
    requires ']' !in version
    ensures var body := version + "]" + tail;
      Find(body, ']') == |version| && body[..|version|] == version && body[|version| + 1..] == tail
  {
    FindFirst(version, ']', tail);
  }

  lemma {:induction false} SeparatorFound(date: string)
    ensures var tail := SEPARATOR + date; tail != "" && SEPARATOR <= tail && tail[3..] == date
  {
  }

  lemma {:induction false} OpeningFound(body: string)
    ensures OPENING <= OPENING + body && (OPENING + body)[4..] == body
  {
  }

  lemma {:induction false} HeadingGroupsComplete(s: string, version: string, date: Option<string>)
    requires MatchesHeading(s, version, date)
    ensures HeadingGroups(s) == Some((version, date))
  {
    var tail := if date.Some? then SEPARATOR + date.value else "";
    assert s == OPENING + (version + "]" + tail);
    OpeningFound(version + "]" + tail);
    BracketsFound(version, tail);
    if date.Some? { SeparatorFound(date.value); }
  }

  lemma {:induction false} HeadingGroupsIsPattern(s: string, version: string, date: Option<string>)
    ensures HeadingGroups(s) == Some((version, date)) <==> MatchesHeading(s, version, date)
  {
    if HeadingGroups(s).Some? { HeadingGroupsSound(s); }
    if MatchesHeading(s, version, date) { HeadingGroupsComplete(s, version, date); }
  }

  /** A line the validator must be able to read as a release. */
  predicate IsHeading(line: string) {
    OPENING <= line && Strip(line) != UNRELEASED
  }

  function VersionOf(line: string): Option<Version> {
    match HeadingGroups(Strip(line))
    case Some((version, Some(date))) =>
      var parsed := Parse(version);
      if parsed.Success? then Some(parsed.value) else None
    case _ => None
  }

  function DateOf(line: string): Option<Date> {
    match HeadingGroups(Strip(line))
    case Some((version, Some(date))) => if IsDateText(date) then ParseDate(date) else None
    case _ => None
  }

  predicate IsSection(line: string) {
    "### " <= line && Strip(line[4..]) != ""
  }

  /**
   What one line says: whether it is a heading or a section, and of a heading
   the version, the version's text as printed, and the calendar date.
   */
  datatype Line = Line(heading: bool, unreleased: bool, section: bool, version: Option<Version>, name: string, date: Option<Date>)

  function NameOf(version: Option<Version>): string {
    if version.Some? && version.value.major >= 0 && version.value.minor >= 0 && version.value.patch >= 0 then
      Str(version.value)
    else ""
  }

  function LineOf(line: string): Line {
    var version := VersionOf(line);
    Line(IsHeading(line), Strip(line) == UNRELEASED, IsSection(line), version, NameOf(version), DateOf(line))
  }

  ghost predicate IsRead(lines: seq<string>, rs: seq<Line>, i: nat)
    requires i < |lines| == |rs|
  {
    rs[i] == LineOf(lines[i])
  }

  /** `rs` is what the lines say, one by one. */
  ghost predicate AreRead(lines: seq<string>, rs: seq<Line>) {
    && |rs| == |lines|
    && forall i {:trigger IsRead(lines, rs, i)} :: 0 <= i < |lines| ==> IsRead(lines, rs, i)
  }

  lemma {:induction false} LineMeans(lines: seq<string>, rs: seq<Line>, i: nat)
    requires AreRead(lines, rs) && i < |lines|
    ensures rs[i].unreleased <==> Strip(lines[i]) == UNRELEASED
    ensures rs[i].heading <==> IsHeading(lines[i])
    ensures rs[i].section <==> IsSection(lines[i])
  {
    assert IsRead(lines, rs, i);
  }

  /** Versions printing alike were parsed from the same stripped text, so they are the same. */
  lemma {:induction false} SameNameSameVersion(a: string, b: string)
    requires VersionOf(a).Some? && VersionOf(b).Some?
    ensures Constructible(VersionOf(a).value) && Constructible(VersionOf(b).value)
    ensures Str(VersionOf(a).value) == Str(VersionOf(b).value) ==> VersionOf(a) == VersionOf(b)
  {
    PrintOfParse(HeadingGroups(Strip(a)).value.0);
    PrintOfParse(HeadingGroups(Strip(b)).value.0);
  }

  // ---------------------------------------------------------------- a valid changelog

  /** A heading with a version and a calendar date that is not in the future. */
  predicate Reads(r: Line, today: Date) {
    r.version.Some? && r.date.Some? && !DateLess(today, r.date.value)
  }

  predicate ReadsIfHeading(r: Line, today: Date) {
    r.heading ==> Reads(r, today)
  }

  predicate Apart(a: Line, b: Line) {
    a.heading && b.heading && a.version.Some? ==> a.version != b.version
  }

  /** Two headings, the earlier in the text first: the later one is neither newer by precedence nor by date. */
  predicate InOrder(a: Line, b: Line) {
    a.heading && b.heading && a.version.Some? && b.version.Some? && a.date.Some? && b.date.Some? ==>
      !VersionLess(a.version.value, b.version.value) && !DateLess(a.date.value, b.date.value)
  }

  ghost predicate AllRead(rs: seq<Line>, today: Date) {
    forall i {:trigger ReadsIfHeading(rs[i], today)} :: 0 <= i < |rs| ==> ReadsIfHeading(rs[i], today)
  }

  ghost predicate DistinctVersions(rs: seq<Line>) {
    forall i, j {:trigger Apart(rs[i], rs[j])} :: 0 <= i < j < |rs| ==> Apart(rs[i], rs[j])
  }

  ghost predicate NewestFirst(rs: seq<Line>) {
    forall i, j {:trigger InOrder(rs[i], rs[j])} :: 0 <= i < j < |rs| ==> InOrder(rs[i], rs[j])
  }

  /** Some section line follows line `i` with no further release heading in between. */
  ghost predicate HasSection(rs: seq<Line>, i: nat) {
    exists k :: i < k < |rs| && rs[k].section && forall m :: i < m < k ==> !rs[m].heading
  }

  ghost predicate EachHasSection(rs: seq<Line>) {
    forall i {:trigger HasSection(rs, i)} :: 0 <= i < |rs| && rs[i].heading ==> HasSection(rs, i)
  }

  ghost predicate FirstIs(rs: seq<Line>, version: Version) {
    exists i :: 0 <= i < |rs| && rs[i].heading && rs[i].version == Some(version) && forall m :: 0 <= m < i ==> !rs[m].heading
  }

  ghost predicate OneUnreleased(rs: seq<Line>, required: bool) {
    && (forall i, j :: 0 <= i < j < |rs| && rs[i].unreleased ==> !rs[j].unreleased)
    && (required ==> exists i :: 0 <= i < |rs| && rs[i].unreleased)
  }

  ghost predicate WellFormed(rs: seq<Line>, expected: Option<Version>, required: bool, today: Date) {
    && OneUnreleased(rs, required)
    && AllRead(rs, today)
    && DistinctVersions(rs)
    && EachHasSection(rs)
    && NewestFirst(rs)
    && (expected.Some? ==> FirstIs(rs, expected.value))
  }

  // ---------------------------------------------------------------- the validator

  datatype IssueCode =
    | MissingUnreleased | DuplicateUnreleased | InvalidReleaseHeading | MissingReleaseDate | InvalidReleaseVersion
    | DuplicateVersion | InvalidReleaseDate | FutureReleaseDate | MissingReleaseSections | VersionOrder | DateOrder
    | MissingExpectedVersion | ExpectedVersionNotLatest

  datatype Issue = Issue(code: IssueCode, line: Option<nat>, version: Option<string>)

  ghost predicate Reported(issues: seq<Issue>, code: IssueCode) {
    exists k :: 0 <= k < |issues| && issues[k].code == code
  }

  datatype Row = Row(index: nat, version: Version, date: Date)

  /** The first thing wrong with a heading, in the order of the checks. */
  function FaultIn(groups: Option<(string, Option<string>)>, version: Option<Version>, date: Option<Date>, seen: map<string, nat>,
                   today: Date): Option<IssueCode>
  {
    if groups.None? then Some(InvalidReleaseHeading)
    else if groups.value.1.None? then Some(MissingReleaseDate)
    else if version.None? then Some(InvalidReleaseVersion)
    else if NameOf(version) in seen then Some(DuplicateVersion)
    else if date.None? then Some(InvalidReleaseDate)
    else if DateLess(today, date.value) then Some(FutureReleaseDate)
    else None
  }

  function HeadingFault(line: string, seen: map<string, nat>, today: Date): Option<IssueCode> {
    FaultIn(HeadingGroups(Strip(line)), VersionOf(line), DateOf(line), seen, today)
  }

  /** How lines are told apart. */
  lemma {:induction false} KindsOfLines(line: string)
    ensures LineOf(line).unreleased <==> Strip(line) == "## [Unreleased]"
    ensures LineOf(line).heading <==> "## [" <= line && !LineOf(line).unreleased
    ensures LineOf(line).section <==> "### " <= line && Strip(line[4..]) != ""
  {
  }

  /** A heading with version and date has one fault at most, told by what the texts parse to. */
  lemma {:induction false} FaultsOfHeadings(line: string, version: string, date: string, seen: map<string, nat>, today: Date)
    requires MatchesHeading(Strip(line), version, Some(date)) && OnCalendar(today)
    ensures HeadingFault(line, seen, today) == Some(InvalidReleaseVersion) <==> Parse(version).Failure?
    ensures HeadingFault(line, seen, today) == Some(DuplicateVersion) <==> Parse(version).Success? && Strip(version) in seen
    ensures Parse(version).Success? && Strip(version) !in seen ==>
      && (HeadingFault(line, seen, today) == Some(InvalidReleaseDate) <==> ParseDate(date).None?)
      && (HeadingFault(line, seen, today) == Some(FutureReleaseDate) <==>
            ParseDate(date).Some? && Ordinal(today) < Ordinal(ParseDate(date).value))
  {
    HeadingGroupsComplete(Strip(line), version, Some(date));
    PrintOfParse(version);
    if ParseDate(date).Some? { DatesAreOrderedByDay(today, ParseDate(date).value); }
  }

  lemma {:induction false} FaultOfForm(groups: Option<(string, Option<string>)>, version: Option<Version>, date: Option<Date>,
                                       seen: map<string, nat>, today: Date)
    ensures FaultIn(groups, version, date, seen, today) == Some(InvalidReleaseHeading) <==> groups.None?
    ensures FaultIn(groups, version, date, seen, today) == Some(MissingReleaseDate) <==> groups.Some? && groups.value.1.None?
  {
  }

  /** A heading of the form has no fault of form, and lacks a date only if it has none. */
  lemma {:induction false} FormedHeadings(line: string, version: string, date: Option<string>, seen: map<string, nat>, today: Date)
    requires MatchesHeading(Strip(line), version, date)
    ensures HeadingFault(line, seen, today) != Some(InvalidReleaseHeading)
    ensures HeadingFault(line, seen, today) == Some(MissingReleaseDate) <==> date.None?
  {
    HeadingGroupsComplete(Strip(line), version, date);
    FaultOfForm(HeadingGroups(Strip(line)), VersionOf(line), DateOf(line), seen, today);
  }

  /** A heading without a fault of form has the form. */
  lemma {:induction false} FormlessHeadings(line: string, seen: map<string, nat>, today: Date)
    returns (version: string, date: Option<string>)
    ensures HeadingFault(line, seen, today) == Some(InvalidReleaseHeading) || MatchesHeading(Strip(line), version, date)
  {
    version, date := "", None;
    FaultOfForm(HeadingGroups(Strip(line)), VersionOf(line), DateOf(line), seen, today);
    if HeadingGroups(Strip(line)).Some? {
      version, date := HeadingGroups(Strip(line)).value.0, HeadingGroups(Strip(line)).value.1;
      HeadingGroupsSound(Strip(line));
    }
  }

  lemma {:induction false} ReportedMore(issues: seq<Issue>, issue: Issue)
    ensures forall code :: Reported(issues + [issue], code) <==> Reported(issues, code) || code == issue.code
  {
    var more := issues + [issue];
    assert more[|issues|] == issue;
    forall code | Reported(issues, code) ensures Reported(more, code) {
      var k :| 0 <= k < |issues| && issues[k].code == code;
      assert more[k].code == code;
    }
  }

  method CheckUnreleased(lines: seq<string>, required: bool, ghost rs: seq<Line>) returns (issues: seq<Issue>)
    requires AreRead(lines, rs)
    ensures issues == [] <==> OneUnreleased(rs, required)
    ensures Reported(issues, MissingUnreleased) <==> required && forall i :: 0 <= i < |rs| ==> !rs[i].unreleased
    ensures Reported(issues, DuplicateUnreleased) <==> exists i, j :: 0 <= i < j < |rs| && rs[i].unreleased && rs[j].unreleased
  {
    var found: seq<nat> := [];
    for i := 0 to |lines|
      invariant forall p :: 0 <= p < |found| ==> found[p] < i && rs[found[p]].unreleased
      invariant forall p, q :: 0 <= p < q < |found| ==> found[p] < found[q]
      invariant forall j :: 0 <= j < i && rs[j].unreleased ==> j in found
    {
      LineMeans(lines, rs, i);
      if Strip(lines[i]) == UNRELEASED { found := found + [i]; }
    }
    issues := [];
    if required && found == [] {
      ReportedMore(issues, Issue(MissingUnreleased, None, None));
      issues := issues + [Issue(MissingUnreleased, None, None)];
    }
    if |found| > 1 {
      assert found[0] < found[1];
      ReportedMore(issues, Issue(DuplicateUnreleased, Some(found[1] + 1), None));
      issues := issues + [Issue(DuplicateUnreleased, Some(found[1] + 1), None)];
    }
    if found != [] { assert rs[found[0]].unreleased; }
  }

  /** What is wrong with heading `index`, or the row it gives; `name` is the version text it adds to those seen. */
  method ReadHeading(lines: seq<string>, index: nat, seen: map<string, nat>, today: Date, ghost rs: seq<Line>)
    returns (row: Option<Row>, issues: seq<Issue>, name: Option<string>)
    requires AreRead(lines, rs) && index < |lines|
    ensures name == if rs[index].version.Some? && rs[index].name !in seen then Some(rs[index].name) else None
    ensures row.Some? <==> name.Some? && Reads(rs[index], today)
    ensures row.Some? ==> row.value == Row(index, rs[index].version.value, rs[index].date.value)
    ensures row.Some? <==> issues == []
    ensures issues != [] ==>
      |issues| == 1 && Some(issues[0].code) == HeadingFault(lines[index], seen, today) && issues[0].line == Some(index + 1)
  {
    assert IsRead(lines, rs, index);
    row, issues, name := None, [], None;
    var line := lines[index];
    var groups := HeadingGroups(Strip(line));
    if groups.None? {
      issues := [Issue(InvalidReleaseHeading, Some(index + 1), None)];
      return;
    }
    var (rawVersion, rawDate) := groups.value;
    HeadingGroupsIsPattern(Strip(line), rawVersion, rawDate);
    if rawDate.None? {
      issues := [Issue(MissingReleaseDate, Some(index + 1), Some(rawVersion))];
      return;
    }
    var version := Parse(rawVersion);
    PrintOfParse(rawVersion);
    if version.Failure? {
      issues := [Issue(InvalidReleaseVersion, Some(index + 1), Some(rawVersion))];
      return;
    }
    var normalized := Str(version.value);
    if normalized in seen {
      issues := [Issue(DuplicateVersion, Some(index + 1), Some(normalized))];
      return;
    }
    name := Some(normalized);
    var date := ParseDate(rawDate.value);
    if date.None? {
      issues := [Issue(InvalidReleaseDate, Some(index + 1), Some(normalized))];
      return;
    }
    if DateLess(today, date.value) {
      issues := [Issue(FutureReleaseDate, Some(index + 1), Some(normalized))];
      return;
    }
    row := Some(Row(index, version.value, date.value));
  }

  /** Versions read satisfy `__post_init__`, and lines have one name exactly when they have one version. */
  ghost predicate Faithful(rs: seq<Line>) {
    && (forall i :: 0 <= i < |rs| && rs[i].version.Some? ==> Constructible(rs[i].version.value))
    && forall i, j :: 0 <= i < |rs| && 0 <= j < |rs| && rs[i].version.Some? && rs[j].version.Some? ==>
      (rs[i].name == rs[j].name <==> rs[i].version == rs[j].version)
  }

  lemma {:induction false} ReadIsFaithful(lines: seq<string>, rs: seq<Line>)
    requires AreRead(lines, rs)
    ensures Faithful(rs)
  {
    forall i | 0 <= i < |rs| && rs[i].version.Some? ensures Constructible(rs[i].version.value) {
      assert IsRead(lines, rs, i);
      SameNameSameVersion(lines[i], lines[i]);
    }
    forall i, j | 0 <= i < |rs| && 0 <= j < |rs| && rs[i].version.Some? && rs[j].version.Some?
      ensures rs[i].name == rs[j].name <==> rs[i].version == rs[j].version
    {
      assert IsRead(lines, rs, i) && IsRead(lines, rs, j);
      SameNameSameVersion(lines[i], lines[j]);
    }
  }

  ghost predicate RowReads(rs: seq<Line>, today: Date, row: Row) {
    && row.index < |rs| && rs[row.index].heading && Reads(rs[row.index], today)
    && rs[row.index].version == Some(row.version) && rs[row.index].date == Some(row.date)
  }

  /** The rows are headings, in order, as read. */
  ghost predicate RowsRead(rs: seq<Line>, today: Date, rows: seq<Row>) {
    && (forall p, q :: 0 <= p < q < |rows| ==> rows[p].index < rows[q].index)
    && forall p :: 0 <= p < |rows| ==> RowReads(rs, today, rows[p])
  }

  /** Every heading among the first `n` lines has its row. */
  ghost predicate RowsCover(rs: seq<Line>, rows: seq<Row>, n: nat)
    requires n <= |rs|
  {
    forall i :: 0 <= i < n && rs[i].heading ==> exists p :: 0 <= p < |rows| && rows[p].index == i
  }

  /** The name of every version read so far, and no other. */
  ghost predicate SeenSoFar(rs: seq<Line>, n: nat, seen: map<string, nat>)
    requires n <= |rs|
  {
    && (forall i :: 0 <= i < n && rs[i].heading && rs[i].version.Some? ==> rs[i].name in seen)
    && forall s :: s in seen ==> exists i :: 0 <= i < n && rs[i].heading && rs[i].version.Some? && rs[i].name == s
  }

  lemma {:induction false} ProblemMeansBad(rs: seq<Line>, today: Date, n: nat, seen: map<string, nat>)
    requires n < |rs| && rs[n].heading && SeenSoFar(rs, n, seen) && Faithful(rs)
    requires !Reads(rs[n], today) || rs[n].name in seen
    ensures !(AllRead(rs, today) && DistinctVersions(rs))
  {
    if !Reads(rs[n], today) {
      assert !ReadsIfHeading(rs[n], today);
    } else {
      var i :| 0 <= i < n && rs[i].heading && rs[i].version.Some? && rs[i].name == rs[n].name;
      assert !Apart(rs[i], rs[n]);
    }
  }

  lemma {:induction false} SeenStep(rs: seq<Line>, n: nat, was: map<string, nat>, seen: map<string, nat>)
    requires n < |rs| && SeenSoFar(rs, n, was)
    requires seen.Keys == was.Keys + if rs[n].heading && rs[n].version.Some? then {rs[n].name} else {}
    ensures SeenSoFar(rs, n + 1, seen)
  {
    forall s | s in seen
      ensures exists i :: 0 <= i < n + 1 && rs[i].heading && rs[i].version.Some? && rs[i].name == s
    {
      if s in was {
        var i :| 0 <= i < n && rs[i].heading && rs[i].version.Some? && rs[i].name == s;
      } else {
        assert rs[n].name == s;
      }
    }
  }

  lemma {:induction false} CoverStep(rs: seq<Line>, was: seq<Row>, rows: seq<Row>, n: nat)
    requires n < |rs| && was <= rows
    requires !rs[n].heading || (rows != [] && rows[|rows| - 1].index == n)
    ensures RowsCover(rs, was, n) ==> RowsCover(rs, rows, n + 1)
  {
    if RowsCover(rs, was, n) {
      forall i | 0 <= i < n + 1 && rs[i].heading ensures exists p :: 0 <= p < |rows| && rows[p].index == i {
        if i == n {
          assert rows[|rows| - 1].index == i;
        } else {
          var p :| 0 <= p < |was| && was[p].index == i;
          assert rows[p].index == i;
        }
      }
    }
  }

  lemma {:induction false} ReadStep(rs: seq<Line>, today: Date, n: nat, seen: map<string, nat>)
    requires n < |rs| && SeenSoFar(rs, n, seen) && Faithful(rs)
    requires rs[n].heading ==> Reads(rs[n], today) && rs[n].name !in seen
    ensures AllRead(rs[..n], today) ==> AllRead(rs[..n + 1], today)
    ensures DistinctVersions(rs[..n]) ==> DistinctVersions(rs[..n + 1])
  {
  }

  lemma {:induction false} RowStep(rs: seq<Line>, today: Date, n: nat, rows: seq<Row>)
    requires RowsRead(rs, today, rows) && (forall p :: 0 <= p < |rows| ==> rows[p].index < n)
    requires n < |rs| && rs[n].heading && Reads(rs[n], today)
    ensures var more := rows + [Row(n, rs[n].version.value, rs[n].date.value)];
      RowsRead(rs, today, more) && forall p :: 0 <= p < |more| ==> more[p].index < n + 1
  {
    var more := rows + [Row(n, rs[n].version.value, rs[n].date.value)];
    forall p | 0 <= p < |more| ensures RowReads(rs, today, more[p]) {
      if p < |rows| { assert RowReads(rs, today, rows[p]); }
    }
  }

  /** Where the scan stands after `n` lines; `clean` when nothing was wrong so far. */
  ghost predicate Scanning(rs: seq<Line>, today: Date, n: nat, seen: map<string, nat>, rows: seq<Row>, clean: bool) {
    && n <= |rs| && SeenSoFar(rs, n, seen)
    && RowsRead(rs, today, rows) && (forall p :: 0 <= p < |rows| ==> rows[p].index < n)
    && if clean then RowsCover(rs, rows, n) && AllRead(rs[..n], today) && DistinctVersions(rs[..n])
       else !(AllRead(rs, today) && DistinctVersions(rs))
  }

  lemma {:induction false} ScanStep(rs: seq<Line>, today: Date, n: nat, was: map<string, nat>, seen: map<string, nat>,
                                    wasRows: seq<Row>, rows: seq<Row>, wasClean: bool, clean: bool)
    requires Scanning(rs, today, n, was, wasRows, wasClean) && n < |rs| && Faithful(rs)
    requires var added := rs[n].heading && rs[n].version.Some? && rs[n].name !in was;
      && seen == (if added then was[rs[n].name := n + 1] else was)
      && if added && Reads(rs[n], today) then
           rows == wasRows + [Row(n, rs[n].version.value, rs[n].date.value)] && clean == wasClean
         else rows == wasRows && clean == (wasClean && !rs[n].heading)
    ensures Scanning(rs, today, n + 1, seen, rows, clean)
  {
    SeenStep(rs, n, was, seen);
    if rows != wasRows { RowStep(rs, today, n, wasRows); }
    if clean {
      CoverStep(rs, wasRows, rows, n);
      ReadStep(rs, today, n, was);
    } else if wasClean {
      ProblemMeansBad(rs, today, n, was);
    }
  }

  method ScanHeadings(lines: seq<string>, today: Date, ghost rs: seq<Line>) returns (rows: seq<Row>, issues: seq<Issue>)
    requires AreRead(lines, rs) && Faithful(rs)
    ensures RowsRead(rs, today, rows)
    ensures issues == [] <==> AllRead(rs, today) && DistinctVersions(rs)
    ensures issues == [] ==> RowsCover(rs, rows, |rs|)
  {
    rows, issues := [], [];
    var seen: map<string, nat> := map[];
    for index := 0 to |lines|
      invariant Scanning(rs, today, index, seen, rows, issues == [])
    {
      ghost var was, wasRows, wasClean := seen, rows, issues == [];
      LineMeans(lines, rs, index);
      if IsHeading(lines[index]) {
        var row, problems, name := ReadHeading(lines, index, seen, today, rs);
        if name.Some? { seen := seen[name.value := index + 1]; }
        if row.Some? { rows := rows + [row.value]; }
        issues := issues + problems;
      }
      ScanStep(rs, today, index, was, seen, wasRows, rows, wasClean, issues == []);
    }
    assert rs[..|lines|] == rs;
  }

  // ---------------------------------------------------------------- sections

  /** The names of the sections among these lines. */
  function Names(lines: seq<string>): seq<string> {
    if lines == [] then []
    else
      var last := lines[|lines| - 1];
      Names(lines[..|lines| - 1]) + if IsSection(last) then [Strip(last[4..])] else []
  }

  lemma {:induction false} NamesEmpty(lines: seq<string>)
    ensures Names(lines) == [] <==> forall k :: 0 <= k < |lines| ==> !IsSection(lines[k])
  {
    if lines != [] { NamesEmpty(lines[..|lines| - 1]); }
  }

  method SectionNames(lines: seq<string>, start: nat, end: nat) returns (sections: seq<string>)
    requires start <= end <= |lines|
    ensures sections == Names(lines[start..end])
  {
    sections := [];
    for i := start to end
      invariant sections == Names(lines[start..i])
    {
      assert lines[start..i + 1][..i - start] == lines[start..i];
      if "### " <= lines[i] {
        var name := Strip(lines[i][4..]);
        if name != "" { sections := sections + [name]; }
      }
    }
  }

  datatype Release = Release(version: Version, date: Date, headingLine: nat, sections: seq<string>)

  /** The line after the last one of release `k`. */
  function EndOf(rows: seq<Row>, k: nat, count: nat): nat
    requires k < |rows|
  {
    if k + 1 < |rows| then rows[k + 1].index else count
  }

  ghost predicate Ascending(rows: seq<Row>, count: nat) {
    && (forall p, q :: 0 <= p < q < |rows| ==> rows[p].index < rows[q].index)
    && forall p :: 0 <= p < |rows| ==> rows[p].index < count
  }

  ghost predicate IsReleaseOf(lines: seq<string>, rows: seq<Row>, k: nat, release: Release)
    requires Ascending(rows, |lines|) && k < |rows|
  {
    release == Release(rows[k].version, rows[k].date, rows[k].index + 1,
                       Names(lines[rows[k].index + 1..EndOf(rows, k, |lines|)]))
  }

  ghost predicate AllSectioned(releases: seq<Release>) {
    forall k :: 0 <= k < |releases| ==> releases[k].sections != []
  }

  lemma {:induction false} AllSectionedStep(was: seq<Release>, release: Release)
    ensures AllSectioned(was + [release]) <==> AllSectioned(was) && release.sections != []
  {
    var now := was + [release];
    assert now[|was|] == release;
    forall k | 0 <= k < |was| ensures was[k] == now[k] {}
  }

  /** The first `n` rows have become releases, and those without sections are reported. */
  ghost predicate Built(lines: seq<string>, rows: seq<Row>, n: nat, releases: seq<Release>, issues: seq<Issue>)
    requires Ascending(rows, |lines|) && n <= |rows|
  {
    && |releases| == n
    && (forall k {:trigger releases[k]} :: 0 <= k < n ==> IsReleaseOf(lines, rows, k, releases[k]))
    && (issues == [] <==> AllSectioned(releases))
    && forall m :: 0 <= m < |issues| ==> issues[m].code == MissingReleaseSections
  }

  lemma {:induction false} BuiltStep(lines: seq<string>, rows: seq<Row>, n: nat, was: seq<Release>, before: seq<Issue>,
                                     releases: seq<Release>, issues: seq<Issue>)
    requires Ascending(rows, |lines|) && n < |rows| && Built(lines, rows, n, was, before)
    requires |releases| == n + 1 && releases == was + [releases[n]] && IsReleaseOf(lines, rows, n, releases[n])
    requires if releases[n].sections != [] then issues == before
             else |issues| == |before| + 1 && before <= issues && issues[|before|].code == MissingReleaseSections
    ensures Built(lines, rows, n + 1, releases, issues)
  {
    AllSectionedStep(was, releases[n]);
    forall m | 0 <= m < |before| ensures issues[m] == before[m] {}
    forall k | 0 <= k < n ensures releases[k] == was[k] {}
  }

  method BuildReleases(lines: seq<string>, rows: seq<Row>) returns (releases: seq<Release>, issues: seq<Issue>)
    requires Ascending(rows, |lines|)
    requires forall k :: 0 <= k < |rows| ==> Constructible(rows[k].version)
    ensures |releases| == |rows|
    ensures forall k {:trigger releases[k]} :: 0 <= k < |rows| ==> IsReleaseOf(lines, rows, k, releases[k])
    ensures issues == [] <==> AllSectioned(releases)
    ensures forall m :: 0 <= m < |issues| ==> issues[m].code == MissingReleaseSections
  {
    releases, issues := [], [];
    for position := 0 to |rows|
      invariant Built(lines, rows, position, releases, issues)
    {
      var row := rows[position];
      var end := EndOf(rows, position, |lines|);
      var sections := SectionNames(lines, row.index + 1, end);
      ghost var was, before := releases, issues;
      if sections == [] {
        issues := issues + [Issue(MissingReleaseSections, Some(row.index + 1), Some(Str(row.version)))];
      }
      releases := releases + [Release(row.version, row.date, row.index + 1, sections)];
      BuiltStep(lines, rows, position, was, before, releases, issues);
    }
  }

  // ---------------------------------------------------------------- order

  predicate VersionsOut(earlier: Release, later: Release) {
    VersionAtMost(earlier.version, later.version)
  }

  predicate DatesOut(earlier: Release, later: Release) {
    DateLess(earlier.date, later.date)
  }

  predicate Newer(earlier: Release, later: Release) {
    !VersionsOut(earlier, later) && !DatesOut(earlier, later)
  }

  /** Some neighbours among the first `n` releases have their versions, or their dates, the wrong way round. */
  ghost predicate SomeVersionsOut(releases: seq<Release>, n: nat) {
    exists k {:trigger VersionsOut(releases[k - 1], releases[k])} :: 0 < k < n && k < |releases| && VersionsOut(releases[k - 1], releases[k])
  }

  ghost predicate SomeDatesOut(releases: seq<Release>, n: nat) {
    exists k {:trigger DatesOut(releases[k - 1], releases[k])} :: 0 < k < n && k < |releases| && DatesOut(releases[k - 1], releases[k])
  }

  ghost predicate AllNewer(releases: seq<Release>) {
    forall k :: 0 < k < |releases| ==> Newer(releases[k - 1], releases[k])
  }

  lemma {:induction false} NewerMeansNoneOut(releases: seq<Release>)
    ensures AllNewer(releases) <==> !SomeVersionsOut(releases, |releases|) && !SomeDatesOut(releases, |releases|)
  {
    if AllNewer(releases) {
      forall k | 0 < k < |releases| ensures !VersionsOut(releases[k - 1], releases[k]) && !DatesOut(releases[k - 1], releases[k]) {
        assert Newer(releases[k - 1], releases[k]);
      }
    }
    if !SomeVersionsOut(releases, |releases|) && !SomeDatesOut(releases, |releases|) {
      forall k | 0 < k < |releases| ensures Newer(releases[k - 1], releases[k]) {
        assert !VersionsOut(releases[k - 1], releases[k]) && !DatesOut(releases[k - 1], releases[k]);
      }
    }
  }

  /** The issues are about order only, and tell which orders are violated among the first `n` releases. */
  ghost predicate OrderIssues(releases: seq<Release>, n: nat, issues: seq<Issue>) {
    && (Reported(issues, VersionOrder) <==> SomeVersionsOut(releases, n))
    && (Reported(issues, DateOrder) <==> SomeDatesOut(releases, n))
    && forall m :: 0 <= m < |issues| ==> issues[m].code in {VersionOrder, DateOrder}
  }

  lemma {:induction false} OrderStep(releases: seq<Release>, k: nat)
    requires 0 < k < |releases|
    ensures SomeVersionsOut(releases, k + 1) <==> SomeVersionsOut(releases, k) || VersionsOut(releases[k - 1], releases[k])
    ensures SomeDatesOut(releases, k + 1) <==> SomeDatesOut(releases, k) || DatesOut(releases[k - 1], releases[k])
  {
  }

  method ComparePair(earlier: Release, later: Release) returns (issues: seq<Issue>)
    requires Constructible(later.version)
    ensures Reported(issues, VersionOrder) <==> VersionsOut(earlier, later)
    ensures Reported(issues, DateOrder) <==> DatesOut(earlier, later)
    ensures forall m :: 0 <= m < |issues| ==> issues[m].code in {VersionOrder, DateOrder}
  {
    issues := [];
    if VersionAtMost(earlier.version, later.version) {
      issues := [Issue(VersionOrder, Some(later.headingLine), Some(Str(later.version)))];
      assert issues[0].code == VersionOrder;
    }
    if DateLess(earlier.date, later.date) {
      ReportedMore(issues, Issue(DateOrder, Some(later.headingLine), Some(Str(later.version))));
      issues := issues + [Issue(DateOrder, Some(later.headingLine), Some(Str(later.version)))];
    }
  }

  lemma {:induction false} ReportedTogether(a: seq<Issue>, b: seq<Issue>, code: IssueCode)
    ensures Reported(a + b, code) <==> Reported(a, code) || Reported(b, code)
  {
    if Reported(a, code) {
      var k :| 0 <= k < |a| && a[k].code == code;
      assert (a + b)[k].code == code;
    }
    if Reported(b, code) {
      var k :| 0 <= k < |b| && b[k].code == code;
      assert (a + b)[|a| + k].code == code;
    }
  }

  method CheckOrder(releases: seq<Release>) returns (issues: seq<Issue>)
    requires forall k :: 0 <= k < |releases| ==> Constructible(releases[k].version)
    ensures OrderIssues(releases, |releases|, issues)
    ensures issues == [] <==> AllNewer(releases)
  {
    issues := [];
    var k := 1;
    while k < |releases|
      invariant 1 <= k && (k <= |releases| || releases == [])
      invariant OrderIssues(releases, k, issues)
    {
      var pair := ComparePair(releases[k - 1], releases[k]);
      OrderStep(releases, k);
      ReportedTogether(issues, pair, VersionOrder);
      ReportedTogether(issues, pair, DateOrder);
      issues := issues + pair;
      k := k + 1;
    }
    NewerMeansNoneOut(releases);
    assert issues != [] ==> Reported(issues, issues[0].code);
  }

  // ---------------------------------------------------------------- what the checks on the rows mean

  /** The rows are exactly the headings. */
  ghost predicate Exact(rs: seq<Line>, today: Date, rows: seq<Row>) {
    RowsRead(rs, today, rows) && RowsCover(rs, rows, |rs|)
  }

  lemma {:induction false} RowOf(rs: seq<Line>, today: Date, rows: seq<Row>, i: nat) returns (p: nat)
    requires Exact(rs, today, rows) && i < |rs| && rs[i].heading
    ensures p < |rows| && rows[p].index == i && RowReads(rs, today, rows[p])
  {
    p :| 0 <= p < |rows| && rows[p].index == i;
  }

  lemma {:induction false} RowsByIndex(rs: seq<Line>, today: Date, rows: seq<Row>, p: nat, q: nat)
    requires RowsRead(rs, today, rows) && p < |rows| && q < |rows|
    ensures p < q <==> rows[p].index < rows[q].index
  {
    if q < p { assert rows[q].index < rows[p].index; }
  }

  /** No heading lies strictly inside a release. */
  lemma {:induction false} NothingInside(rs: seq<Line>, today: Date, rows: seq<Row>, k: nat, m: nat)
    requires Exact(rs, today, rows) && k < |rows|
    requires rows[k].index < m < EndOf(rows, k, |rs|) <= |rs|
    ensures !rs[m].heading
  {
    forall p | 0 <= p < |rows| ensures rows[p].index != m {
      if p <= k {
        assert rows[p].index <= rows[k].index;
      } else {
        assert rows[k + 1].index <= rows[p].index;
      }
    }
  }

  lemma {:induction false} SectionIsNoHeading(lines: seq<string>, rs: seq<Line>, i: nat)
    requires AreRead(lines, rs) && i < |lines|
    ensures !(rs[i].section && rs[i].heading)
  {
    LineMeans(lines, rs, i);
    assert "### " <= lines[i] ==> lines[i][2] == '#';
    assert OPENING <= lines[i] ==> lines[i][2] == ' ';
  }

  lemma {:induction false} SectionOfRow(lines: seq<string>, rs: seq<Line>, today: Date, rows: seq<Row>, k: nat)
    requires AreRead(lines, rs) && Exact(rs, today, rows) && k < |rows| && Ascending(rows, |lines|)
    ensures Names(lines[rows[k].index + 1..EndOf(rows, k, |lines|)]) != [] <==> HasSection(rs, rows[k].index)
  {
    var start, end := rows[k].index + 1, EndOf(rows, k, |lines|);
    var part := lines[start..end];
    NamesEmpty(part);
    assert RowReads(rs, today, rows[k]);
    if m :| 0 <= m < |part| && IsSection(part[m]) {
      LineMeans(lines, rs, start + m);
      forall h | rows[k].index < h < start + m ensures !rs[h].heading { NothingInside(rs, today, rows, k, h); }
      assert HasSection(rs, rows[k].index);
    }
    if HasSection(rs, rows[k].index) {
      var s :| rows[k].index < s < |rs| && rs[s].section && forall m :: rows[k].index < m < s ==> !rs[m].heading;
      LineMeans(lines, rs, s);
      if s >= end {
        assert RowReads(rs, today, rows[k + 1]);
        SectionIsNoHeading(lines, rs, s);
      } else {
        assert part[s - start] == lines[s];
      }
    }
  }

  lemma {:induction false} SectionsMean(lines: seq<string>, rs: seq<Line>, today: Date, rows: seq<Row>, releases: seq<Release>)
    requires AreRead(lines, rs) && Exact(rs, today, rows) && Ascending(rows, |lines|) && |releases| == |rows|
    requires forall k {:trigger releases[k]} :: 0 <= k < |rows| ==> IsReleaseOf(lines, rows, k, releases[k])
    ensures AllSectioned(releases) <==> EachHasSection(rs)
  {
    forall k | 0 <= k < |rows| ensures releases[k].sections != [] <==> HasSection(rs, rows[k].index) {
      SectionOfRow(lines, rs, today, rows, k);
    }
    if AllSectioned(releases) {
      forall i | 0 <= i < |rs| && rs[i].heading ensures HasSection(rs, i) {
        var k := RowOf(rs, today, rows, i);
        assert releases[k].sections != [];
      }
    }
    if EachHasSection(rs) {
      forall k | 0 <= k < |releases| ensures releases[k].sections != [] {
        assert RowReads(rs, today, rows[k]);
      }
    }
  }

  predicate RowsInOrder(a: Row, b: Row) {
    !VersionLess(a.version, b.version) && !DateLess(a.date, b.date)
  }

  /** Neighbours in order are all in order. */
  lemma {:induction false} OrderedThroughout(rows: seq<Row>, p: nat, q: nat)
    requires p < q < |rows|
    requires forall k :: 0 <= k < |rows| ==> Constructible(rows[k].version)
    requires forall k :: 0 < k < |rows| ==> RowsInOrder(rows[k - 1], rows[k])
    ensures RowsInOrder(rows[p], rows[q])
  {
    assert RowsInOrder(rows[q - 1], rows[q]);
    if p < q - 1 {
      OrderedThroughout(rows, p, q - 1);
      NotLessTransitive(rows[p].version, rows[q - 1].version, rows[q].version);
    }
  }

  lemma {:induction false} OrderMeans(rs: seq<Line>, today: Date, rows: seq<Row>)
    requires Exact(rs, today, rows) && Faithful(rs) && DistinctVersions(rs)
    ensures (forall k :: 0 < k < |rows| ==> RowsInOrder(rows[k - 1], rows[k])) <==> NewestFirst(rs)
    ensures forall p, q :: 0 <= p < q < |rows| ==> rows[p].version != rows[q].version
  {
    forall k | 0 <= k < |rows| ensures Constructible(rows[k].version) { assert RowReads(rs, today, rows[k]); }
    if forall k :: 0 < k < |rows| ==> RowsInOrder(rows[k - 1], rows[k]) {
      forall i, j | 0 <= i < j < |rs| ensures InOrder(rs[i], rs[j]) {
        if rs[i].heading && rs[j].heading {
          var p := RowOf(rs, today, rows, i);
          var q := RowOf(rs, today, rows, j);
          RowsByIndex(rs, today, rows, p, q);
          OrderedThroughout(rows, p, q);
        }
      }
    }
    if NewestFirst(rs) {
      forall k | 0 < k < |rows| ensures RowsInOrder(rows[k - 1], rows[k]) {
        assert RowReads(rs, today, rows[k - 1]) && RowReads(rs, today, rows[k]);
        assert InOrder(rs[rows[k - 1].index], rs[rows[k].index]);
      }
    }
    forall p, q | 0 <= p < q < |rows| ensures rows[p].version != rows[q].version {
      assert RowReads(rs, today, rows[p]) && RowReads(rs, today, rows[q]);
      assert Apart(rs[rows[p].index], rs[rows[q].index]);
    }
  }

  lemma {:induction false} FirstMeans(rs: seq<Line>, today: Date, rows: seq<Row>, version: Version)
    requires Exact(rs, today, rows)
    ensures rows != [] && rows[0].version == version <==> FirstIs(rs, version)
  {
    if rows != [] {
      assert RowReads(rs, today, rows[0]);
      forall m | 0 <= m < rows[0].index ensures !rs[m].heading {
        if rs[m].heading {
          var p := RowOf(rs, today, rows, m);
          RowsByIndex(rs, today, rows, p, 0);
        }
      }
    }
    if FirstIs(rs, version) {
      var i :| 0 <= i < |rs| && rs[i].heading && rs[i].version == Some(version) && forall m :: 0 <= m < i ==> !rs[m].heading;
      var p := RowOf(rs, today, rows, i);
      assert RowReads(rs, today, rows[0]);
      RowsByIndex(rs, today, rows, 0, p);
    }
  }

  // ---------------------------------------------------------------- the whole

  ghost predicate ReleaseReads(rs: seq<Line>, release: Release) {
    && 0 < release.headingLine <= |rs| && rs[release.headingLine - 1].heading
    && rs[release.headingLine - 1].version == Some(release.version)
    && rs[release.headingLine - 1].date == Some(release.date)
  }

  /** The releases are the headings, one each, in the order of the text. */
  ghost predicate ReleasesAreHeadings(rs: seq<Line>, releases: seq<Release>) {
    && (forall p, q :: 0 <= p < q < |releases| ==> releases[p].headingLine < releases[q].headingLine)
    && (forall i :: 0 <= i < |rs| && rs[i].heading ==> exists p :: 0 <= p < |releases| && releases[p].headingLine == i + 1)
    && forall p :: 0 <= p < |releases| ==> ReleaseReads(rs, releases[p])
  }

  ghost predicate Outline(rows: seq<Row>, releases: seq<Release>) {
    && |releases| == |rows|
    && forall k :: 0 <= k < |rows| ==>
        releases[k].version == rows[k].version && releases[k].date == rows[k].date && releases[k].headingLine == rows[k].index + 1
  }

  lemma {:induction false} NewerMeans(rs: seq<Line>, today: Date, rows: seq<Row>, releases: seq<Release>)
    requires Exact(rs, today, rows) && Faithful(rs) && DistinctVersions(rs) && Outline(rows, releases)
    ensures AllNewer(releases) <==> NewestFirst(rs)
  {
    OrderMeans(rs, today, rows);
    forall k | 0 < k < |rows| ensures Newer(releases[k - 1], releases[k]) <==> RowsInOrder(rows[k - 1], rows[k]) {}
  }

  lemma {:induction false} OutlineReads(rs: seq<Line>, today: Date, rows: seq<Row>, releases: seq<Release>)
    requires Exact(rs, today, rows) && Outline(rows, releases)
    ensures ReleasesAreHeadings(rs, releases)
  {
    forall i | 0 <= i < |rs| && rs[i].heading ensures exists p :: 0 <= p < |releases| && releases[p].headingLine == i + 1 {
      var p := RowOf(rs, today, rows, i);
      assert releases[p].headingLine == i + 1;
    }
    forall p | 0 <= p < |releases| ensures ReleaseReads(rs, releases[p]) { assert RowReads(rs, today, rows[p]); }
  }

  method CheckReleases(lines: seq<string>, rows: seq<Row>, ghost rs: seq<Line>, ghost today: Date)
    returns (releases: seq<Release>, issues: seq<Issue>)
    requires AreRead(lines, rs) && Faithful(rs) && RowsRead(rs, today, rows)
    ensures Outline(rows, releases)
    ensures RowsCover(rs, rows, |rs|) && DistinctVersions(rs) ==> (issues == [] <==> EachHasSection(rs) && NewestFirst(rs))
  {
    forall k | 0 <= k < |rows| ensures Constructible(rows[k].version) && rows[k].index < |lines| {
      assert RowReads(rs, today, rows[k]);
    }
    releases, issues := BuildReleases(lines, rows);
    forall k | 0 <= k < |releases|
      ensures releases[k].version == rows[k].version && releases[k].date == rows[k].date
      ensures releases[k].headingLine == rows[k].index + 1
    {
      assert IsReleaseOf(lines, rows, k, releases[k]);
    }
    var problems := CheckOrder(releases);
    issues := issues + problems;
    if RowsCover(rs, rows, |rs|) && DistinctVersions(rs) {
      SectionsMean(lines, rs, today, rows, releases);
      NewerMeans(rs, today, rows, releases);
    }
  }

  method CheckExpected(expected: Option<Version>, releases: seq<Release>) returns (issues: seq<Issue>)
    requires expected.Some? ==> Constructible(expected.value)
    ensures issues == [] <==> expected.Some? ==> releases != [] && releases[0].version == expected.value
    ensures issues != [] ==> |issues| == 1 && issues[0].code == if releases == [] then MissingExpectedVersion else ExpectedVersionNotLatest
  {
    issues := [];
    if expected.Some? {
      if releases == [] {
        issues := [Issue(MissingExpectedVersion, None, Some(Str(expected.value)))];
      } else if releases[0].version != expected.value {
        issues := [Issue(ExpectedVersionNotLatest, Some(releases[0].headingLine), Some(Str(expected.value)))];
      }
    }
  }

  /** The checks of the validator, one after the other, on lines that say `rs`. */
  method CheckChangelog(lines: seq<string>, expected: Option<Version>, requireUnreleased: bool, today: Date,
                        ghost rs: seq<Line>)
    returns (releases: seq<Release>, issues: seq<Issue>)
    requires AreRead(lines, rs)
    requires expected.Some? ==> Constructible(expected.value)
    ensures issues == [] <==> WellFormed(rs, expected, requireUnreleased, today)
    ensures issues == [] ==> ReleasesAreHeadings(rs, releases)
  {
    ReadIsFaithful(lines, rs);
    var unreleased := CheckUnreleased(lines, requireUnreleased, rs);
    var rows, headings := ScanHeadings(lines, today, rs);
    var checks;
    releases, checks := CheckReleases(lines, rows, rs, today);
    var latest := CheckExpected(expected, releases);
    issues := unreleased + headings + checks + latest;
    if headings == [] {
      OutlineReads(rs, today, rows, releases);
      if expected.Some? { FirstMeans(rs, today, rows, expected.value); }
    }
  }

  /** What the lines of a changelog say. */
  function ReadAll(lines: seq<string>): (rs: seq<Line>)
    ensures AreRead(lines, rs)
  {
    var rs := seq(|lines|, i requires 0 <= i < |lines| => LineOf(lines[i]));
    assert forall i :: 0 <= i < |lines| ==> IsRead(lines, rs, i);
    rs
  }

  /**
   The validator: no issue is reported exactly when the changelog is well
   formed, and then the releases are its headings.
   */
  method ValidateChangelog(lines: seq<string>, expected: Option<Version>, requireUnreleased: bool, today: Date)
    returns (releases: seq<Release>, issues: seq<Issue>)
    requires expected.Some? ==> Constructible(expected.value)
    ensures issues == [] <==> WellFormed(ReadAll(lines), expected, requireUnreleased, today)
    ensures issues == [] ==> ReleasesAreHeadings(ReadAll(lines), releases)
  {
    releases, issues := CheckChangelog(lines, expected, requireUnreleased, today, ReadAll(lines));
  }

  lemma {:induction false} NoneAbove(rs: seq<Line>, expected: Version, required: bool, today: Date, i: nat)
    requires Faithful(rs) && WellFormed(rs, Some(expected), required, today)
    requires i < |rs| && rs[i].heading
    ensures rs[i].version.Some? && !VersionLess(expected, rs[i].version.value)
  {
    var first :| 0 <= first < |rs| && rs[first].heading && rs[first].version == Some(expected)
      && forall m :: 0 <= m < first ==> !rs[m].heading;
    assert ReadsIfHeading(rs[i], today) && ReadsIfHeading(rs[first], today);
    if i == first {
      VersionTrichotomy(expected, expected);
    } else {
      assert InOrder(rs[first], rs[i]);
    }
  }

  lemma {:induction false} SectionText(lines: seq<string>, rs: seq<Line>, k: nat)
    requires AreRead(lines, rs) && k < |lines| && rs[k].section
    ensures "### " <= lines[k] && Strip(lines[k][4..]) != ""
  {
    LineMeans(lines, rs, k);
  }

  lemma {:induction false} SectionBefore(rs: seq<Line>, i: nat, j: nat) returns (k: nat)
    requires i < j < |rs| && EachHasSection(rs) && rs[i].heading && rs[j].heading
    ensures i < k < |rs| && rs[k].section && k <= j
  {
    assert HasSection(rs, i);
    k :| i < k < |rs| && rs[k].section && forall m :: i < m < k ==> !rs[m].heading;
  }

  /** Between two releases of a well formed changelog there is a section. */
  lemma {:induction false} SectionsBetweenReleases(lines: seq<string>, rs: seq<Line>, expected: Option<Version>, required: bool, today: Date,
                                                   i: nat, j: nat)
    returns (k: nat)
    requires AreRead(lines, rs) && WellFormed(rs, expected, required, today)
    requires i < j < |lines| && rs[i].heading && rs[j].heading
    ensures i < k < j && "### " <= lines[k] && Strip(lines[k][4..]) != ""
  {
    k := SectionBefore(rs, i, j);
    SectionIsNoHeading(lines, rs, k);
    SectionText(lines, rs, k);
  }

  /** In a well formed changelog the expected version is listed with none above it in precedence. */
  lemma {:induction false} ExpectedIsNewest(lines: seq<string>, expected: Version, required: bool, today: Date, i: nat)
    requires WellFormed(ReadAll(lines), Some(expected), required, today)
    requires i < |lines| && ReadAll(lines)[i].heading
    ensures var version := ReadAll(lines)[i].version; version.Some? && !VersionLess(expected, version.value)
  {
    var rs := ReadAll(lines);
    ReadIsFaithful(lines, rs);
    NoneAbove(rs, expected, required, today, i);
  }

  // ---------------------------------------------------------------- sections of one's own

  /** A section line follows line `i` before the next release or Unreleased heading. */
  ghost predicate HasOwnSection(rs: seq<Line>, i: nat) {
    exists k :: i < k < |rs| && rs[k].section && forall m :: i < m < k ==> !rs[m].heading && !rs[m].unreleased
  }

  ghost predicate EachHasOwnSection(rs: seq<Line>) {
    forall i {:trigger HasOwnSection(rs, i)} :: 0 <= i < |rs| && rs[i].heading ==> HasOwnSection(rs, i)
  }

  /** Line `i` is the last release heading above an Unreleased line. */
  ghost predicate LastAboveUnreleased(rs: seq<Line>, i: nat) {
    && i < |rs| && rs[i].heading
    && exists u :: i < u < |rs| && rs[u].unreleased && forall m :: i < m < u ==> !rs[m].heading
  }

  lemma {:induction false} OwnUnlessLent(rs: seq<Line>, i: nat)
    requires i < |rs| && rs[i].heading && HasSection(rs, i)
    ensures HasOwnSection(rs, i) || LastAboveUnreleased(rs, i)
  {
    var k :| i < k < |rs| && rs[k].section && forall m :: i < m < k ==> !rs[m].heading;
    if u :| i < u < k && rs[u].unreleased {
      assert LastAboveUnreleased(rs, i);
    }
  }

  lemma {:induction false} OneLastAbove(rs: seq<Line>, required: bool, i: nat, j: nat)
    requires OneUnreleased(rs, required) && LastAboveUnreleased(rs, i) && LastAboveUnreleased(rs, j)
    ensures i == j
  {
    var u :| i < u < |rs| && rs[u].unreleased && forall m :: i < m < u ==> !rs[m].heading;
    var w :| j < w < |rs| && rs[w].unreleased && forall m :: j < m < w ==> !rs[m].heading;
    assert u == w;
  }

  /**
   In a well formed changelog every release has a section of its own exactly
   if the last release above the Unreleased heading has one; there is at most
   one such release, and none if Unreleased comes first.
   */
  lemma {:induction false} OwnSectionsExactly(lines: seq<string>, expected: Option<Version>, required: bool, today: Date)
    requires WellFormed(ReadAll(lines), expected, required, today)
    ensures var rs := ReadAll(lines);
      EachHasOwnSection(rs) <==> forall i {:trigger LastAboveUnreleased(rs, i)} :: LastAboveUnreleased(rs, i) ==> HasOwnSection(rs, i)
    ensures var rs := ReadAll(lines);
      forall i, j {:trigger LastAboveUnreleased(rs, i), LastAboveUnreleased(rs, j)} ::
        LastAboveUnreleased(rs, i) && LastAboveUnreleased(rs, j) ==> i == j
    ensures var rs := ReadAll(lines);
      (forall i, u :: 0 <= i < u < |rs| && rs[i].heading ==> !rs[u].unreleased) ==> EachHasOwnSection(rs)
  {
    var rs := ReadAll(lines);
    forall i | 0 <= i < |rs| && rs[i].heading ensures HasOwnSection(rs, i) || LastAboveUnreleased(rs, i) {
      OwnUnlessLent(rs, i);
    }
    forall i, j | LastAboveUnreleased(rs, i) && LastAboveUnreleased(rs, j) ensures i == j { OneLastAbove(rs, required, i, j); }
  }

  // ---------------------------------------------------------------- text without a section of its own

  lemma {:induction false} StripEnds(s: string)
    requires s != "" && !IsSpace(s[0]) && !IsSpace(s[|s| - 1])
    ensures Strip(s) == s
  {
  }

  /** The heading of a release as it is written. */
  function HeadingText(version: Version, date: string): string
    requires Constructible(version)
  {
    OPENING + Str(version) + "]" + (SEPARATOR + date)
  }

  lemma {:induction false} NoBracket(version: Version)
    requires Constructible(version)
    ensures Str(version) != "" && ']' !in Str(version)
  {
    var g := GroupsOf(version);
    PrintIsText(version);
    NumeralsPrinted(version);
    NotInCore(g, ']');
    JoinedSplits(version.prerelease);
    JoinedSplits(version.build);
    assert ']' !in Suffix('-', g.prerelease) && ']' !in Suffix('+', g.build);
  }

  /** What a heading with its groups says, but for whether it is one. */
  lemma {:induction false} GroupsRead(s: string, name: string, date: Option<string>)
    requires MatchesHeading(s, name, date) && Strip(s) == s
    ensures VersionOf(s) == if date.Some? && Parse(name).Success? then Some(Parse(name).value) else None
    ensures DateOf(s) == if date.Some? then ParseDate(date.value) else None
  {
    HeadingGroupsComplete(s, name, date);
  }

  lemma {:induction false} HeadingIsNoSection(s: string)
    requires |s| > 3 && s[2] == ' '
    ensures !IsSection(s)
  {
    assert "### "[2] == '#';
  }

  lemma {:induction false} DatedIsRelease(s: string, c: char)
    requires OPENING <= s && Strip(s) == s && s[|s| - 1] == c && IsDigit(c)
    ensures IsHeading(s) && Strip(s) != UNRELEASED
  {
    assert UNRELEASED[|UNRELEASED| - 1] == ']';
  }

  lemma {:induction false} HeadingShape(version: Version, date: string)
    requires Constructible(version) && IsDateText(date)
    ensures var s := HeadingText(version, date);
      |s| > 10 && OPENING <= s && s[0] == '#' && s[2] == ' ' && s[|s| - 1] == date[9]
    ensures MatchesHeading(HeadingText(version, date), Str(version), Some(date))
  {
    NoBracket(version);
  }

  /** What the validator writes as a heading reads as its version and its date. */
  lemma {:induction false} HeadingReads(version: Version, date: string)
    requires Constructible(version) && Printable(version) && IsDateText(date)
    ensures HeadingText(version, date) == "## [" + Str(version) + "] - " + date
    ensures LineOf(HeadingText(version, date)) == Line(true, false, false, Some(version), Str(version), ParseDate(date))
  {
    var s := HeadingText(version, date);
    assert s == "## [" + Str(version) + "] - " + date;
    HeadingShape(version, date);
    StripEnds(s);
    GroupsRead(s, Str(version), Some(date));
    ParseOfPrint(version);
    DatedIsRelease(s, date[9]);
    HeadingIsNoSection(s);
  }

  lemma {:induction false} UnreleasedReads()
    ensures LineOf(UNRELEASED) == Line(false, true, false, None, "", None)
  {
    var s, name := UNRELEASED, "Unreleased";
    StripEnds(s);
    assert s == OPENING + name + "]" + "" && ']' !in name;
    GroupsRead(s, name, None);
    HeadingIsNoSection(s);
  }

  lemma {:induction false} SectionReads(line: string)
    requires line == "### Added"
    ensures LineOf(line) == Line(false, false, true, None, "", None)
  {
    StripEnds(line);
    StripEnds("Added");
    assert line[4..] == "Added" && line[2] == '#' && OPENING[2] == ' ';
  }

  lemma {:induction false} ReadThree(a: string, b: string, c: string)
    ensures ReadAll([a, b, c]) == [LineOf(a), LineOf(b), LineOf(c)]
  {
    var lines := [a, b, c];
    var rs := ReadAll(lines);
    assert IsRead(lines, rs, 0) && IsRead(lines, rs, 1) && IsRead(lines, rs, 2);
  }

  lemma {:induction false} LentSection(rs: seq<Line>, version: Version, date: Date, today: Date)
    requires Constructible(version) && !DateLess(today, date)
    requires rs == [Line(true, false, false, Some(version), Str(version), Some(date)),
                    Line(false, true, false, None, "", None), Line(false, false, true, None, "", None)]
    ensures WellFormed(rs, Some(version), true, today) && !HasOwnSection(rs, 0)
  {
    assert rs[1].unreleased && rs[2].section && rs[0].version == Some(version);
    assert HasSection(rs, 0);
  }

  /**
   An Unreleased heading does not end a release: below it any release finds the
   section it is required to have, although it has none of its own.
   */
  lemma {:induction false} UnreleasedLendsItsSections(version: Version, date: string, today: Date)
    requires Constructible(version) && Printable(version)
    requires IsDateText(date) && ParseDate(date).Some? && !DateLess(today, ParseDate(date).value)
    ensures var rs := ReadAll([HeadingText(version, date), UNRELEASED, "### Added"]);
      |rs| == 3 && rs[0].heading && WellFormed(rs, Some(version), true, today) && !HasOwnSection(rs, 0)
  {
    HeadingReads(version, date);
    UnreleasedReads();
    SectionReads("### Added");
    ReadThree(HeadingText(version, date), UNRELEASED, "### Added");
    LentSection(ReadAll([HeadingText(version, date), UNRELEASED, "### Added"]), version, ParseDate(date).value, today);
  }

  lemma {:induction false} NewYear2024(date: string)
    requires date == "2024-01-01"
    ensures IsDateText(date) && ParseDate(date) == Some(Date(2024, 1, 1))
  {
    DateReads(date);
    assert date[0] == '2' && date[1] == '0' && date[2] == '2' && date[3] == '4';
    assert date[5] == '0' && date[6] == '1' && date[8] == '0' && date[9] == '1';
  }

  /** One such text. */
  lemma {:induction false} ReleaseWithoutSection(today: Date)
    requires !DateLess(today, Date(2024, 1, 1))
    ensures var rs := ReadAll(["## [1.0.0] - 2024-01-01", "## [Unreleased]", "### Added"]);
      && WellFormed(rs, Some(Version(1, 0, 0, [], [])), true, today)
      && |rs| == 3 && rs[0].heading && !HasOwnSection(rs, 0)
  {
    var version := Version(1, 0, 0, [], []);
    assert Str(version) == "1.0.0";
    assert HeadingText(version, "2024-01-01") == "## [1.0.0] - 2024-01-01";
    NewYear2024("2024-01-01");
    UnreleasedLendsItsSections(version, "2024-01-01", today);
  }
}
