/** Semantic versions: parsing, printing and precedence (Semantic Versioning 2.0.0). */
module ReleaseVersion {
  import opened Wrappers
  import opened Ordering
  import opened Text

  datatype Version = Version(major: int, minor: int, patch: int, prerelease: seq<string>, build: seq<string>)

  predicate IsIdentifierChar(c: char) {
    IsDigit(c) || IsLetter(c) || c == '-'
  }

  /** `[0-9A-Za-z-]+` */
  predicate IsIdentifier(s: string) {
    s != "" && forall i :: 0 <= i < |s| ==> IsIdentifierChar(s[i])
  }

  /** `0|[1-9]\d*|[A-Za-z-][0-9A-Za-z-]*`: what the pattern takes as a prerelease identifier. */
  predicate IsPrereleaseAtom(s: string) {
    IsNumeral(s) || (IsIdentifier(s) && !IsDigit(s[0]))
  }

  /** What `__post_init__` accepts. */
  predicate Constructible(v: Version) {
    && v.major >= 0 && v.minor >= 0 && v.patch >= 0
    && (forall id :: id in v.prerelease ==> IsIdentifier(id) && (AllDigits(id) ==> IsNumeral(id)))
    && forall id :: id in v.build ==> IsIdentifier(id)
  }

  // ---------------------------------------------------------------- parsing

  /** The groups of the version pattern. */
  datatype Groups = Groups(
    major: string, minor: string, patch: string, prerelease: Option<string>, build: Option<string>)

  function Suffix(mark: char, group: Option<string>): string {
    if group.Some? then [mark] + group.value else ""
  }

  function CoreText(g: Groups): string {
    g.major + "." + g.minor + "." + g.patch
  }

  function TextOf(g: Groups): string {
    CoreText(g) + Suffix('-', g.prerelease) + Suffix('+', g.build)
  }

  /** The version pattern: `s` matches with the given groups. */
  ghost predicate Matches(s: string, g: Groups) {
    && s == TextOf(g)
    && IsNumeral(g.major) && IsNumeral(g.minor) && IsNumeral(g.patch)
    && (g.prerelease.Some? ==> forall p :: p in Split(g.prerelease.value, '.') ==> IsPrereleaseAtom(p))
    && (g.build.Some? ==> forall p :: p in Split(g.build.value, '.') ==> IsIdentifier(p))
  }

  /** Everything before the first `mark`, and what follows it. */
  function Cut(s: string, mark: char): (string, Option<string>) {
    var i := Find(s, mark);
    if i < |s| then (s[..i], Some(s[i + 1..])) else (s, None)
  }

  function FullMatch(s: string): Option<Groups> {
    var (rest, build) := Cut(s, '+');
    var (core, prerelease) := Cut(rest, '-');
    var numbers := Split(core, '.');
    if && |numbers| == 3
       && IsNumeral(numbers[0]) && IsNumeral(numbers[1]) && IsNumeral(numbers[2])
       && (prerelease.Some? ==> forall p :: p in Split(prerelease.value, '.') ==> IsPrereleaseAtom(p))
       && (build.Some? ==> forall p :: p in Split(build.value, '.') ==> IsIdentifier(p))
    then Some(Groups(numbers[0], numbers[1], numbers[2], prerelease, build))
    else None
  }

  lemma {:induction false} CutText(head: string, mark: char, group: Option<string>)
    requires mark !in head
    ensures Cut(head + Suffix(mark, group), mark) == (head, group)
  {
    if group.Some? {
      var s := head + [mark] + group.value;
      assert s == head + Suffix(mark, group);
      FindFirst(head, mark, group.value);
      assert s[|head|] == mark && s[..|head|] == head && s[|head| + 1..] == group.value;
    } else {
      assert head + Suffix(mark, group) == head;
    }
  }

  lemma {:induction false} CutJoins(s: string, mark: char)
    ensures var (head, group) := Cut(s, mark); s == head + Suffix(mark, group)
  {
    var i := Find(s, mark);
    if i < |s| { assert s == s[..i] + [mark] + s[i + 1..]; }
  }

  lemma {:induction false} PartsChars(s: string, c: char)
    requires forall p :: p in Split(s, '.') ==> IsIdentifier(p)
    requires !IsIdentifierChar(c) && c != '.'
    ensures c !in s
  {
    JoinOfSplit(s, '.');
    JoinChars(Split(s, '.'), '.');
  }

  lemma {:induction false} JoinThree(parts: seq<string>)
    requires |parts| == 3
    ensures Join(parts, '.') == parts[0] + "." + parts[1] + "." + parts[2]
  {
    assert parts[1..][1..] == [parts[2]];
    assert Join(parts[1..], '.') == parts[1] + "." + parts[2];
    assert parts[0] + "." + (parts[1] + "." + parts[2]) == parts[0] + "." + parts[1] + "." + parts[2];
  }

  lemma {:induction false} FullMatchSound(s: string, g: Groups)
    requires FullMatch(s) == Some(g)
    ensures Matches(s, g)
  {
    var (rest, build) := Cut(s, '+');
    var (core, prerelease) := Cut(rest, '-');
    CutJoins(s, '+');
    CutJoins(rest, '-');
    JoinOfSplit(core, '.');
    JoinThree(Split(core, '.'));
  }

  lemma {:induction false} NotInCore(g: Groups, c: char)
    requires AllDigits(g.major) && AllDigits(g.minor) && AllDigits(g.patch)
    requires !IsDigit(c) && c != '.'
    ensures c !in CoreText(g)
  {
    var a, b := g.major + "." + g.minor, "." + g.patch;
    assert CoreText(g) == a + b;
    assert c !in g.major + "." && c !in g.minor && c !in "." && c !in g.patch;
    assert c !in a && c !in b;
  }

  lemma {:induction false} CoreTextSplits(g: Groups)
    requires AllDigits(g.major) && AllDigits(g.minor) && AllDigits(g.patch)
    ensures Split(CoreText(g), '.') == [g.major, g.minor, g.patch]
  {
    var parts := [g.major, g.minor, g.patch];
    JoinThree(parts);
    forall p | p in parts ensures '.' !in p {}
    SplitOfJoin(parts, '.');
  }

  /** Cutting a text apart at its marks finds the groups it was put together from. */
  lemma {:induction false} CutsFindGroups(g: Groups)
    requires AllDigits(g.major) && AllDigits(g.minor) && AllDigits(g.patch)
    requires g.prerelease.Some? ==> '+' !in g.prerelease.value
    ensures var (rest, build) := Cut(TextOf(g), '+');
      var (core, prerelease) := Cut(rest, '-');
      build == g.build && prerelease == g.prerelease && Split(core, '.') == [g.major, g.minor, g.patch]
  {
    NotInCore(g, '+');
    NotInCore(g, '-');
    CutText(CoreText(g) + Suffix('-', g.prerelease), '+', g.build);
    CutText(CoreText(g), '-', g.prerelease);
    CoreTextSplits(g);
  }

  lemma {:induction false} FullMatchComplete(s: string, g: Groups)
    requires Matches(s, g)
    ensures FullMatch(s) == Some(g)
  {
    if g.prerelease.Some? { PartsChars(g.prerelease.value, '+'); }
    CutsFindGroups(g);
  }

  /** Matching is exact: the groups found are the only ones the pattern allows. */
  lemma {:induction false} FullMatchIsPattern(s: string, g: Groups)
    ensures FullMatch(s) == Some(g) <==> Matches(s, g)
  {
    if FullMatch(s) == Some(g) { FullMatchSound(s, g); }
    if Matches(s, g) { FullMatchComplete(s, g); }
  }

  function Identifiers(group: Option<string>): seq<string> {
    if group.Some? && group.value != "" then Split(group.value, '.') else []
  }

  function Parse(value: string): Result<Version, ()> {
    match FullMatch(Strip(value))
    case None => Failure(())
    case Some(g) =>
      if AllDigits(g.major) && AllDigits(g.minor) && AllDigits(g.patch) then
        Success(Version(FromDecimal(g.major), FromDecimal(g.minor), FromDecimal(g.patch),
                        Identifiers(g.prerelease), Identifiers(g.build)))
      else Failure(())
  }

  function Str(v: Version): string
    requires v.major >= 0 && v.minor >= 0 && v.patch >= 0
  {
    ToDecimal(v.major) + "." + ToDecimal(v.minor) + "." + ToDecimal(v.patch)
    + (if v.prerelease != [] then "-" + Join(v.prerelease, '.') else "")
    + (if v.build != [] then "+" + Join(v.build, '.') else "")
  }

  lemma {:induction false} GroupRoundTrip(group: Option<string>)
    requires group.Some? ==> forall p :: p in Split(group.value, '.') ==> p != ""
    ensures Identifiers(group) != [] <==> group.Some?
    ensures group.Some? ==> Join(Identifiers(group), '.') == group.value
  {
    if group.Some? {
      JoinOfSplit(group.value, '.');
      assert Split("", '.') == [""] && "" in [""];
    }
  }

  /** Printing what was parsed gives the text back, stripped; what is parsed satisfies `__post_init__`. */
  lemma {:induction false} PrintOfParse(s: string)
    ensures Parse(s).Success? ==> Constructible(Parse(s).value) && Str(Parse(s).value) == Strip(s)
  {
    if Parse(s).Success? {
      var g, v := FullMatch(Strip(s)).value, Parse(s).value;
      FullMatchIsPattern(Strip(s), g);
      DecimalOfNumeral(g.major);
      DecimalOfNumeral(g.minor);
      DecimalOfNumeral(g.patch);
      GroupRoundTrip(g.prerelease);
      GroupRoundTrip(g.build);
      assert Constructible(v);
      assert Suffix('-', g.prerelease) == if v.prerelease != [] then "-" + Join(v.prerelease, '.') else "";
      assert Suffix('+', g.build) == if v.build != [] then "+" + Join(v.build, '.') else "";
    }
  }

  /** The versions whose text the pattern accepts: no prerelease identifier mixes a leading digit with other characters. */
  predicate Printable(v: Version) {
    forall id :: id in v.prerelease ==> AllDigits(id) || (id != "" && !IsDigit(id[0]))
  }

  function Joined(ids: seq<string>): Option<string> {
    if ids == [] then None else Some(Join(ids, '.'))
  }

  function GroupsOf(v: Version): Groups
    requires v.major >= 0 && v.minor >= 0 && v.patch >= 0
  {
    Groups(ToDecimal(v.major), ToDecimal(v.minor), ToDecimal(v.patch), Joined(v.prerelease), Joined(v.build))
  }

  lemma {:induction false} JoinedSplits(ids: seq<string>)
    requires forall id :: id in ids ==> IsIdentifier(id)
    ensures Identifiers(Joined(ids)) == ids
    ensures ids != [] ==> Split(Joined(ids).value, '.') == ids
    ensures ids != [] ==> forall c :: c in Joined(ids).value ==> IsIdentifierChar(c) || c == '.'
  {
    if ids != [] {
      forall id | id in ids ensures '.' !in id {}
      SplitOfJoin(ids, '.');
      JoinChars(ids, '.');
      assert ids[0] in ids;
    }
  }

  lemma {:induction false} PrintIsText(v: Version)
    requires Constructible(v)
    ensures Str(v) == TextOf(GroupsOf(v))
  {
    var g := GroupsOf(v);
    assert Suffix('-', g.prerelease) == if v.prerelease != [] then "-" + Join(v.prerelease, '.') else "";
    assert Suffix('+', g.build) == if v.build != [] then "+" + Join(v.build, '.') else "";
  }

  lemma {:induction false} NumeralsPrinted(v: Version)
    requires v.major >= 0 && v.minor >= 0 && v.patch >= 0
    ensures var g := GroupsOf(v); IsNumeral(g.major) && IsNumeral(g.minor) && IsNumeral(g.patch)
    ensures var g := GroupsOf(v);
      FromDecimal(g.major) == v.major && FromDecimal(g.minor) == v.minor && FromDecimal(g.patch) == v.patch
  {
    NumeralOfDecimal(v.major);
    NumeralOfDecimal(v.minor);
    NumeralOfDecimal(v.patch);
  }

  lemma {:induction false} PrintNeedsNoStrip(v: Version)
    requires Constructible(v)
    ensures Strip(Str(v)) == Str(v)
  {
    var g := GroupsOf(v);
    PrintIsText(v);
    NumeralsPrinted(v);
    JoinedSplits(v.prerelease);
    JoinedSplits(v.build);
    forall c | IsSpace(c) ensures c !in Str(v) {
      NotInCore(g, c);
      assert c !in Suffix('-', g.prerelease) && c !in Suffix('+', g.build);
    }
    StripNothing(Str(v));
  }

  lemma {:induction false} PrintableMeansAtoms(v: Version)
    requires Constructible(v)
    ensures Printable(v) <==> forall p :: p in v.prerelease ==> IsPrereleaseAtom(p)
  {
  }

  /** The groups read off a constructible version's text are the printed ones, if the text matches at all. */
  lemma {:induction false} PrintedMatch(v: Version)
    requires Constructible(v)
    ensures FullMatch(Str(v)) == if Printable(v) then Some(GroupsOf(v)) else None
  {
    var g := GroupsOf(v);
    PrintIsText(v);
    NumeralsPrinted(v);
    JoinedSplits(v.prerelease);
    JoinedSplits(v.build);
    PrintableMeansAtoms(v);
    CutsFindGroups(g);
  }

  /**
   Parsing what was printed gives the version back exactly when no prerelease
   identifier starts with a digit and goes on with something else; section 9 of
   Semantic Versioning 2.0.0 allows such identifiers, the pattern does not.
   */
  lemma {:induction false} ParseOfPrint(v: Version)
    requires Constructible(v)
    ensures Parse(Str(v)) == if Printable(v) then Success(v) else Failure(())
  {
    PrintedMatch(v);
    PrintNeedsNoStrip(v);
    NumeralsPrinted(v);
    JoinedSplits(v.prerelease);
    JoinedSplits(v.build);
  }

  /** What the identifiers of a version text are made of. */
  lemma {:induction false} IdentifierText(s: string)
    ensures IsIdentifier(s) <==>
      s != "" && forall c :: c in s ==> '0' <= c <= '9' || 'A' <= c <= 'Z' || 'a' <= c <= 'z' || c == '-'
    ensures IsNumeral(s) <==> s != "" && (forall c :: c in s ==> '0' <= c <= '9') && (s[0] == '0' ==> s == "0")
    ensures IsPrereleaseAtom(s) <==> IsIdentifier(s) && ('0' <= s[0] <= '9' ==> IsNumeral(s))
  {
    assert forall i :: 0 <= i < |s| ==> s[i] in s;
    assert s != "" && s[0] == '0' && |s| == 1 ==> s == "0";
  }

  /** A version text reads as its parts, in their order. */
  lemma {:induction false} TextReadsAsItsParts(major: string, minor: string, patch: string, prerelease: seq<string>, build: seq<string>)
    requires IsNumeral(major) && IsNumeral(minor) && IsNumeral(patch)
    requires (forall id :: id in prerelease ==> IsPrereleaseAtom(id)) && forall id :: id in build ==> IsIdentifier(id)
    ensures var text := major + "." + minor + "." + patch
        + (if prerelease == [] then "" else "-" + Join(prerelease, '.')) + (if build == [] then "" else "+" + Join(build, '.'));
      && Parse(text).Success?
      && var v := Parse(text).value;
         && v.major == FromDecimal(major) && v.minor == FromDecimal(minor) && v.patch == FromDecimal(patch)
         && v.prerelease == prerelease && v.build == build
  {
    var v := Version(FromDecimal(major), FromDecimal(minor), FromDecimal(patch), prerelease, build);
    assert Constructible(v) && Printable(v);
    DecimalOfNumeral(major);
    DecimalOfNumeral(minor);
    DecimalOfNumeral(patch);
    ParseOfPrint(v);
  }

  // ---------------------------------------------------------------- precedence

  /** The comparison of two differing identifiers in `__lt__`. */
  predicate IdentifierLess(left: string, right: string) {
    if AllDigits(left) && AllDigits(right) then FromDecimal(left) < FromDecimal(right)
    else if AllDigits(left) then true
    else if AllDigits(right) then false
    else Less(left, right)
  }

  /** The loop of `__lt__` over the prerelease identifiers. */
  predicate TailLess(p: seq<string>, q: seq<string>) {
    if p == [] || q == [] then |p| < |q|
    else if p[0] == q[0] then TailLess(p[1..], q[1..])
    else IdentifierLess(p[0], q[0])
  }

  predicate CoreLess(a: Version, b: Version) {
    a.major < b.major || (a.major == b.major && (a.minor < b.minor || (a.minor == b.minor && a.patch < b.patch)))
  }

  predicate SameCore(a: Version, b: Version) {
    a.major == b.major && a.minor == b.minor && a.patch == b.patch
  }

  /** `__lt__` */
  predicate VersionLess(a: Version, b: Version) {
    if !SameCore(a, b) then CoreLess(a, b)
    else if a.prerelease == b.prerelease then false
    else if a.prerelease == [] then false
    else if b.prerelease == [] then true
    else TailLess(a.prerelease, b.prerelease)
  }

  /** Equal precedence: the build metadata does not count. */
  predicate SamePrecedence(a: Version, b: Version) {
    SameCore(a, b) && a.prerelease == b.prerelease
  }

  predicate ValidIdentifiers(ids: seq<string>) {
    forall id :: id in ids ==> IsIdentifier(id) && (AllDigits(id) ==> IsNumeral(id))
  }

  /** Section 11.4 of Semantic Versioning 2.0.0, items 1 to 3. */
  ghost predicate LowerIdentifier(left: string, right: string) {
    || (AllDigits(left) && AllDigits(right) && FromDecimal(left) < FromDecimal(right))
    || (AllDigits(left) && !AllDigits(right))
    || (!AllDigits(left) && !AllDigits(right) && Less(left, right))
  }

  ghost predicate SameIdentifier(left: string, right: string) {
    if AllDigits(left) && AllDigits(right) then FromDecimal(left) == FromDecimal(right) else left == right
  }

  ghost predicate SameUpTo(p: seq<string>, q: seq<string>, n: nat)
    requires n <= |p| && n <= |q|
  {
    forall i :: 0 <= i < n ==> SameIdentifier(p[i], q[i])
  }

  /** Section 11.4: the first difference decides, and otherwise the smaller set of fields is lower. */
  ghost predicate LowerPrerelease(p: seq<string>, q: seq<string>) {
    exists n {:trigger SameUpTo(p, q, n)} :: 0 <= n <= |p| && n <= |q| && SameUpTo(p, q, n)
      && ((n < |p| && n < |q| && LowerIdentifier(p[n], q[n])) || (n == |p| && n < |q|))
  }

  /** Section 11.2: major, minor and patch, compared in that order. */
  ghost predicate LowerCore(a: Version, b: Version) {
    var p, q := [a.major, a.minor, a.patch], [b.major, b.minor, b.patch];
    exists n :: 0 <= n < 3 && p[n] < q[n] && forall i :: 0 <= i < n ==> p[i] == q[i]
  }

  /** Section 11 of Semantic Versioning 2.0.0. */
  ghost predicate LowerPrecedence(a: Version, b: Version) {
    || LowerCore(a, b)
    || (!LowerCore(b, a) && a.prerelease != [] && b.prerelease == [])
    || (!LowerCore(b, a) && a.prerelease != [] && b.prerelease != [] && LowerPrerelease(a.prerelease, b.prerelease))
  }

  lemma {:induction false} LowerCoreMeans(a: Version, b: Version)
    ensures LowerCore(a, b) <==>
      || a.major < b.major
      || (a.major == b.major && a.minor < b.minor)
      || (a.major == b.major && a.minor == b.minor && a.patch < b.patch)
  {
    var p, q := [a.major, a.minor, a.patch], [b.major, b.minor, b.patch];
    assert p[0] == a.major && p[1] == a.minor && p[2] == a.patch;
    assert q[0] == b.major && q[1] == b.minor && q[2] == b.patch;
  }

  lemma {:induction false} CoreLessIsLower(a: Version, b: Version)
    ensures CoreLess(a, b) <==> LowerCore(a, b)
    ensures SameCore(a, b) <==> !LowerCore(a, b) && !LowerCore(b, a)
  {
    var p, q := [a.major, a.minor, a.patch], [b.major, b.minor, b.patch];
    assert p[0] == a.major && p[1] == a.minor && p[2] == a.patch;
    assert q[0] == b.major && q[1] == b.minor && q[2] == b.patch;
    LowerCoreMeans(a, b);
    LowerCoreMeans(b, a);
  }

  /** Without leading zeroes, numeric identifiers of one value are one identifier. */
  lemma {:induction false} SameMeansEqual(left: string, right: string)
    requires AllDigits(left) ==> IsNumeral(left)
    requires AllDigits(right) ==> IsNumeral(right)
    ensures SameIdentifier(left, right) <==> left == right
  {
    if AllDigits(left) && AllDigits(right) {
      DecimalOfNumeral(left);
      DecimalOfNumeral(right);
    }
  }

  lemma {:induction false} TailLessIsLower(p: seq<string>, q: seq<string>)
    requires ValidIdentifiers(p) && ValidIdentifiers(q)
    ensures TailLess(p, q) <==> LowerPrerelease(p, q)
  {
    if p == [] || q == [] {
      assert SameUpTo(p, q, 0);
    } else {
      assert p[0] in p && q[0] in q;
      SameMeansEqual(p[0], q[0]);
      TailLessIsLower(p[1..], q[1..]);
      if p[0] == q[0] {
        if LowerPrerelease(p[1..], q[1..]) {
          var n :| 0 <= n <= |p[1..]| && n <= |q[1..]| && SameUpTo(p[1..], q[1..], n)
            && ((n < |p[1..]| && n < |q[1..]| && LowerIdentifier(p[1..][n], q[1..][n])) || (n == |p[1..]| && n < |q[1..]|));
          forall i | 0 <= i < n + 1 ensures SameIdentifier(p[i], q[i]) {
            if 0 < i { assert p[i] == p[1..][i - 1] && q[i] == q[1..][i - 1]; }
          }
          assert SameUpTo(p, q, n + 1);
        }
        if LowerPrerelease(p, q) {
          var n :| 0 <= n <= |p| && n <= |q| && SameUpTo(p, q, n)
            && ((n < |p| && n < |q| && LowerIdentifier(p[n], q[n])) || (n == |p| && n < |q|));
          LessIrreflexive(p[0]);
          assert n > 0;
          assert SameUpTo(p[1..], q[1..], n - 1);
        }
      } else {
        assert SameUpTo(p, q, 0);
        forall n | 0 < n <= |p| && n <= |q| ensures !SameUpTo(p, q, n) { assert !SameIdentifier(p[0], q[0]); }
      }
    }
  }

  lemma {:induction false} TailIrreflexive(p: seq<string>)
    ensures !TailLess(p, p)
  {
    if p != [] { TailIrreflexive(p[1..]); }
  }

  /** `__lt__` is the precedence of section 11 on every version that can be constructed. */
  lemma {:induction false} VersionLessIsPrecedence(a: Version, b: Version)
    requires Constructible(a) && Constructible(b)
    ensures VersionLess(a, b) <==> LowerPrecedence(a, b)
  {
    CoreLessIsLower(a, b);
    CoreLessIsLower(b, a);
    if SameCore(a, b) && a.prerelease != [] && b.prerelease != [] {
      TailLessIsLower(a.prerelease, b.prerelease);
      if a.prerelease == b.prerelease { TailIrreflexive(a.prerelease); }
    }
  }

  /** The example of section 11.4.4 of Semantic Versioning 2.0.0, and that of section 11.2. */
  lemma {:induction false} PrecedenceExamples()
    ensures var v := (p: seq<string>) => Version(1, 0, 0, p, []);
      && VersionLess(v(["alpha"]), v(["alpha", "1"])) && VersionLess(v(["alpha", "1"]), v(["alpha", "beta"]))
      && VersionLess(v(["alpha", "beta"]), v(["beta"])) && VersionLess(v(["beta"]), v(["beta", "2"]))
      && VersionLess(v(["beta", "2"]), v(["beta", "11"])) && VersionLess(v(["beta", "11"]), v(["rc", "1"]))
      && VersionLess(v(["rc", "1"]), v([]))
    ensures VersionLess(Version(1, 0, 0, [], []), Version(2, 0, 0, [], []))
    ensures VersionLess(Version(2, 0, 0, [], []), Version(2, 1, 0, [], []))
    ensures VersionLess(Version(2, 1, 0, [], []), Version(2, 1, 1, [], []))
  {
    NumeralsOrder("2", "11");
    assert ["alpha"][0] == ["alpha", "1"][0] == ["alpha", "beta"][0] && ["beta", "2"][0] == ["beta", "11"][0] == ["beta"][0];
    assert TailLess(["alpha"][1..], ["alpha", "1"][1..]) && TailLess(["beta"][1..], ["beta", "2"][1..]);
    assert TailLess(["alpha", "1"][1..], ["alpha", "beta"][1..]) && TailLess(["beta", "2"][1..], ["beta", "11"][1..]);
  }

  lemma {:induction false} IdentifierTransitive(a: string, b: string, c: string)
    requires IdentifierLess(a, b) && IdentifierLess(b, c)
    ensures IdentifierLess(a, c)
  {
    if !AllDigits(a) && !AllDigits(b) && !AllDigits(c) { LessTransitive(a, b, c); }
  }

  lemma {:induction false} IdentifierIrreflexive(a: string)
    ensures !IdentifierLess(a, a)
  {
    LessIrreflexive(a);
  }

  lemma {:induction false} TailTransitive(p: seq<string>, q: seq<string>, r: seq<string>)
    requires TailLess(p, q) && TailLess(q, r)
    ensures TailLess(p, r)
  {
    if p != [] && q != [] && r != [] {
      if p[0] == q[0] && q[0] == r[0] {
        TailTransitive(p[1..], q[1..], r[1..]);
      } else if p[0] != q[0] && q[0] != r[0] {
        IdentifierTransitive(p[0], q[0], r[0]);
        IdentifierIrreflexive(p[0]);
      }
    }
  }

  lemma {:induction false} TailTotal(p: seq<string>, q: seq<string>)
    requires ValidIdentifiers(p) && ValidIdentifiers(q) && p != q
    ensures TailLess(p, q) || TailLess(q, p)
  {
    if p != [] && q != [] {
      assert p[0] in p && q[0] in q;
      if p[0] == q[0] {
        assert p == [p[0]] + p[1..] && q == [q[0]] + q[1..];
        TailTotal(p[1..], q[1..]);
      } else {
        SameMeansEqual(p[0], q[0]);
        LessTotal(p[0], q[0]);
      }
    }
  }

  lemma {:induction false} VersionLessTransitive(a: Version, b: Version, c: Version)
    requires VersionLess(a, b) && VersionLess(b, c)
    ensures VersionLess(a, c)
  {
    if SameCore(a, b) && SameCore(b, c) && c.prerelease != [] {
      TailTransitive(a.prerelease, b.prerelease, c.prerelease);
      TailIrreflexive(a.prerelease);
    }
  }

  /** Of two constructible versions one has the lower precedence, or they differ in build metadata only. */
  lemma {:induction false} VersionTrichotomy(a: Version, b: Version)
    requires Constructible(a) && Constructible(b)
    ensures SamePrecedence(a, b) <==> !VersionLess(a, b) && !VersionLess(b, a)
    ensures !(VersionLess(a, b) && VersionLess(b, a))
  {
    if SameCore(a, b) && a.prerelease != b.prerelease && a.prerelease != [] && b.prerelease != [] {
      TailTotal(a.prerelease, b.prerelease);
    }
    if VersionLess(a, b) && VersionLess(b, a) {
      VersionLessTransitive(a, b, a);
    }
  }

  /** `__lt__` is a strict weak order: what does not precede does not precede, transitively. */
  lemma {:induction false} NotLessTransitive(a: Version, b: Version, c: Version)
    requires Constructible(a) && Constructible(b) && Constructible(c)
    requires !VersionLess(a, b) && !VersionLess(b, c)
    ensures !VersionLess(a, c)
  {
    VersionTrichotomy(a, b);
    VersionTrichotomy(b, c);
    VersionTrichotomy(a, c);
    if VersionLess(c, b) && VersionLess(b, a) { VersionLessTransitive(c, b, a); }
  }

  /** Leading zeroes, which construction rejects, would leave two versions of different text incomparable. */
  lemma {:induction false} LeadingZeroesAreIncomparable()
    ensures var a, b := Version(1, 0, 0, ["01"], []), Version(1, 0, 0, ["1"], []);
      && !Constructible(a) && Constructible(b)
      && !SamePrecedence(a, b) && !VersionLess(a, b) && !VersionLess(b, a)
  {
    assert FromDecimal("1") == 1 by { assert "1"[..0] == ""; }
    assert FromDecimal("01") == 1 by {
      assert "01"[..1] == "0" && "0"[..0] == "";
      assert FromDecimal("0") == 0;
    }
    assert "01" in ["01"];
  }

  /** The `<=` that `total_ordering` derives compares by `__lt__` or full equality. */
  predicate VersionAtMost(a: Version, b: Version) {
    VersionLess(a, b) || a == b
  }

  /** It is total exactly up to build metadata. */
  lemma {:induction false} AtMostIsTotalUpToBuild(a: Version, b: Version)
    requires Constructible(a) && Constructible(b)
    ensures !VersionAtMost(a, b) && !VersionAtMost(b, a) <==> SamePrecedence(a, b) && a.build != b.build
  {
    VersionTrichotomy(a, b);
  }

  /** Printable versions of different precedence have different texts. */
  lemma {:induction false} PrecedenceShowsInText(a: Version, b: Version)
    requires Constructible(a) && Printable(a) && Constructible(b) && Printable(b) && VersionLess(a, b)
    ensures Str(a) != Str(b)
  {
    ParseOfPrint(a);
    ParseOfPrint(b);
    VersionTrichotomy(a, a);
  }
}
