/** What usage records say: the names that are read, how numbers are written, and where a record comes from. */
module UsageReading {
  import opened Wrappers
  import opened Text
  import opened Json
  import opened TokenUsage

  // ---------------------------------------------------------------- numbers

  lemma {:induction false} DigitsOfParts(parts: seq<string>)
    requires parts != [] && forall part :: part in parts ==> AllDigits(part)
    ensures Split(Join(parts, '_'), '_') == parts
    ensures Join(parts, '_') != "" && IsDigit(Join(parts, '_')[0]) && IsDigit(Join(parts, '_')[|Join(parts, '_')| - 1])
  {
    assert parts[0] in parts;
    forall part | part in parts ensures '_' !in part {}
    SplitOfJoin(parts, '_');
    if |parts| > 1 { DigitsOfParts(parts[1..]); }
  }

  /** Blanks around it and single underscores in it do not change what a number says, and a sign does. */
  lemma {:induction false} NumbersInText(front: string, sign: string, parts: seq<string>, back: string)
    requires forall c :: c in front + back ==> c in " \t\n\U{b}\U{c}\r\U{1c}\U{1d}\U{1e}\U{1f}"
    requires parts != [] && forall part :: part in parts ==> AllDigits(part)
    requires sign == "" || sign == "+" || sign == "-"
    ensures ParseInt(front + (sign + Join(parts, '_')) + back) ==
      Some(if sign == "-" then -(FromDecimal(Digits(parts)) as int) else FromDecimal(Digits(parts)))
  {
    var digits := Join(parts, '_');
    var s := sign + digits;
    DigitsOfParts(parts);
    assert s[|s| - 1] == digits[|digits| - 1];
    assert if sign == "" then s == digits else s[0] == sign[0] && s[1..] == digits;
    StripTakesBlanks(front, s, back);
  }

  /** Nothing else is a number. */
  lemma {:induction false} OnlyNumbersInText(text: string) returns (sign: string, parts: seq<string>)
    requires ParseInt(text).Some?
    ensures (sign == "" || sign == "+" || sign == "-") && parts != [] && forall part :: part in parts ==> AllDigits(part)
    ensures Strip(text) == sign + Join(parts, '_')
  {
    var s := Strip(text);
    sign := if s != "" && (s[0] == '-' || s[0] == '+') then s[..1] else "";
    var digits := if s != "" && (s[0] == '-' || s[0] == '+') then s[1..] else s;
    parts := Split(digits, '_');
    JoinOfSplit(digits, '_');
  }

  lemma {:induction false} DigitsOfOne(s: string)
    requires AllDigits(s)
    ensures (forall part :: part in [s] ==> AllDigits(part)) && Digits([s]) == s && Join([s], '_') == s
  {
    var parts := [s];
    assert parts[1..] == [] && Digits([]) == "";
    assert s + "" == s;
  }

  lemma {:induction false} TextIsParsed(s: string)
    ensures OptionalInt(String(s)) == ParseInt(s)
  {
  }

  /** A text of digits reads as its number, and with a minus as its negative. */
  lemma {:induction false} DigitsRead(sign: string, s: string)
    requires (sign == "" || sign == "+" || sign == "-") && AllDigits(s)
    ensures OptionalInt(String(sign + s)) == Some(if sign == "-" then -(FromDecimal(s) as int) else FromDecimal(s))
  {
    DigitsOfOne(s);
    NumbersInText("", sign, [s], "");
    TextIsParsed(sign + s);
    assert "" + (sign + s) + "" == sign + s;
  }

  // ---------------------------------------------------------------- names

  ghost predicate At(fields: Fields, i: nat, key: string) {
    i < |fields| && fields[i].0 == key && forall j :: 0 <= j < i ==> fields[j].0 != key
  }

  /** The record gives number `n` under this name. */
  ghost predicate Says(fields: Fields, key: string, n: int) {
    exists i: nat {:trigger At(fields, i, key)} :: At(fields, i, key) && OptionalInt(fields[i].1) == Some(n)
  }

  /** The record gives no number under this name. */
  ghost predicate Silent(fields: Fields, key: string) {
    forall i: nat {:trigger At(fields, i, key)} :: At(fields, i, key) ==> OptionalInt(fields[i].1).None?
  }

  /** The first of the names under which the record gives a number gives this one. */
  ghost predicate FirstSays(fields: Fields, names: seq<string>, n: Option<int>) {
    match n
    case None => forall k {:trigger Silent(fields, names[k])} :: 0 <= k < |names| ==> Silent(fields, names[k])
    case Some(m) =>
      exists k {:trigger Says(fields, names[k], m)} :: 0 <= k < |names| && Says(fields, names[k], m)
        && forall j {:trigger Silent(fields, names[j])} :: 0 <= j < k ==> Silent(fields, names[j])
  }

  lemma {:induction false} FieldIndexIsFirst(fields: Fields, key: string)
    ensures var i := FieldIndex(fields, key);
      (forall j :: 0 <= j < i ==> fields[j].0 != key) && (i < |fields| ==> fields[i].0 == key)
  {
    if fields != [] && fields[0].0 != key {
      FieldIndexIsFirst(fields[1..], key);
      var i := FieldIndex(fields, key);
      forall j | 0 <= j < i ensures fields[j].0 != key {
        if j > 0 { assert fields[j] == fields[1..][j - 1]; }
      }
    }
  }

  lemma {:induction false} FieldIntSays(record: Json, key: string)
    requires record.Object?
    ensures FieldInt(record, key, 0).None? ==> Silent(record.fields, key)
    ensures forall n :: Says(record.fields, key, n) ==> FieldInt(record, key, 0) == Some(n)
    ensures Silent(record.fields, key) ==> FieldInt(record, key, 0).None?
    ensures FieldInt(record, key, 0).Some? ==> HasKey(record.fields, key)
  {
    var i := FieldIndex(record.fields, key);
    FieldIndexIsFirst(record.fields, key);
    if i < |record.fields| {
      FieldIntAt(record, key, 0, i);
      assert At(record.fields, i, key);
    } else {
      FieldAbsent(record, key, 0);
    }
    forall j: nat | At(record.fields, j, key) ensures i == j {}
  }

  lemma {:induction false} FirstSaysIs(record: Json, names: seq<string>, n: Option<int>)
    requires record.Object? && FirstSays(record.fields, names, n)
    ensures FirstInt(record, names) == n
    ensures n.Some? ==> exists key :: key in names && HasKey(record.fields, key)
  {
    if n.Some? {
      var k :| 0 <= k < |names| && Says(record.fields, names[k], n.value)
        && forall j {:trigger Silent(record.fields, names[j])} :: 0 <= j < k ==> Silent(record.fields, names[j]);
      forall j | 0 <= j < k ensures FieldInt(record, names[j], 0).None? {
        assert Silent(record.fields, names[j]);
        FieldIntSays(record, names[j]);
      }
      FieldIntSays(record, names[k]);
      FirstIntIsFirst(record, names, n.value);
      assert names[k] in names;
    } else if FirstInt(record, names).Some? {
      var m := FirstInt(record, names).value;
      FirstIntIsFirst(record, names, m);
      var k :| 0 <= k < |names| && FieldInt(record, names[k], 0) == Some(m);
      assert Silent(record.fields, names[k]);
      FieldIntSays(record, names[k]);
    }
  }

  lemma {:induction false} FirstIntConcat(record: Json, a: seq<string>, b: seq<string>)
    requires record.Object?
    ensures FirstInt(record, a + b) == OrElse(FirstInt(record, a), FirstInt(record, b))
  {
    if a == [] {
      assert a + b == b;
    } else {
      assert (a + b)[1..] == a[1..] + b;
      FirstIntConcat(record, a[1..], b);
    }
  }

  /** Numbers are whole numbers, texts of such, and objects that hold one under one of four names. */
  lemma {:induction false} WhatNumbersAre(value: Json, n: Option<int>)
    ensures value.Int? ==> OptionalInt(value) == Some(value.n)
    ensures value.Null? || value.Bool? || value.Float? || value.Array? ==> OptionalInt(value) == None
    ensures value.Object? && FirstSays(value.fields, ["total", "count", "tokens", "value"], n) ==> OptionalInt(value) == n
  {
    if value.Object? && FirstSays(value.fields, ["total", "count", "tokens", "value"], n) {
      FirstSaysIs(value, ["total", "count", "tokens", "value"], n);
    }
  }

  // ---------------------------------------------------------------- records

  /** The object under a name, if there is one. */
  ghost predicate Holds(fields: Fields, key: string, value: Option<Json>) {
    match value
    case None => forall i: nat {:trigger At(fields, i, key)} :: !At(fields, i, key)
    case Some(v) => exists i: nat {:trigger At(fields, i, key)} :: At(fields, i, key) && fields[i].1 == v
  }

  lemma {:induction false} HoldsIs(fields: Fields, key: string, value: Option<Json>)
    ensures Holds(fields, key, value) <==> Get(fields, key) == value
  {
    var i := FieldIndex(fields, key);
    FieldIndexIsFirst(fields, key);
    if i < |fields| { assert At(fields, i, key); }
    forall j: nat | At(fields, j, key) ensures i == j {}
  }

  ghost predicate InputSays(fields: Fields, n: Option<int>) {
    FirstSays(fields, ["input_tokens", "prompt_tokens", "tokens_in", "input", "prompt", "request_tokens", "estimated_input_tokens"], n)
  }

  ghost predicate OutputSays(fields: Fields, n: Option<int>) {
    FirstSays(fields, ["output_tokens", "completion_tokens", "tokens_out", "output", "completion", "response_tokens",
                       "estimated_output_tokens"], n)
  }

  ghost predicate TotalSays(fields: Fields, n: Option<int>) {
    FirstSays(fields, ["total_tokens", "total", "tokens_total", "estimated_tokens", "estimated_total_tokens", "token_estimate",
                       "estimated_input_tokens", "estimated_output_tokens"], n)
  }

  ghost predicate CachedSays(fields: Fields, n: Option<int>) {
    FirstSays(fields, ["cached_tokens", "cached_input_tokens", "input_cached_tokens", "cache_read_input_tokens"], n)
  }

  /** The first of the objects that gives a number of cached tokens gives this one. */
  ghost predicate FirstCached(objects: seq<Fields>, n: Option<int>) {
    if objects == [] then n.None?
    else (n.Some? && CachedSays(objects[0], n)) || (CachedSays(objects[0], None) && FirstCached(objects[1..], n))
  }

  /** Missing, or one of the values that count as false. */
  predicate Blank(value: Option<Json>) {
    || value == None || value == Some(Null) || value == Some(Bool(false)) || value == Some(Int(0)) || value == Some(Float(0.0))
    || value == Some(String("")) || value == Some(Array([])) || value == Some(Object([]))
  }

  lemma {:induction false} BlankIsFalsy(value: Option<Json>)
    ensures Truthy(value) <==> !Blank(value)
  {
  }

  function FieldsIn(details: Option<Json>): seq<Fields> {
    if details.Some? && details.value.Object? then [details.value.fields] else []
  }

  lemma {:induction false} SomeNameLooksLikeUsage(fields: Fields, key: string)
    requires HasKey(fields, key)
    requires key in INPUT_KEYS || key in OUTPUT_KEYS || key in CACHED_KEYS || key in TOTAL_KEYS || key in ESTIMATE_KEYS || key in DETAIL_KEYS
    ensures LooksLikeUsage(fields)
  {
    assert key in INPUT_KEYS + OUTPUT_KEYS + CACHED_KEYS + TOTAL_KEYS + ESTIMATE_KEYS + DETAIL_KEYS;
  }

  lemma {:induction false} InputRead(record: Json, n: Option<int>)
    requires record.Object? && InputSays(record.fields, n)
    ensures OrElse(FirstInt(record, INPUT_KEYS), FirstInt(record, ["estimated_input_tokens"])) == n
    ensures n.Some? ==> LooksLikeUsage(record.fields)
  {
    var names := INPUT_KEYS + ["estimated_input_tokens"];
    assert names == ["input_tokens", "prompt_tokens", "tokens_in", "input", "prompt", "request_tokens", "estimated_input_tokens"];
    FirstSaysIs(record, names, n);
    FirstIntConcat(record, INPUT_KEYS, ["estimated_input_tokens"]);
    if n.Some? {
      var key :| key in names && HasKey(record.fields, key);
      assert key in INPUT_KEYS || key in ESTIMATE_KEYS by { assert ESTIMATE_KEYS[3] == "estimated_input_tokens"; }
      SomeNameLooksLikeUsage(record.fields, key);
    }
  }

  lemma {:induction false} OutputRead(record: Json, n: Option<int>)
    requires record.Object? && OutputSays(record.fields, n)
    ensures OrElse(FirstInt(record, OUTPUT_KEYS), FirstInt(record, ["estimated_output_tokens"])) == n
    ensures n.Some? ==> LooksLikeUsage(record.fields)
  {
    var names := OUTPUT_KEYS + ["estimated_output_tokens"];
    assert names == ["output_tokens", "completion_tokens", "tokens_out", "output", "completion", "response_tokens",
                     "estimated_output_tokens"];
    FirstSaysIs(record, names, n);
    FirstIntConcat(record, OUTPUT_KEYS, ["estimated_output_tokens"]);
    if n.Some? {
      var key :| key in names && HasKey(record.fields, key);
      assert key in OUTPUT_KEYS || key in ESTIMATE_KEYS by { assert ESTIMATE_KEYS[4] == "estimated_output_tokens"; }
      SomeNameLooksLikeUsage(record.fields, key);
    }
  }

  lemma {:induction false} TotalRead(record: Json, n: Option<int>)
    requires record.Object? && TotalSays(record.fields, n)
    ensures OrElse(FirstInt(record, TOTAL_KEYS), FirstInt(record, ESTIMATE_KEYS)) == n
    ensures n.Some? ==> LooksLikeUsage(record.fields)
  {
    var names := TOTAL_KEYS + ESTIMATE_KEYS;
    assert names == ["total_tokens", "total", "tokens_total", "estimated_tokens", "estimated_total_tokens", "token_estimate",
                     "estimated_input_tokens", "estimated_output_tokens"];
    FirstSaysIs(record, names, n);
    FirstIntConcat(record, TOTAL_KEYS, ESTIMATE_KEYS);
    if n.Some? {
      var key :| key in names && HasKey(record.fields, key);
      SomeNameLooksLikeUsage(record.fields, key);
    }
  }

  function CachedOf(objects: seq<Fields>): Option<int> {
    if objects == [] then None else OrElse(FirstInt(Object(objects[0]), CACHED_KEYS), CachedOf(objects[1..]))
  }

  lemma {:induction false} FirstCachedIs(objects: seq<Fields>, n: Option<int>)
    requires FirstCached(objects, n)
    ensures CachedOf(objects) == n
  {
    if objects != [] {
      var record := Object(objects[0]);
      if n.Some? && CachedSays(objects[0], n) {
        FirstSaysIs(record, CACHED_KEYS, n);
      } else {
        FirstSaysIs(record, CACHED_KEYS, None);
        FirstCachedIs(objects[1..], n);
      }
    }
  }

  lemma {:induction false} CachedInDetails(details: Option<Json>, rest: seq<Fields>)
    ensures CachedOf(FieldsIn(details) + rest) == OrElse(DetailInt(details), CachedOf(rest))
  {
    if details.Some? && details.value.Object? {
      assert (FieldsIn(details) + rest)[1..] == rest;
    } else {
      assert FieldsIn(details) + rest == rest;
    }
  }

  lemma {:induction false} CachedRead(record: Json, first: Option<Json>, second: Option<Json>, n: Option<int>)
    requires record.Object? && FirstCached([record.fields] + (FieldsIn(first) + (FieldsIn(second) + [])), n)
    ensures OrElse(FirstInt(record, CACHED_KEYS), OrElse(DetailInt(first), DetailInt(second))) == n
  {
    FirstCachedIs([record.fields] + (FieldsIn(first) + (FieldsIn(second) + [])), n);
    CachedInDetails(Some(record), FieldsIn(first) + (FieldsIn(second) + []));
    CachedInDetails(first, FieldsIn(second) + []);
    CachedInDetails(second, []);
  }

  lemma {:induction false} CachedLooksLikeUsage(record: Json, key: string, details: Option<Json>)
    requires record.Object? && Holds(record.fields, key, details) && details.Some?
    requires key == "prompt_tokens_details" || key == "input_tokens_details" || key == "input_token_details"
    ensures LooksLikeUsage(record.fields)
  {
    HoldsIs(record.fields, key, details);
    assert key == DETAIL_KEYS[0] || key == DETAIL_KEYS[1] || key == DETAIL_KEYS[2];
    SomeNameLooksLikeUsage(record.fields, key);
  }

  lemma {:induction false} OwnCachedLooksLikeUsage(record: Json, n: int)
    requires record.Object? && FirstInt(record, CACHED_KEYS) == Some(n)
    ensures LooksLikeUsage(record.fields)
  {
    FirstIntIsFirst(record, CACHED_KEYS, n);
    var k :| 0 <= k < |CACHED_KEYS| && FieldInt(record, CACHED_KEYS[k], 0) == Some(n);
    FieldIntSays(record, CACHED_KEYS[k]);
    SomeNameLooksLikeUsage(record.fields, CACHED_KEYS[k]);
  }

  /** The details beside the numbers. */
  ghost predicate Details(fields: Fields, first: Option<Json>, second: Option<Json>, third: Option<Json>) {
    && Holds(fields, "prompt_tokens_details", first)
    && Holds(fields, "input_tokens_details", second)
    && Holds(fields, "input_token_details", third)
  }

  /** The numbers a record gives, under whichever names. */
  ghost predicate Gives(fields: Fields, input: Option<int>, output: Option<int>, cached: Option<int>, total: Option<int>) {
    && InputSays(fields, input) && OutputSays(fields, output) && TotalSays(fields, total)
    && exists first, second, third {:trigger Details(fields, first, second, third)} ::
         && Details(fields, first, second, third)
         && FirstCached([fields] + (FieldsIn(first) + (FieldsIn(if Blank(second) then third else second) + [])), cached)
  }

  function Number(n: Option<int>, otherwise: int): int {
    if n.Some? then n.value else otherwise
  }

  lemma {:induction false} CachedNumberRead(record: Json, first: Option<Json>, second: Option<Json>, third: Option<Json>, n: Option<int>)
    requires record.Object? && Details(record.fields, first, second, third)
    requires FirstCached([record.fields] + (FieldsIn(first) + (FieldsIn(if Blank(second) then third else second) + [])), n)
    ensures Get(record.fields, "prompt_tokens_details") == first
    ensures Get(record.fields, "input_tokens_details") == second && (Truthy(second) <==> !Blank(second))
    ensures Get(record.fields, "input_token_details") == third
    ensures OrElse(FirstInt(record, CACHED_KEYS), OrElse(DetailInt(first), DetailInt(if Blank(second) then third else second))) == n
    ensures n.Some? ==> LooksLikeUsage(record.fields)
  {
    HoldsIs(record.fields, "prompt_tokens_details", first);
    HoldsIs(record.fields, "input_tokens_details", second);
    HoldsIs(record.fields, "input_token_details", third);
    BlankIsFalsy(second);
    CachedRead(record, first, if Blank(second) then third else second, n);
    if FirstInt(record, CACHED_KEYS).Some? { OwnCachedLooksLikeUsage(record, FirstInt(record, CACHED_KEYS).value); }
    if first.Some? { CachedLooksLikeUsage(record, "prompt_tokens_details", first); }
    if second.Some? { CachedLooksLikeUsage(record, "input_tokens_details", second); }
    if third.Some? { CachedLooksLikeUsage(record, "input_token_details", third); }
  }

  lemma {:induction false} NumbersRead(record: Json, input: Option<int>, output: Option<int>, cached: Option<int>, total: Option<int>)
    requires record.Object? && Gives(record.fields, input, output, cached, total)
    ensures var fields := record.fields;
      var details := if Truthy(Get(fields, "input_tokens_details")) then Get(fields, "input_tokens_details") else Get(fields, "input_token_details");
      && OrElse(FirstInt(record, INPUT_KEYS), FirstInt(record, ["estimated_input_tokens"])) == input
      && OrElse(FirstInt(record, OUTPUT_KEYS), FirstInt(record, ["estimated_output_tokens"])) == output
      && OrElse(FirstInt(record, CACHED_KEYS), OrElse(DetailInt(Get(fields, "prompt_tokens_details")), DetailInt(details))) == cached
      && OrElse(FirstInt(record, TOTAL_KEYS), FirstInt(record, ESTIMATE_KEYS)) == total
    ensures input.Some? || output.Some? || cached.Some? || total.Some? ==> LooksLikeUsage(record.fields)
  {
    InputRead(record, input);
    OutputRead(record, output);
    TotalRead(record, total);
    var first, second, third :| Details(record.fields, first, second, third)
      && FirstCached([record.fields] + (FieldsIn(first) + (FieldsIn(if Blank(second) then third else second) + [])), cached);
    CachedNumberRead(record, first, second, third, cached);
  }

  /** The numbers of a reading: a missing one is zero, a missing total the sum, and the total is raised to the greatest number. */
  ghost predicate ReadsAs(r: Reading, input: int, output: int, cached: int, total: int, source: Source, provider: Option<string>) {
    if input == 0 && output == 0 && cached == 0 && total == 0 then r == Nothing
    else if input < 0 || output < 0 || cached < 0 || (provider.Some? && Strip(provider.value) == "") then r == Rejected
    else
      && r.Is? && r.usage.input == input && r.usage.output == output && r.usage.cached == cached
      && r.usage.total >= total && r.usage.total >= input && r.usage.total >= output && r.usage.total >= cached
      && (r.usage.total == total || r.usage.total == input || r.usage.total == output || r.usage.total == cached)
      && r.usage.source == source && r.usage.provider == provider
  }

  /** Every record reads as the numbers it gives, under whichever of the names it gives them. */
  lemma {:induction false} RecordsReadAsTheyAreNamed(defaults: Defaults, record: Json, input: Option<int>, output: Option<int>,
                                                     cached: Option<int>, total: Option<int>)
    requires record.Object? && Gives(record.fields, input, output, cached, total)
    ensures var i, o, c := Number(input, 0), Number(output, 0), Number(cached, 0);
      ReadsAs(Read(defaults, record), i, o, c, Number(total, i + o),
              SourceOf(defaults, record.fields), ProviderOf(defaults, record.fields))
  {
    NumbersRead(record, input, output, cached, total);
  }

  // ---------------------------------------------------------------- sources and providers

  predicate NamesEstimate(fields: Fields) {
    || HasKey(fields, "estimated_tokens") || HasKey(fields, "estimated_total_tokens") || HasKey(fields, "token_estimate")
    || HasKey(fields, "estimated_input_tokens") || HasKey(fields, "estimated_output_tokens")
  }

  lemma {:induction false} EstimatesAreNamed(fields: Fields)
    ensures HasAny(fields, ESTIMATE_KEYS) <==> NamesEstimate(fields)
  {
    var names := ESTIMATE_KEYS;
    assert names == ["estimated_tokens", "estimated_total_tokens", "token_estimate", "estimated_input_tokens", "estimated_output_tokens"];
    assert names[0] in names && names[1] in names && names[2] in names && names[3] in names && names[4] in names;
    forall key | key in names ensures key == names[0] || key == names[1] || key == names[2] || key == names[3] || key == names[4] {}
  }

  /** How Python prints a value: a string is printed as it is. */
  predicate PrintsAs(defaults: Defaults, value: Json, text: string) {
    value == String(text) || (!value.String? && defaults.render(value) == text)
  }

  /** The text that names the source: that under "source", or if that is blank what is under "usage_source". */
  predicate SourceText(defaults: Defaults, fields: Fields, text: string) {
    var first, second := Get(fields, "source"), Get(fields, "usage_source");
    if !Blank(first) then PrintsAs(defaults, first.value, text)
    else if second.Some? && !second.value.Null? then PrintsAs(defaults, second.value, text)
    else text == ""
  }

  /** A source that is named is taken; otherwise a record that names an estimate is one. */
  lemma {:induction false} SourcesRead(defaults: Defaults, fields: Fields, text: string)
    requires SourceText(defaults, fields, text)
    ensures text == "provider" ==> SourceOf(defaults, fields) == Provider
    ensures text == "estimate" ==> SourceOf(defaults, fields) == Estimate
    ensures text == "mixed" ==> SourceOf(defaults, fields) == Mixed
    ensures text == "unknown" ==> SourceOf(defaults, fields) == Unknown
    ensures text !in ["provider", "estimate", "mixed", "unknown"] ==>
      SourceOf(defaults, fields) == if NamesEstimate(fields) then Estimate else Provider
  {
    var keys := ["source"];
    assert keys[1..] == [] && FirstTruthy(fields, keys[1..]) == None;
    BlankIsFalsy(Get(fields, "source"));
    EstimatesAreNamed(fields);
  }

  /** The name of the provider: the first of the three that is not blank. */
  predicate ProviderText(defaults: Defaults, fields: Fields, name: Option<string>) {
    var first, second, third := Get(fields, "provider"), Get(fields, "provider_id"), Get(fields, "model_provider");
    if !Blank(first) then name.Some? && PrintsAs(defaults, first.value, name.value)
    else if !Blank(second) then name.Some? && PrintsAs(defaults, second.value, name.value)
    else if !Blank(third) then name.Some? && PrintsAs(defaults, third.value, name.value)
    else name == defaults.provider
  }

  /** The provider is the first that is named, or else the default. */
  lemma {:induction false} ProvidersRead(defaults: Defaults, fields: Fields, name: Option<string>)
    requires ProviderText(defaults, fields, name)
    ensures ProviderOf(defaults, fields) == name
  {
    var keys := ["provider", "provider_id", "model_provider"];
    assert keys[1..] == ["provider_id", "model_provider"] && keys[1..][1..] == ["model_provider"] && keys[1..][1..][1..] == [];
    assert FirstTruthy(fields, keys[1..][1..]) ==
      if Truthy(Get(fields, "model_provider")) then Get(fields, "model_provider") else FirstTruthy(fields, keys[1..][1..][1..]);
    assert FirstTruthy(fields, keys[1..]) ==
      if Truthy(Get(fields, "provider_id")) then Get(fields, "provider_id") else FirstTruthy(fields, keys[1..][1..]);
    BlankIsFalsy(Get(fields, "provider"));
    BlankIsFalsy(Get(fields, "provider_id"));
    BlankIsFalsy(Get(fields, "model_provider"));
  }
}
