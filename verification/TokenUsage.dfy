/** Token accounting: reading usage records out of JSON, cumulative snapshots and incremental sums. */
module TokenUsage {
  import opened Wrappers
  import opened Ordering
  import opened Text
  import opened Json

  datatype Source = Provider | Estimate | Mixed | Unknown

  datatype Usage = Usage(input: int, output: int, cached: int, total: int, source: Source, provider: Option<string>)

  /** What `TokenUsage.validate` accepts. */
  predicate Valid(u: Usage) {
    && u.input >= 0 && u.output >= 0 && u.cached >= 0
    && u.total >= u.input && u.total >= u.output && u.total >= u.cached
    && (u.provider.Some? ==> Strip(u.provider.value) != "")
  }

  const INPUT_KEYS := ["input_tokens", "prompt_tokens", "tokens_in", "input", "prompt", "request_tokens"]
  const OUTPUT_KEYS := ["output_tokens", "completion_tokens", "tokens_out", "output", "completion", "response_tokens"]
  const CACHED_KEYS := ["cached_tokens", "cached_input_tokens", "input_cached_tokens", "cache_read_input_tokens"]
  const TOTAL_KEYS := ["total_tokens", "total", "tokens_total"]
  const ESTIMATE_KEYS := [
    "estimated_tokens", "estimated_total_tokens", "token_estimate", "estimated_input_tokens", "estimated_output_tokens"
  ]
  const DETAIL_KEYS := ["prompt_tokens_details", "input_tokens_details", "input_token_details"]
  const CUMULATIVE := "total_token_usage"

  type Fields = seq<(string, Json)>

  function Get(fields: Fields, key: string): Option<Json> {
    if fields == [] then None
    else if fields[0].0 == key then Some(fields[0].1)
    else Get(fields[1..], key)
  }

  function Digits(parts: seq<string>): (r: string)
    requires forall part :: part in parts ==> AllDigits(part)
    ensures forall i :: 0 <= i < |r| ==> IsDigit(r[i])
  {
    if parts == [] then ""
    else
      assert AllDigits(parts[0]) by { assert parts[0] in parts; }
      parts[0] + Digits(parts[1..])
  }

  /** `int(s)`: a sign, then digits with single underscores between them. */
  function ParseInt(text: string): Option<int> {
    var s := Strip(text);
    var digits := if s != "" && (s[0] == '-' || s[0] == '+') then s[1..] else s;
    if forall part :: part in Split(digits, '_') ==> AllDigits(part) then
      var n: int := FromDecimal(Digits(Split(digits, '_')));
      Some(if s != "" && s[0] == '-' then -n else n)
    else None
  }

  /** `_optional_int` */
  function OptionalInt(value: Json): Option<int>
    decreases value
  {
    match value
    case Int(n) => Some(n)
    case String(s) => ParseInt(s)
    case Object(_) => FirstInt(value, ["total", "count", "tokens", "value"])
    case _ => None
  }

  /** `_first_int` */
  function FirstInt(record: Json, keys: seq<string>): Option<int>
    requires record.Object?
    decreases record, 1, |keys|
  {
    if keys == [] then None
    else
      var parsed := FieldInt(record, keys[0], 0);
      if parsed.Some? then parsed else FirstInt(record, keys[1..])
  }

  function FieldInt(record: Json, key: string, i: nat): Option<int>
    requires record.Object?
    decreases record, 0, |record.fields| - i
  {
    if i >= |record.fields| then None
    else if record.fields[i].0 == key then OptionalInt(record.fields[i].1)
    else FieldInt(record, key, i + 1)
  }

  predicate Truthy(value: Option<Json>) {
    match value
    case None => false
    case Some(v) =>
      match v
      case Null => false
      case Bool(b) => b
      case Int(n) => n != 0
      case Float(r) => r != 0.0
      case String(s) => s != ""
      case Array(items) => items != []
      case Object(fields) => fields != []
  }

  predicate HasKey(fields: Fields, key: string) {
    Get(fields, key).Some?
  }

  predicate HasAny(fields: Fields, keys: seq<string>) {
    exists key :: key in keys && HasKey(fields, key)
  }

  predicate LooksLikeUsage(fields: Fields) {
    HasAny(fields, INPUT_KEYS + OUTPUT_KEYS + CACHED_KEYS + TOTAL_KEYS + ESTIMATE_KEYS + DETAIL_KEYS)
  }

  function OrElse(first: Option<int>, second: Option<int>): Option<int> {
    if first.Some? then first else second
  }

  function OrZero(n: Option<int>): int {
    if n.Some? then n.value else 0
  }

  function DetailInt(details: Option<Json>): Option<int> {
    if details.Some? && details.value.Object? then FirstInt(details.value, CACHED_KEYS) else None
  }

  function Max(a: int, b: int): int {
    if a >= b then a else b
  }

  /** The name of the default provider, and how Python prints values that are not strings. */
  datatype Defaults = Defaults(provider: Option<string>, render: Json -> string)

  function Render(defaults: Defaults, v: Json): string {
    if v.String? then v.s else defaults.render(v)
  }

  function FirstTruthy(fields: Fields, keys: seq<string>): Option<Json> {
    if keys == [] then None
    else if Truthy(Get(fields, keys[0])) then Get(fields, keys[0])
    else FirstTruthy(fields, keys[1..])
  }

  function SourceOf(defaults: Defaults, fields: Fields): Source {
    var first := FirstTruthy(fields, ["source"]);
    var raw := if first.Some? then first else Get(fields, "usage_source");
    match if raw.Some? && !raw.value.Null? then Render(defaults, raw.value) else ""
    case "provider" => Provider
    case "estimate" => Estimate
    case "mixed" => Mixed
    case "unknown" => Unknown
    case _ => if HasAny(fields, ESTIMATE_KEYS) then Estimate else Provider
  }

  function ProviderOf(defaults: Defaults, fields: Fields): Option<string> {
    var named := FirstTruthy(fields, ["provider", "provider_id", "model_provider"]);
    if named.Some? then Some(Render(defaults, named.value)) else defaults.provider
  }

  /** What a mapping says: nothing, a usage record, or one that validation rejects. */
  datatype Reading = Nothing | Rejected | Is(usage: Usage)

  /** `_usage_from_mapping` */
  function Read(defaults: Defaults, record: Json): (r: Reading)
    requires record.Object?
    ensures r.Is? ==> Valid(r.usage)
  {
    var fields := record.fields;
    if !LooksLikeUsage(fields) then Nothing
    else
      var details := if Truthy(Get(fields, "input_tokens_details")) then Get(fields, "input_tokens_details") else Get(fields, "input_token_details");
      var input := OrZero(OrElse(FirstInt(record, INPUT_KEYS), FirstInt(record, ["estimated_input_tokens"])));
      var output := OrZero(OrElse(FirstInt(record, OUTPUT_KEYS), FirstInt(record, ["estimated_output_tokens"])));
      var cached := OrZero(OrElse(FirstInt(record, CACHED_KEYS),
                                  OrElse(DetailInt(Get(fields, "prompt_tokens_details")), DetailInt(details))));
      var stated := OrElse(FirstInt(record, TOTAL_KEYS), FirstInt(record, ESTIMATE_KEYS));
      var total := if stated.Some? then stated.value else input + output;
      if total == 0 && input == 0 && output == 0 && cached == 0 then Nothing
      else
        var usage := Usage(input, output, cached, Max(Max(total, input), Max(output, cached)),
                           SourceOf(defaults, fields), ProviderOf(defaults, fields));
        if Valid(usage) then Is(usage) else Rejected
  }

  /** `_first_int` takes the first of the keys whose value parses. */
  lemma {:induction false} FirstIntIsFirst(record: Json, keys: seq<string>, n: int)
    requires record.Object?
    ensures FirstInt(record, keys) == Some(n) <==>
      exists k :: 0 <= k < |keys| && FieldInt(record, keys[k], 0) == Some(n)
        && forall j :: 0 <= j < k ==> FieldInt(record, keys[j], 0).None?
  {
    if keys != [] {
      FirstIntIsFirst(record, keys[1..], n);
      if FirstInt(record, keys) == Some(n) && FieldInt(record, keys[0], 0).None? {
        var k :| 0 <= k < |keys[1..]| && FieldInt(record, keys[1..][k], 0) == Some(n)
          && forall j :: 0 <= j < k ==> FieldInt(record, keys[1..][j], 0).None?;
        forall j | 0 <= j < k + 1 ensures FieldInt(record, keys[j], 0).None? {
          if 0 < j { assert keys[j] == keys[1..][j - 1]; }
        }
        assert keys[k + 1] == keys[1..][k];
      }
      if k :| 0 < k < |keys| && FieldInt(record, keys[k], 0) == Some(n) && forall j :: 0 <= j < k ==> FieldInt(record, keys[j], 0).None? {
        assert keys[1..][k - 1] == keys[k];
        forall j | 0 <= j < k - 1 ensures FieldInt(record, keys[1..][j], 0).None? { assert keys[1..][j] == keys[j + 1]; }
      }
    }
  }

  /** The fields of the plain form of a record, as providers report it. */
  function PlainRecord(input: int, output: int, cached: int, total: int): Json {
    Object([("input_tokens", Int(input)), ("output_tokens", Int(output)), ("cached_input_tokens", Int(cached)), ("total_tokens", Int(total))])
  }

  const PLAIN_KEYS: seq<string> := ["input_tokens", "output_tokens", "cached_input_tokens", "total_tokens"]

  lemma {:induction false} FieldIntAt(record: Json, key: string, i: nat, n: nat)
    requires record.Object? && i <= n < |record.fields| && record.fields[n].0 == key
    requires forall j :: i <= j < n ==> record.fields[j].0 != key
    ensures FieldInt(record, key, i) == OptionalInt(record.fields[n].1)
    decreases n - i
  {
    if i < n { FieldIntAt(record, key, i + 1, n); }
  }

  lemma {:induction false} FieldAbsent(record: Json, key: string, i: nat)
    requires record.Object? && i <= |record.fields| && forall j :: i <= j < |record.fields| ==> record.fields[j].0 != key
    ensures FieldInt(record, key, i) == None && Get(record.fields[i..], key) == None
    decreases |record.fields| - i
  {
    if i < |record.fields| {
      FieldAbsent(record, key, i + 1);
      assert record.fields[i..][1..] == record.fields[i + 1..];
    }
  }

  lemma {:induction false} PlainAbsent(record: Json, key: string)
    requires record.Object? && |record.fields| == 4 && forall k :: 0 <= k < 4 ==> record.fields[k].0 == PLAIN_KEYS[k]
    requires key !in PLAIN_KEYS
    ensures FieldInt(record, key, 0) == None && Get(record.fields, key) == None
  {
    FieldAbsent(record, key, 0);
    assert record.fields[0..] == record.fields;
  }

  /** Keys other than the plain ones that could change the reading. */
  const OTHER_KEYS: seq<string> := [
    "cached_tokens", "source", "usage_source", "provider", "provider_id", "model_provider", "estimated_tokens",
    "estimated_total_tokens", "token_estimate", "estimated_input_tokens", "estimated_output_tokens"
  ]

  lemma {:induction false} OthersAreOther(key: string)
    requires key in OTHER_KEYS
    ensures key !in PLAIN_KEYS
  {
    assert |"input_tokens"| == 12 && |"output_tokens"| == 13 && |"cached_input_tokens"| == 19 && |"total_tokens"| == 12;
    assert "output_tokens"[0] == 'o' && "cached_tokens"[0] == 'c' && "input_tokens"[0] == 'i' && "total_tokens"[0] == 't';
    assert "usage_source"[0] == 'u';
  }

  lemma {:induction false} PlainKeysDiffer()
    ensures forall i, j :: 0 <= i < j < 4 ==> PLAIN_KEYS[i] != PLAIN_KEYS[j]
  {
    assert |"input_tokens"| == 12 && |"output_tokens"| == 13 && |"cached_input_tokens"| == 19 && |"total_tokens"| == 12;
    assert "input_tokens"[0] == 'i' && "total_tokens"[0] == 't';
  }

  lemma {:induction false} PlainNumbers(record: Json)
    requires record.Object? && |record.fields| == 4 && forall k :: 0 <= k < 4 ==> record.fields[k].0 == PLAIN_KEYS[k]
    ensures FirstInt(record, INPUT_KEYS) == OrElse(OptionalInt(record.fields[0].1), FirstInt(record, INPUT_KEYS[1..]))
    ensures FirstInt(record, OUTPUT_KEYS) == OrElse(OptionalInt(record.fields[1].1), FirstInt(record, OUTPUT_KEYS[1..]))
    ensures FirstInt(record, CACHED_KEYS) == OrElse(OptionalInt(record.fields[2].1), FirstInt(record, CACHED_KEYS[2..]))
    ensures FirstInt(record, TOTAL_KEYS) == OrElse(OptionalInt(record.fields[3].1), FirstInt(record, TOTAL_KEYS[1..]))
  {
    PlainKeysDiffer();
    FieldIntAt(record, PLAIN_KEYS[0], 0, 0);
    FieldIntAt(record, PLAIN_KEYS[1], 0, 1);
    FieldIntAt(record, PLAIN_KEYS[2], 0, 2);
    FieldIntAt(record, PLAIN_KEYS[3], 0, 3);
    OthersAreOther("cached_tokens");
    PlainAbsent(record, "cached_tokens");
    assert CACHED_KEYS[1..][1..] == CACHED_KEYS[2..];
    assert CACHED_KEYS[1..][0] == PLAIN_KEYS[2] && CACHED_KEYS[0] == "cached_tokens";
  }

  lemma {:induction false} PlainOrigin(defaults: Defaults, record: Json)
    requires record.Object? && |record.fields| == 4 && forall k :: 0 <= k < 4 ==> record.fields[k].0 == PLAIN_KEYS[k]
    ensures SourceOf(defaults, record.fields) == Provider && ProviderOf(defaults, record.fields) == defaults.provider
    ensures LooksLikeUsage(record.fields)
  {
    var fields := record.fields;
    forall key | key in OTHER_KEYS ensures Get(fields, key) == None {
      OthersAreOther(key);
      PlainAbsent(record, key);
    }
    assert ["source"][1..] == [];
    assert OTHER_KEYS[1] == "source" && OTHER_KEYS[2] == "usage_source";
    assert FirstTruthy(fields, ["source"]) == None;
    var providers := ["provider", "provider_id", "model_provider"];
    assert OTHER_KEYS[3] == providers[0] && OTHER_KEYS[4] == providers[1] && OTHER_KEYS[5] == providers[2];
    assert providers[1..] == ["provider_id", "model_provider"] && providers[1..][1..] == ["model_provider"];
    assert FirstTruthy(fields, ["model_provider"]) == None;
    assert FirstTruthy(fields, providers) == None;
    forall key | key in ESTIMATE_KEYS ensures !HasKey(fields, key) { assert key in OTHER_KEYS; }
    assert HasKey(fields, "input_tokens");
    assert INPUT_KEYS[0] == "input_tokens";
    assert "input_tokens" in INPUT_KEYS + OUTPUT_KEYS + CACHED_KEYS + TOTAL_KEYS + ESTIMATE_KEYS + DETAIL_KEYS;
  }

  /** A plain record reads as its numbers, the total raised to the greatest component, unless all are zero or one is negative. */
  lemma {:induction false} PlainRecordReads(defaults: Defaults, input: int, output: int, cached: int, total: int)
    requires defaults.provider.Some? ==> Strip(defaults.provider.value) != ""
    ensures Read(defaults, PlainRecord(input, output, cached, total)) ==
      if input == output == cached == total == 0 then Nothing
      else if input < 0 || output < 0 || cached < 0 then Rejected
      else Is(Usage(input, output, cached, Max(Max(total, input), Max(output, cached)), Provider, defaults.provider))
  {
    var record := PlainRecord(input, output, cached, total);
    PlainNumbers(record);
    PlainOrigin(defaults, record);
  }

  // ---------------------------------------------------------------- extraction

  /** A record found at a position: the indices of items and fields from the root. */
  datatype Found = Found(at: seq<nat>, reading: Reading)

  function FieldIndex(fields: Fields, key: string): (i: nat)
    ensures i <= |fields| && (i < |fields| <==> HasKey(fields, key))
    ensures i < |fields| ==> Get(fields, key) == Some(fields[i].1)
  {
    if fields == [] || fields[0].0 == key then 0 else 1 + FieldIndex(fields[1..], key)
  }

  /** The cumulative snapshot a mapping carries itself. */
  function Snapshot(defaults: Defaults, record: Json): Reading
    requires record.Object?
  {
    var cumulative := Get(record.fields, CUMULATIVE);
    if cumulative.Some? && cumulative.value.Object? then Read(defaults, cumulative.value) else Nothing
  }

  function Below(i: nat, found: seq<Found>): seq<Found> {
    seq(|found|, k requires 0 <= k < |found| => Found([i] + found[k].at, found[k].reading))
  }

  /** `_extract_usages`, with the position of every record. */
  function Extract(defaults: Defaults, v: Json): seq<Found>
    decreases v
  {
    if v.Object? && Snapshot(defaults, v) != Nothing then [Found([FieldIndex(v.fields, CUMULATIVE)], Snapshot(defaults, v))]
    else if v.Object? && Read(defaults, v) != Nothing then [Found([], Read(defaults, v))]
    else if v.Array? then ExtractItems(defaults, v, 0)
    else if v.Object? then ExtractFields(defaults, v, 0)
    else []
  }

  function ExtractItems(defaults: Defaults, v: Json, i: nat): seq<Found>
    requires v.Array?
    decreases v, |v.items| - i
  {
    if i >= |v.items| then [] else Below(i, Extract(defaults, v.items[i])) + ExtractItems(defaults, v, i + 1)
  }

  function ExtractFields(defaults: Defaults, v: Json, i: nat): seq<Found>
    requires v.Object?
    decreases v, |v.fields| - i
  {
    if i >= |v.fields| then [] else Below(i, Extract(defaults, v.fields[i].1)) + ExtractFields(defaults, v, i + 1)
  }

  // ---------------------------------------------------------------- where the records are

  /** The value at a position. */
  function Node(v: Json, at: seq<nat>): Option<Json> {
    if at == [] then Some(v)
    else
      match v
      case Array(items) => if at[0] < |items| then Node(items[at[0]], at[1..]) else None
      case Object(fields) => if at[0] < |fields| then Node(fields[at[0]].1, at[1..]) else None
      case _ => None
  }

  predicate IsChild(v: Json, i: nat, child: Json) {
    || (v.Array? && i < |v.items| && v.items[i] == child)
    || (v.Object? && i < |v.fields| && v.fields[i].1 == child)
  }

  /** There is a mapping at the position found, and it reads as the record found. */
  predicate Genuine(defaults: Defaults, v: Json, f: Found) {
    f.reading != Nothing && Node(v, f.at).Some? && Node(v, f.at).value.Object? && Read(defaults, Node(v, f.at).value) == f.reading
  }

  /** Neither position lies inside the other. */
  predicate Apart(a: seq<nat>, b: seq<nat>) {
    !(a <= b) && !(b <= a)
  }

  ghost predicate Placed(defaults: Defaults, v: Json, found: seq<Found>) {
    && (forall k {:trigger Genuine(defaults, v, found[k])} :: 0 <= k < |found| ==> Genuine(defaults, v, found[k]))
    && forall k, m {:trigger Apart(found[k].at, found[m].at)} :: 0 <= k < m < |found| ==> Apart(found[k].at, found[m].at)
  }

  ghost predicate StartFrom(found: seq<Found>, i: nat) {
    forall k :: 0 <= k < |found| ==> found[k].at != [] && found[k].at[0] >= i
  }

  lemma {:induction false} NodeBelow(v: Json, i: nat, child: Json, at: seq<nat>)
    requires IsChild(v, i, child)
    ensures Node(v, [i] + at) == Node(child, at)
  {
    assert ([i] + at)[0] == i && ([i] + at)[1..] == at;
  }

  lemma {:induction false} ApartBelow(i: nat, a: seq<nat>, b: seq<nat>)
    ensures Apart([i] + a, [i] + b) <==> Apart(a, b)
  {
    assert ([i] + a)[1..] == a && ([i] + b)[1..] == b;
    if a <= b { assert [i] + b == [i] + a + b[|a|..]; }
    if b <= a { assert [i] + a == [i] + b + a[|b|..]; }
    if [i] + a <= [i] + b { assert a == ([i] + b)[..|a| + 1][1..]; }
    if [i] + b <= [i] + a { assert b == ([i] + a)[..|b| + 1][1..]; }
  }

  lemma {:induction false} JoinPlaced(defaults: Defaults, v: Json, i: nat, child: Json, inner: seq<Found>, rest: seq<Found>)
    requires IsChild(v, i, child) && Placed(defaults, child, inner)
    requires Placed(defaults, v, rest) && StartFrom(rest, i + 1)
    ensures Placed(defaults, v, Below(i, inner) + rest) && StartFrom(Below(i, inner) + rest, i)
  {
    var all, n := Below(i, inner) + rest, |inner|;
    forall k | 0 <= k < |all| ensures Genuine(defaults, v, all[k]) {
      if k < n {
        NodeBelow(v, i, child, inner[k].at);
        assert Genuine(defaults, child, inner[k]);
      } else {
        assert Genuine(defaults, v, rest[k - n]);
      }
    }
    forall k, m | 0 <= k < m < |all| ensures Apart(all[k].at, all[m].at) {
      if m < n {
        ApartBelow(i, inner[k].at, inner[m].at);
        assert Apart(inner[k].at, inner[m].at);
      } else if k < n {
        assert all[k].at[0] != all[m].at[0];
      } else {
        assert Apart(rest[k - n].at, rest[m - n].at);
      }
    }
  }

  lemma {:induction false} ItemsPlaced(defaults: Defaults, v: Json, i: nat)
    requires v.Array?
    ensures Placed(defaults, v, ExtractItems(defaults, v, i)) && StartFrom(ExtractItems(defaults, v, i), i)
    decreases v, |v.items| - i
  {
    if i < |v.items| {
      RecordsAreApart(defaults, v.items[i]);
      ItemsPlaced(defaults, v, i + 1);
      JoinPlaced(defaults, v, i, v.items[i], Extract(defaults, v.items[i]), ExtractItems(defaults, v, i + 1));
    }
  }

  lemma {:induction false} FieldsPlaced(defaults: Defaults, v: Json, i: nat)
    requires v.Object?
    ensures Placed(defaults, v, ExtractFields(defaults, v, i)) && StartFrom(ExtractFields(defaults, v, i), i)
    decreases v, |v.fields| - i
  {
    if i < |v.fields| {
      RecordsAreApart(defaults, v.fields[i].1);
      FieldsPlaced(defaults, v, i + 1);
      JoinPlaced(defaults, v, i, v.fields[i].1, Extract(defaults, v.fields[i].1), ExtractFields(defaults, v, i + 1));
    }
  }

  lemma {:induction false} SnapshotPlaced(defaults: Defaults, v: Json)
    requires v.Object? && Snapshot(defaults, v) != Nothing
    ensures Genuine(defaults, v, Found([FieldIndex(v.fields, CUMULATIVE)], Snapshot(defaults, v)))
  {
    var i := FieldIndex(v.fields, CUMULATIVE);
    NodeBelow(v, i, v.fields[i].1, []);
    assert [i] + [] == [i];
  }

  /** The records counted are genuine readings at pairwise non-nested positions. */
  lemma {:induction false} RecordsAreApart(defaults: Defaults, v: Json)
    ensures Placed(defaults, v, Extract(defaults, v))
    decreases v
  {
    if v.Object? && Snapshot(defaults, v) != Nothing {
      SnapshotPlaced(defaults, v);
    } else if v.Object? && Read(defaults, v) != Nothing {
    } else if v.Array? {
      ItemsPlaced(defaults, v, 0);
    } else if v.Object? {
      FieldsPlaced(defaults, v, 0);
    }
  }

  predicate CoveredBy(v: Json, found: seq<Found>, at: seq<nat>, k: nat, n: nat) {
    k < |found| && n <= |at| &&
    (found[k].at == at[..n]
     || (Node(v, at[..n]).Some? && Node(v, at[..n]).value.Object?
         && found[k].at == at[..n] + [FieldIndex(Node(v, at[..n]).value.fields, CUMULATIVE)]))
  }

  /** Position `at` is taken care of by a record counted at the position or above it, or by the snapshot of a mapping there. */
  ghost predicate Covered(v: Json, found: seq<Found>, at: seq<nat>) {
    exists k, n {:trigger CoveredBy(v, found, at, k, n)} :: CoveredBy(v, found, at, k, n)
  }

  lemma {:induction false} CoveredBelow(v: Json, i: nat, child: Json, inner: seq<Found>, rest: seq<Found>, at: seq<nat>)
    requires IsChild(v, i, child) && Covered(child, inner, at)
    ensures Covered(v, Below(i, inner) + rest, [i] + at)
  {
    var all := Below(i, inner) + rest;
    var k: nat, n: nat :| CoveredBy(child, inner, at, k, n);
    NodeBelow(v, i, child, at[..n]);
    assert ([i] + at)[..n + 1] == [i] + at[..n];
    assert all[k] == Below(i, inner)[k];
    if inner[k].at != at[..n] {
      var index := FieldIndex(Node(child, at[..n]).value.fields, CUMULATIVE);
      assert [i] + (at[..n] + [index]) == [i] + at[..n] + [index];
    }
    assert CoveredBy(v, all, [i] + at, k, n + 1);
  }

  lemma {:induction false} CoveredAfter(v: Json, before: seq<Found>, rest: seq<Found>, at: seq<nat>)
    requires Covered(v, rest, at)
    ensures Covered(v, before + rest, at)
  {
    var k: nat, n: nat :| CoveredBy(v, rest, at, k, n);
    assert (before + rest)[|before| + k] == rest[k];
    assert CoveredBy(v, before + rest, at, |before| + k, n);
  }

  lemma {:induction false} ItemsCover(defaults: Defaults, v: Json, i: nat, at: seq<nat>)
    requires v.Array? && at != [] && i <= at[0] < |v.items|
    requires Covered(v.items[at[0]], Extract(defaults, v.items[at[0]]), at[1..])
    ensures Covered(v, ExtractItems(defaults, v, i), at)
    decreases |v.items| - i
  {
    assert at == [at[0]] + at[1..];
    if i == at[0] {
      CoveredBelow(v, i, v.items[i], Extract(defaults, v.items[i]), ExtractItems(defaults, v, i + 1), at[1..]);
    } else {
      ItemsCover(defaults, v, i + 1, at);
      CoveredAfter(v, Below(i, Extract(defaults, v.items[i])), ExtractItems(defaults, v, i + 1), at);
    }
  }

  lemma {:induction false} FieldsCover(defaults: Defaults, v: Json, i: nat, at: seq<nat>)
    requires v.Object? && at != [] && i <= at[0] < |v.fields|
    requires Covered(v.fields[at[0]].1, Extract(defaults, v.fields[at[0]].1), at[1..])
    ensures Covered(v, ExtractFields(defaults, v, i), at)
    decreases |v.fields| - i
  {
    assert at == [at[0]] + at[1..];
    if i == at[0] {
      CoveredBelow(v, i, v.fields[i].1, Extract(defaults, v.fields[i].1), ExtractFields(defaults, v, i + 1), at[1..]);
    } else {
      FieldsCover(defaults, v, i + 1, at);
      CoveredAfter(v, Below(i, Extract(defaults, v.fields[i].1)), ExtractFields(defaults, v, i + 1), at);
    }
  }

  /** No record is overlooked: every mapping that reads as one is counted, inside a counted one, or beside a snapshot. */
  lemma {:induction false} EveryRecordIsCovered(defaults: Defaults, v: Json, at: seq<nat>)
    requires Node(v, at).Some? && Node(v, at).value.Object? && Read(defaults, Node(v, at).value) != Nothing
    ensures Covered(v, Extract(defaults, v), at)
    decreases v
  {
    var found := Extract(defaults, v);
    if v.Object? && Snapshot(defaults, v) != Nothing {
      assert at[..0] == [] && [] + [FieldIndex(v.fields, CUMULATIVE)] == [FieldIndex(v.fields, CUMULATIVE)];
      assert CoveredBy(v, found, at, 0, 0);
    } else if v.Object? && Read(defaults, v) != Nothing {
      assert CoveredBy(v, found, at, 0, 0);
    } else if v.Array? {
      EveryRecordIsCovered(defaults, v.items[at[0]], at[1..]);
      ItemsCover(defaults, v, 0, at);
    } else {
      EveryRecordIsCovered(defaults, v.fields[at[0]].1, at[1..]);
      FieldsCover(defaults, v, 0, at);
    }
  }

  // ---------------------------------------------------------------- aggregation

  /** The records among the readings; only asked for when none is rejected. */
  function Usages(found: seq<Found>): seq<Usage> {
    if found == [] then []
    else (if found[0].reading.Is? then [found[0].reading.usage] else []) + Usages(found[1..])
  }

  predicate Raises(found: seq<Found>) {
    exists k :: 0 <= k < |found| && found[k].reading == Rejected
  }

  datatype Numbers = Numbers(input: int, output: int, cached: int, total: int)

  function NumbersOf(u: Usage): Numbers {
    Numbers(u.input, u.output, u.cached, u.total)
  }

  function Plus(a: Numbers, b: Numbers): Numbers {
    Numbers(a.input + b.input, a.output + b.output, a.cached + b.cached, a.total + b.total)
  }

  function Sum(us: seq<Usage>): Numbers {
    if us == [] then Numbers(0, 0, 0, 0) else Plus(Sum(us[..|us| - 1]), NumbersOf(us[|us| - 1]))
  }

  ghost predicate AllValid(us: seq<Usage>) {
    forall k {:trigger Valid(us[k])} :: 0 <= k < |us| ==> Valid(us[k])
  }

  function CommonSource(us: seq<Usage>): Source {
    var sources := set u | u in us && u.source != Unknown :: u.source;
    if sources == {} then Unknown
    else if |sources| == 1 then (if Provider in sources then Provider else if Estimate in sources then Estimate else Mixed)
    else Mixed
  }

  function FirstProvider(us: seq<Usage>): Option<string> {
    if us == [] then None else if us[0].provider.Some? then us[0].provider else FirstProvider(us[1..])
  }

  /** The provider of the records that name one, if they all name the same. */
  function CommonProvider(us: seq<Usage>): Option<string> {
    if |(set u | u in us && u.provider.Some? :: u.provider.value)| == 1 then FirstProvider(us) else None
  }

  /** `aggregate` */
  function Aggregate(us: seq<Usage>): Option<Usage> {
    if us == [] then None
    else
      var sum := Sum(us);
      Some(Usage(sum.input, sum.output, sum.cached, sum.total, CommonSource(us), CommonProvider(us)))
  }

  lemma {:induction false} SumKeepsTotals(us: seq<Usage>)
    requires AllValid(us)
    ensures var s := Sum(us); s.input >= 0 && s.output >= 0 && s.cached >= 0 && s.total >= s.input && s.total >= s.output && s.total >= s.cached
  {
    if us != [] {
      var init := us[..|us| - 1];
      forall k | 0 <= k < |init| ensures Valid(init[k]) { assert Valid(us[k]); }
      SumKeepsTotals(init);
      assert Valid(us[|us| - 1]);
    }
  }

  lemma {:induction false} FirstProviderIsValid(us: seq<Usage>)
    requires AllValid(us)
    ensures FirstProvider(us).Some? ==> Strip(FirstProvider(us).value) != ""
  {
    if us != [] {
      assert Valid(us[0]);
      forall k | 0 <= k < |us| - 1 ensures Valid(us[1..][k]) { assert Valid(us[k + 1]); }
      FirstProviderIsValid(us[1..]);
    }
  }

  /** The sum of valid records is a valid record: the total stays at least each component. */
  lemma {:induction false} AggregateIsValid(us: seq<Usage>)
    requires AllValid(us)
    ensures Aggregate(us).Some? ==> Valid(Aggregate(us).value)
  {
    SumKeepsTotals(us);
    FirstProviderIsValid(us);
  }

  /** `_max_usage` */
  function MaxUsage(current: Option<Usage>, candidate: Usage): Usage {
    match current
    case None => candidate
    case Some(c) =>
      var provider := if c.provider.None? then candidate.provider
                      else if candidate.provider.None? || candidate.provider == c.provider then c.provider
                      else None;
      Usage(Max(c.input, candidate.input), Max(c.output, candidate.output), Max(c.cached, candidate.cached),
            Max(c.total, candidate.total), if c.source == candidate.source then c.source else Mixed, provider)
  }

  function FoldMax(us: seq<Usage>): (u: Option<Usage>)
    ensures u.Some? <==> us != []
  {
    if us == [] then None else Some(MaxUsage(FoldMax(us[..|us| - 1]), us[|us| - 1]))
  }

  /** `u` is, number by number, the greatest among the records. */
  ghost predicate IsPointwiseMax(us: seq<Usage>, u: Usage) {
    && (forall v :: v in us ==> v.input <= u.input && v.output <= u.output && v.cached <= u.cached && v.total <= u.total)
    && (exists v :: v in us && v.input == u.input) && (exists v :: v in us && v.output == u.output)
    && (exists v :: v in us && v.cached == u.cached) && exists v :: v in us && v.total == u.total
  }

  lemma {:induction false} MaxStep(us: seq<Usage>, u: Usage, next: Usage)
    requires us != [] && IsPointwiseMax(us, u)
    ensures IsPointwiseMax(us + [next], MaxUsage(Some(u), next))
  {
    var all, m := us + [next], MaxUsage(Some(u), next);
    assert next in all;
    var a :| a in us && a.input == u.input;
    var b :| b in us && b.output == u.output;
    var c :| c in us && c.cached == u.cached;
    var d :| d in us && d.total == u.total;
    assert a in all && b in all && c in all && d in all;
  }

  lemma {:induction false} FoldMaxIsMax(us: seq<Usage>)
    requires us != []
    ensures IsPointwiseMax(us, FoldMax(us).value) && (AllValid(us) ==> Valid(FoldMax(us).value))
  {
    var init, last := us[..|us| - 1], us[|us| - 1];
    assert us == init + [last];
    if init == [] {
      assert last in us;
    } else {
      FoldMaxIsMax(init);
      MaxStep(init, FoldMax(init).value, last);
    }
    if AllValid(us) {
      forall k | 0 <= k < |init| ensures Valid(init[k]) { assert Valid(us[k]); }
      assert Valid(last);
    }
  }

  /** The greatest numbers depend on which records there are, not on their order or repetition. */
  lemma {:induction false} MaximumIsUnique(us: seq<Usage>, vs: seq<Usage>, u: Usage, v: Usage)
    requires IsPointwiseMax(us, u) && IsPointwiseMax(vs, v) && Elements(us) == Elements(vs)
    ensures NumbersOf(u) == NumbersOf(v)
  {
    forall x ensures x in us <==> x in vs { assert x in Elements(us) <==> x in Elements(vs); }
  }

  predicate AllFrom(us: seq<Usage>, source: Source) {
    forall u :: u in us ==> u.source == source
  }

  lemma {:induction false} FoldMaxSource(us: seq<Usage>)
    requires us != []
    ensures FoldMax(us).value.source == if AllFrom(us, us[0].source) then us[0].source else Mixed
  {
    var init, last := us[..|us| - 1], us[|us| - 1];
    assert us == init + [last];
    if init != [] {
      FoldMaxSource(init);
      assert AllFrom(us, us[0].source) <==> AllFrom(init, us[0].source) && last.source == us[0].source;
    }
  }

  /** All records that name a provider name the same one. */
  predicate NameOne(us: seq<Usage>) {
    forall u, v :: u in us && v in us && u.provider.Some? && v.provider.Some? ==> u.provider == v.provider
  }

  predicate NamesOnly(us: seq<Usage>, name: string) {
    forall u :: u in us ==> u.provider.None? || u.provider == Some(name)
  }

  predicate NamesAny(us: seq<Usage>) {
    exists u :: u in us && u.provider.Some?
  }

  lemma {:induction false} NamesSplit(us: seq<Usage>, u: Usage, name: string)
    ensures NamesOnly(us + [u], name) <==> NamesOnly(us, name) && (u.provider.None? || u.provider == Some(name))
    ensures NamesAny(us + [u]) <==> NamesAny(us) || u.provider.Some?
  {
    forall x ensures x in us + [u] <==> x in us || x == u {}
  }

  lemma {:induction false} FoldMaxProvider(us: seq<Usage>, name: string)
    requires us != [] && NamesOnly(us, name)
    ensures FoldMax(us).value.provider == if NamesAny(us) then Some(name) else None
  {
    var init, last := us[..|us| - 1], us[|us| - 1];
    NamesSplit(init, last, name);
    assert us == init + [last];
    if init != [] { FoldMaxProvider(init, name); }
  }

  /** Two records with different names cancel each other, and a third brings a name back. */
  lemma {:induction false} ProviderDependsOnOrder(us: seq<Usage>, a: Usage, b: Usage)
    requires a.provider.Some? && b.provider.Some? && a.provider != b.provider
    ensures FoldMax(us + [a] + [b]).value.provider != FoldMax(us + [a] + [b] + [a]).value.provider
  {
    assert (us + [a])[..|us|] == us;
    assert (us + [a] + [b])[..|us| + 1] == us + [a];
    assert (us + [a] + [b] + [a])[..|us| + 2] == us + [a] + [b];
  }

  /** `u` is what the fold makes of every list of these records, whatever their order and repetition. */
  ghost predicate IgnoresOrder(us: seq<Usage>, u: Usage) {
    forall vs {:trigger FoldMax(vs)} :: Elements(vs) == Elements(us) ==> FoldMax(vs) == Some(u)
  }

  lemma {:induction false} ElementsMore(us: seq<Usage>, a: Usage)
    requires a in us
    ensures Elements(us + [a]) == Elements(us)
  {
    forall x ensures x in us + [a] <==> x in us {}
  }

  /** The numbers and the source never depend on order and repetition. */
  lemma {:induction false} FoldMaxKeeps(us: seq<Usage>, vs: seq<Usage>)
    requires us != [] && Elements(vs) == Elements(us)
    ensures vs != [] && forall x :: x in us <==> x in vs
    ensures NumbersOf(FoldMax(vs).value) == NumbersOf(FoldMax(us).value)
    ensures FoldMax(vs).value.source == FoldMax(us).value.source
  {
    forall x ensures x in us <==> x in vs { assert x in Elements(us) <==> x in Elements(vs); }
    assert us[0] in vs && vs[0] in us;
    FoldMaxIsMax(us);
    FoldMaxIsMax(vs);
    MaximumIsUnique(us, vs, FoldMax(us).value, FoldMax(vs).value);
    FoldMaxSource(us);
    FoldMaxSource(vs);
  }

  lemma {:induction false} NamesAgree(us: seq<Usage>, vs: seq<Usage>)
    requires us != [] && NameOne(us) && Elements(vs) == Elements(us)
    ensures FoldMax(vs) == FoldMax(us)
  {
    FoldMaxKeeps(us, vs);
    var name := if NamesAny(us) then var u :| u in us && u.provider.Some?; u.provider.value else "";
    FoldMaxProvider(us, name);
    FoldMaxProvider(vs, name);
    assert NamesAny(us) <==> NamesAny(vs);
  }

  lemma {:induction false} NamesClash(us: seq<Usage>) returns (a: Usage, b: Usage)
    requires !NameOne(us)
    ensures a in us && b in us && FoldMax(us + [a] + [b]) != FoldMax(us + [a] + [b] + [a])
  {
    a, b :| a in us && b in us && a.provider.Some? && b.provider.Some? && a.provider != b.provider;
    ProviderDependsOnOrder(us, a, b);
  }

  /** The greatest record is the same for every order and repetition exactly if at most one provider is named. */
  lemma {:induction false} OrderMattersOnlyForNames(us: seq<Usage>)
    requires us != []
    ensures IgnoresOrder(us, FoldMax(us).value) <==> NameOne(us)
  {
    if NameOne(us) {
      forall vs | Elements(vs) == Elements(us) ensures FoldMax(vs) == FoldMax(us) { NamesAgree(us, vs); }
    } else {
      var a, b := NamesClash(us);
      ElementsMore(us, a);
      ElementsMore(us + [a], b);
      ElementsMore(us + [a] + [b], a);
    }
  }

  // ---------------------------------------------------------------- events

  /** `_find_nested_mapping` for the cumulative snapshot: the first in reading order. */
  function FindNested(v: Json): Option<Json>
    ensures FindNested(v).Some? ==> FindNested(v).value.Object?
    decreases v
  {
    if v.Object? && Get(v.fields, CUMULATIVE).Some? && Get(v.fields, CUMULATIVE).value.Object? then Get(v.fields, CUMULATIVE)
    else if v.Object? then FindInFields(v, 0)
    else if v.Array? then FindInItems(v, 0)
    else None
  }

  function FindInItems(v: Json, i: nat): Option<Json>
    requires v.Array?
    ensures FindInItems(v, i).Some? ==> FindInItems(v, i).value.Object?
    decreases v, |v.items| - i
  {
    if i >= |v.items| then None
    else
      var found := FindNested(v.items[i]);
      if found.Some? then found else FindInItems(v, i + 1)
  }

  function FindInFields(v: Json, i: nat): Option<Json>
    requires v.Object?
    ensures FindInFields(v, i).Some? ==> FindInFields(v, i).value.Object?
    decreases v, |v.fields| - i
  {
    if i >= |v.fields| then None
    else
      var found := FindNested(v.fields[i].1);
      if found.Some? then found else FindInFields(v, i + 1)
  }

  /** `_cumulative_usage_from_event` */
  function EventSnapshot(defaults: Defaults, event: Json): (r: Reading)
    ensures r.Is? ==> Valid(r.usage)
  {
    var raw := FindNested(event);
    if raw.Some? then Read(defaults, raw.value) else Nothing
  }

  predicate EventRaises(defaults: Defaults, event: Json) {
    var snapshot := EventSnapshot(defaults, event);
    snapshot == Rejected || (snapshot == Nothing && Raises(Extract(defaults, event)))
  }

  function Snapshots(defaults: Defaults, events: seq<Json>): seq<Usage> {
    if events == [] then []
    else
      var snapshot := EventSnapshot(defaults, events[|events| - 1]);
      Snapshots(defaults, events[..|events| - 1]) + if snapshot.Is? then [snapshot.usage] else []
  }

  /** The records of an event. */
  function Records(defaults: Defaults, event: Json): seq<Usage> {
    Usages(Extract(defaults, event))
  }

  /** One record for each event that has any: its records added up. */
  function PerEvent(defaults: Defaults, events: seq<Json>): seq<Usage> {
    if events == [] then []
    else
      var added := Aggregate(Records(defaults, events[|events| - 1]));
      PerEvent(defaults, events[..|events| - 1]) + if added.Some? then [added.value] else []
  }

  /** The sum over all events of all their records. */
  function SumOfRecords(defaults: Defaults, events: seq<Json>): Numbers {
    if events == [] then Numbers(0, 0, 0, 0)
    else Plus(SumOfRecords(defaults, events[..|events| - 1]), Sum(Records(defaults, events[|events| - 1])))
  }

  lemma {:induction false} UsagesAreValid(found: seq<Found>)
    requires forall k :: 0 <= k < |found| && found[k].reading.Is? ==> Valid(found[k].reading.usage)
    ensures AllValid(Usages(found))
  {
    if found != [] {
      UsagesAreValid(found[1..]);
      var rest := Usages(found[1..]);
      forall k | 0 <= k < |Usages(found)| ensures Valid(Usages(found)[k]) {
        if found[0].reading.Is? && k > 0 { assert Valid(rest[k - 1]); }
        if !found[0].reading.Is? { assert Valid(rest[k]); }
      }
    }
  }

  lemma {:induction false} RecordsAreValid(defaults: Defaults, v: Json)
    ensures AllValid(Records(defaults, v))
  {
    RecordsAreApart(defaults, v);
    var found := Extract(defaults, v);
    forall k | 0 <= k < |found| && found[k].reading.Is? ensures Valid(found[k].reading.usage) {
      assert Genuine(defaults, v, found[k]);
    }
    UsagesAreValid(found);
  }

  /** `extract_from_event`: the records of an event added up, unless validation rejects one. */
  method ExtractFromEvent(defaults: Defaults, event: Json) returns (r: Result<Option<Usage>, ()>)
    ensures r.Failure? <==> Raises(Extract(defaults, event))
    ensures r.Success? ==> r.value == Aggregate(Records(defaults, event)) && (r.value.Some? ==> Valid(r.value.value))
  {
    var found := Extract(defaults, event);
    if Raises(found) { return Failure(()); }
    RecordsAreValid(defaults, event);
    AggregateIsValid(Records(defaults, event));
    return Success(Aggregate(Records(defaults, event)));
  }

  ghost predicate NoneRaises(defaults: Defaults, events: seq<Json>) {
    forall i {:trigger EventRaises(defaults, events[i])} :: 0 <= i < |events| ==> !EventRaises(defaults, events[i])
  }

  ghost predicate NoRecords(defaults: Defaults, events: seq<Json>) {
    forall i {:trigger Records(defaults, events[i])} :: 0 <= i < |events| ==> Records(defaults, events[i]) == []
  }

  /** What the loop has gathered from the events so far. */
  ghost predicate Gathered(defaults: Defaults, events: seq<Json>, cumulative: Option<Usage>, incremental: seq<Usage>) {
    && NoneRaises(defaults, events) && AllValid(Snapshots(defaults, events)) && AllValid(incremental)
    && cumulative == FoldMax(Snapshots(defaults, events))
    && (Snapshots(defaults, events) == [] ==> incremental == PerEvent(defaults, events))
  }

  lemma {:induction false} AllValidMore(us: seq<Usage>, u: Usage)
    requires AllValid(us) && Valid(u)
    ensures AllValid(us + [u])
  {
    forall k | 0 <= k < |us| + 1 ensures Valid((us + [u])[k]) { if k < |us| { assert Valid(us[k]); } }
  }

  lemma {:induction false} NoneRaisesMore(defaults: Defaults, events: seq<Json>, event: Json)
    ensures NoneRaises(defaults, events + [event]) <==> NoneRaises(defaults, events) && !EventRaises(defaults, event)
    ensures NoRecords(defaults, events + [event]) <==> NoRecords(defaults, events) && Records(defaults, event) == []
  {
    var all := events + [event];
    assert all[|events|] == event;
    forall i | 0 <= i < |events| ensures all[i] == events[i] {}
    if NoneRaises(defaults, all) {
      forall i | 0 <= i < |events| ensures !EventRaises(defaults, events[i]) { assert !EventRaises(defaults, all[i]); }
    }
    if NoRecords(defaults, all) {
      forall i | 0 <= i < |events| ensures Records(defaults, events[i]) == [] { assert Records(defaults, all[i]) == []; }
    }
  }

  lemma {:induction false} GatheredSnapshot(defaults: Defaults, events: seq<Json>, event: Json, cumulative: Option<Usage>, incremental: seq<Usage>)
    requires Gathered(defaults, events, cumulative, incremental) && EventSnapshot(defaults, event).Is?
    ensures Gathered(defaults, events + [event], Some(MaxUsage(cumulative, EventSnapshot(defaults, event).usage)), incremental)
  {
    var snapshot := EventSnapshot(defaults, event).usage;
    NoneRaisesMore(defaults, events, event);
    assert (events + [event])[..|events|] == events;
    AllValidMore(Snapshots(defaults, events), snapshot);
    assert (Snapshots(defaults, events) + [snapshot])[..|Snapshots(defaults, events)|] == Snapshots(defaults, events);
  }

  lemma {:induction false} GatheredRecords(defaults: Defaults, events: seq<Json>, event: Json, cumulative: Option<Usage>, incremental: seq<Usage>,
                                           usage: Option<Usage>)
    requires Gathered(defaults, events, cumulative, incremental) && EventSnapshot(defaults, event) == Nothing
    requires !EventRaises(defaults, event)
    requires usage == Aggregate(Records(defaults, event)) && (usage.Some? ==> Valid(usage.value))
    ensures Gathered(defaults, events + [event], cumulative, incremental + if usage.Some? then [usage.value] else [])
  {
    NoneRaisesMore(defaults, events, event);
    assert (events + [event])[..|events|] == events;
    assert Snapshots(defaults, events + [event]) == Snapshots(defaults, events);
    if usage.Some? {
      AllValidMore(incremental, usage.value);
    } else {
      assert incremental + [] == incremental;
    }
  }

  lemma {:induction false} SumMore(us: seq<Usage>, u: Usage)
    ensures Sum(us + [u]) == Plus(Sum(us), NumbersOf(u))
  {
    assert (us + [u])[..|us|] == us;
  }

  lemma {:induction false} AddedNumbers(us: seq<Usage>)
    ensures Sum(us) == if Aggregate(us).Some? then NumbersOf(Aggregate(us).value) else Numbers(0, 0, 0, 0)
  {
  }

  lemma {:induction false} OneMoreEvent(before: seq<Usage>, records: seq<Usage>)
    ensures var added := Aggregate(records);
      Sum(before + if added.Some? then [added.value] else []) == Plus(Sum(before), Sum(records))
  {
    var added := Aggregate(records);
    AddedNumbers(records);
    if added.Some? {
      SumMore(before, added.value);
    } else {
      assert before + [] == before;
    }
  }

  lemma {:induction false} PerEventAddsUp(defaults: Defaults, events: seq<Json>)
    ensures Sum(PerEvent(defaults, events)) == SumOfRecords(defaults, events)
  {
    if events != [] {
      PerEventAddsUp(defaults, events[..|events| - 1]);
      OneMoreEvent(PerEvent(defaults, events[..|events| - 1]), Records(defaults, events[|events| - 1]));
    }
  }

  lemma {:induction false} NoEventAddsNothing(defaults: Defaults, events: seq<Json>)
    ensures PerEvent(defaults, events) == [] <==> NoRecords(defaults, events)
  {
    if events != [] {
      var init, last := events[..|events| - 1], events[|events| - 1];
      assert events == init + [last];
      NoEventAddsNothing(defaults, init);
      NoneRaisesMore(defaults, init, last);
    }
  }

  lemma {:induction false} PrefixRaises(defaults: Defaults, events: seq<Json>, i: nat)
    requires i < |events| && EventRaises(defaults, events[i])
    ensures !NoneRaises(defaults, events)
  {
  }

  /**
   `aggregate_events`: it fails exactly when a record is rejected; where there
   is any cumulative snapshot the result is the greatest of the snapshots number
   by number, and otherwise the sum of all records.
   */
  method AggregateEvents(defaults: Defaults, events: seq<Json>) returns (r: Result<Option<Usage>, ()>)
    ensures r.Success? <==> NoneRaises(defaults, events)
    ensures r.Success? && r.value.Some? ==> Valid(r.value.value)
    ensures r.Success? && Snapshots(defaults, events) != [] ==>
      r.value == FoldMax(Snapshots(defaults, events)) && IsPointwiseMax(Snapshots(defaults, events), r.value.value)
    ensures r.Success? && Snapshots(defaults, events) == [] ==>
      && r.value == Aggregate(PerEvent(defaults, events))
      && (r.value.None? <==> NoRecords(defaults, events))
      && (r.value.Some? ==> NumbersOf(r.value.value) == SumOfRecords(defaults, events))
  {
    var cumulative: Option<Usage> := None;
    var incremental: seq<Usage> := [];
    for i := 0 to |events|
      invariant Gathered(defaults, events[..i], cumulative, incremental)
    {
      var event := events[i];
      assert events[..i + 1] == events[..i] + [event];
      var snapshot := EventSnapshot(defaults, event);
      if snapshot == Rejected {
        PrefixRaises(defaults, events, i);
        return Failure(());
      }
      if snapshot.Is? {
        GatheredSnapshot(defaults, events[..i], event, cumulative, incremental);
        cumulative := Some(MaxUsage(cumulative, snapshot.usage));
      } else {
        var usage := ExtractFromEvent(defaults, event);
        if usage.Failure? {
          PrefixRaises(defaults, events, i);
          return Failure(());
        }
        GatheredRecords(defaults, events[..i], event, cumulative, incremental, usage.value);
        if usage.value.Some? { incremental := incremental + [usage.value.value]; }
      }
    }
    assert events[..|events|] == events;
    if cumulative.Some? {
      FoldMaxIsMax(Snapshots(defaults, events));
      return Success(cumulative);
    }
    AggregateIsValid(incremental);
    PerEventAddsUp(defaults, events);
    NoEventAddsNothing(defaults, events);
    return Success(Aggregate(incremental));
  }

  // ---------------------------------------------------------------- order and repetition

  lemma {:induction false} SnapshotsOf(defaults: Defaults, events: seq<Json>, u: Usage)
    ensures u in Snapshots(defaults, events) <==> exists e :: e in events && EventSnapshot(defaults, e) == Is(u)
  {
    if events != [] {
      var init, last := events[..|events| - 1], events[|events| - 1];
      assert events == init + [last] && last in events;
      SnapshotsOf(defaults, init, u);
    }
  }

  lemma {:induction false} SameSnapshots(defaults: Defaults, a: seq<Json>, b: seq<Json>)
    requires Elements(a) == Elements(b)
    ensures Elements(Snapshots(defaults, a)) == Elements(Snapshots(defaults, b))
  {
    forall e ensures e in a <==> e in b { assert e in Elements(a) <==> e in Elements(b); }
    forall w ensures w in Snapshots(defaults, a) <==> w in Snapshots(defaults, b) {
      SnapshotsOf(defaults, a, w);
      SnapshotsOf(defaults, b, w);
    }
  }

  /** Reordering or repeating events does not change the numbers and the source taken from cumulative snapshots. */
  lemma {:induction false} SnapshotsIgnoreOrder(defaults: Defaults, a: seq<Json>, b: seq<Json>)
    requires Elements(a) == Elements(b) && Snapshots(defaults, a) != []
    ensures Snapshots(defaults, b) != []
    ensures var u, v := FoldMax(Snapshots(defaults, a)).value, FoldMax(Snapshots(defaults, b)).value;
      NumbersOf(u) == NumbersOf(v) && u.source == v.source
  {
    SameSnapshots(defaults, a, b);
    FoldMaxKeeps(Snapshots(defaults, a), Snapshots(defaults, b));
  }

  ghost predicate SnapshotIgnoresOrder(defaults: Defaults, events: seq<Json>, u: Option<Usage>) {
    forall other {:trigger Snapshots(defaults, other)} :: Elements(other) == Elements(events) ==> FoldMax(Snapshots(defaults, other)) == u
  }

  ghost function SnapshotEvent(defaults: Defaults, events: seq<Json>, u: Usage): (e: Json)
    requires u in Snapshots(defaults, events)
    ensures e in events && EventSnapshot(defaults, e) == Is(u)
  {
    SnapshotsOf(defaults, events, u);
    var e :| e in events && EventSnapshot(defaults, e) == Is(u); e
  }

  lemma {:induction false} SnapshotsMore(defaults: Defaults, events: seq<Json>, event: Json, u: Usage)
    requires event in events && EventSnapshot(defaults, event) == Is(u)
    ensures Snapshots(defaults, events + [event]) == Snapshots(defaults, events) + [u]
    ensures Elements(events + [event]) == Elements(events)
  {
    assert (events + [event])[..|events|] == events;
  }

  lemma {:induction false} EventsClash(defaults: Defaults, events: seq<Json>) returns (first: seq<Json>, second: seq<Json>)
    requires !NameOne(Snapshots(defaults, events))
    ensures Elements(first) == Elements(events) && Elements(second) == Elements(events)
    ensures FoldMax(Snapshots(defaults, first)) != FoldMax(Snapshots(defaults, second))
  {
    var u, v := NamesClash(Snapshots(defaults, events));
    var a, b := SnapshotEvent(defaults, events, u), SnapshotEvent(defaults, events, v);
    SnapshotsMore(defaults, events, a, u);
    SnapshotsMore(defaults, events + [a], b, v);
    first := events + [a] + [b];
    SnapshotsMore(defaults, first, a, u);
    second := first + [a];
  }

  /** What snapshots give is the same for every order and repetition of the events exactly if their providers agree. */
  lemma {:induction false} EventOrderMattersOnlyForNames(defaults: Defaults, events: seq<Json>)
    requires Snapshots(defaults, events) != []
    ensures SnapshotIgnoresOrder(defaults, events, FoldMax(Snapshots(defaults, events))) <==> NameOne(Snapshots(defaults, events))
  {
    var us := Snapshots(defaults, events);
    if NameOne(us) {
      forall other | Elements(other) == Elements(events) ensures FoldMax(Snapshots(defaults, other)) == FoldMax(us) {
        SameSnapshots(defaults, events, other);
        NamesAgree(us, Snapshots(defaults, other));
      }
    } else {
      var first, second := EventsClash(defaults, events);
    }
  }

  lemma {:induction false} LastOfRest(events: seq<Json>, i: nat)
    requires i < |events| - 1
    ensures var rest, init := events[..i] + events[i + 1..], events[..|events| - 1];
      && rest != [] && rest[..|rest| - 1] == init[..i] + init[i + 1..] && rest[|rest| - 1] == events[|events| - 1]
      && init[i] == events[i]
  {
  }

  lemma {:induction false} SumOfLast(defaults: Defaults, events: seq<Json>)
    requires events != []
    ensures SumOfRecords(defaults, events) == Plus(SumOfRecords(defaults, events[..|events| - 1]), Sum(Records(defaults, events[|events| - 1])))
  {
  }

  lemma {:induction false} SumWithout(defaults: Defaults, events: seq<Json>, i: nat)
    requires i < |events|
    ensures SumOfRecords(defaults, events) == Plus(SumOfRecords(defaults, events[..i] + events[i + 1..]), Sum(Records(defaults, events[i])))
  {
    var init, last := events[..|events| - 1], events[|events| - 1];
    if i == |events| - 1 {
      assert events[..i] + events[i + 1..] == init;
    } else {
      SumWithout(defaults, init, i);
      LastOfRest(events, i);
      SumOfLast(defaults, events[..i] + events[i + 1..]);
      SumOfLast(defaults, events);
    }
  }

  /** The last element of one order can be taken out of the other. */
  lemma {:induction false} TakeOut<T>(a: seq<T>, b: seq<T>) returns (i: nat)
    requires multiset(a) == multiset(b) && a != []
    ensures i < |b| && b[i] == a[|a| - 1] && multiset(b[..i] + b[i + 1..]) == multiset(a[..|a| - 1])
  {
    var init, last := a[..|a| - 1], a[|a| - 1];
    assert a == init + [last];
    assert last in multiset(b);
    i :| 0 <= i < |b| && b[i] == last;
    assert b == b[..i] + [last] + b[i + 1..];
    assert multiset(b[..i] + b[i + 1..]) == multiset(b) - multiset{last};
    assert multiset(init) == multiset(a) - multiset{last};
  }

  /** Reordering events does not change the sum of their records. */
  lemma {:induction false} SumIgnoresOrder(defaults: Defaults, a: seq<Json>, b: seq<Json>)
    requires multiset(a) == multiset(b)
    ensures SumOfRecords(defaults, a) == SumOfRecords(defaults, b)
  {
    if a == [] {
      assert |multiset(a)| == |a| && |multiset(b)| == |b|;
    } else {
      var i := TakeOut(a, b);
      SumIgnoresOrder(defaults, a[..|a| - 1], b[..i] + b[i + 1..]);
      SumWithout(defaults, b, i);
      SumOfLast(defaults, a);
    }
  }
}
