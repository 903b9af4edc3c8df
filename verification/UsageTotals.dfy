/** What is counted: snapshots before turns, and what records add up to. */
module UsageTotals {
  import opened Wrappers
  import opened Ordering
  import opened Json
  import opened TokenUsage

  // ---------------------------------------------------------------- snapshots are not counted twice

  /** The object this mapping holds as its cumulative snapshot. */
  function Carried(v: Json): Option<Json> {
    if v.Object? && Get(v.fields, "total_token_usage").Some? && Get(v.fields, "total_token_usage").value.Object?
    then Get(v.fields, "total_token_usage") else None
  }

  predicate CarriesAt(v: Json, at: seq<nat>) {
    Node(v, at).Some? && Carried(Node(v, at).value).Some?
  }

  lemma {:induction false} ItemFound(defaults: Defaults, v: Json, i: nat, k: nat) returns (m: nat)
    requires v.Array? && k < |ExtractItems(defaults, v, i)|
    ensures var f := ExtractItems(defaults, v, i)[k];
      && f.at != [] && f.at[0] < |v.items| && m < |Extract(defaults, v.items[f.at[0]])|
      && Extract(defaults, v.items[f.at[0]])[m] == Found(f.at[1..], f.reading)
    decreases |v.items| - i
  {
    var own := Below(i, Extract(defaults, v.items[i]));
    if k < |own| {
      m := k;
      assert ExtractItems(defaults, v, i)[k] == own[k];
    } else {
      m := ItemFound(defaults, v, i + 1, k - |own|);
    }
  }

  lemma {:induction false} FieldFound(defaults: Defaults, v: Json, i: nat, k: nat) returns (m: nat)
    requires v.Object? && k < |ExtractFields(defaults, v, i)|
    ensures var f := ExtractFields(defaults, v, i)[k];
      && f.at != [] && f.at[0] < |v.fields| && m < |Extract(defaults, v.fields[f.at[0]].1)|
      && Extract(defaults, v.fields[f.at[0]].1)[m] == Found(f.at[1..], f.reading)
    decreases |v.fields| - i
  {
    var own := Below(i, Extract(defaults, v.fields[i].1));
    if k < |own| {
      m := k;
      assert ExtractFields(defaults, v, i)[k] == own[k];
    } else {
      m := FieldFound(defaults, v, i + 1, k - |own|);
    }
  }

  /** Below a mapping whose snapshot can be read only that snapshot is counted. */
  lemma {:induction false} NothingBesideSnapshots(defaults: Defaults, v: Json, at: seq<nat>, k: nat)
    requires CarriesAt(v, at) && Read(defaults, Carried(Node(v, at).value).value) != Nothing
    requires k < |Extract(defaults, v)| && at < Extract(defaults, v)[k].at
    ensures Extract(defaults, v)[k] ==
      Found(at + [FieldIndex(Node(v, at).value.fields, "total_token_usage")], Read(defaults, Carried(Node(v, at).value).value))
    decreases |at|
  {
    var f := Extract(defaults, v)[k];
    if at != [] {
      assert f.at == [f.at[0]] + f.at[1..] && at == [at[0]] + at[1..] && at[0] == f.at[0] && at[1..] < f.at[1..];
      var m;
      if v.Array? {
        m := ItemFound(defaults, v, 0, k);
        NothingBesideSnapshots(defaults, v.items[at[0]], at[1..], m);
      } else {
        m := FieldFound(defaults, v, 0, k);
        NothingBesideSnapshots(defaults, v.fields[at[0]].1, at[1..], m);
      }
    }
  }

  // ---------------------------------------------------------------- the snapshot of an event

  /** In reading order position `a` comes before `b`, or they are the same. */
  predicate NotAfter(a: seq<nat>, b: seq<nat>) {
    a == [] || (b != [] && (a[0] < b[0] || (a[0] == b[0] && NotAfter(a[1..], b[1..]))))
  }

  /** `found` is the snapshot carried at the first position that carries one. */
  ghost predicate IsFirstCarried(v: Json, found: Option<Json>, at: seq<nat>) {
    match found
    case None => forall b {:trigger CarriesAt(v, b)} :: !CarriesAt(v, b)
    case Some(_) =>
      CarriesAt(v, at) && Carried(Node(v, at).value) == found && forall b {:trigger CarriesAt(v, b)} :: CarriesAt(v, b) ==> NotAfter(at, b)
  }

  /** The same among the positions from child `i` on. */
  ghost predicate IsFirstCarriedFrom(v: Json, i: nat, found: Option<Json>, at: seq<nat>) {
    match found
    case None => forall b {:trigger CarriesAt(v, b)} :: b != [] && b[0] >= i ==> !CarriesAt(v, b)
    case Some(_) =>
      && at != [] && at[0] >= i && CarriesAt(v, at) && Carried(Node(v, at).value) == found
      && forall b {:trigger CarriesAt(v, b)} :: b != [] && b[0] >= i && CarriesAt(v, b) ==> NotAfter(at, b)
  }

  lemma {:induction false} CarriesBelow(v: Json, i: nat, child: Json, b: seq<nat>)
    requires IsChild(v, i, child) && b != [] && b[0] == i
    ensures CarriesAt(v, b) <==> CarriesAt(child, b[1..])
    ensures Node(v, b) == Node(child, b[1..])
  {
    assert b == [i] + b[1..];
    NodeBelow(v, i, child, b[1..]);
  }

  lemma {:induction false} FirstInChild(v: Json, i: nat, child: Json, found: Option<Json>, at: seq<nat>)
    requires IsChild(v, i, child) && IsFirstCarried(child, found, at) && found.Some?
    ensures IsFirstCarriedFrom(v, i, found, [i] + at)
  {
    CarriesBelow(v, i, child, [i] + at);
    assert ([i] + at)[1..] == at;
    forall b | b != [] && b[0] >= i && CarriesAt(v, b) ensures NotAfter([i] + at, b) {
      if b[0] == i { CarriesBelow(v, i, child, b); }
    }
  }

  lemma {:induction false} FirstInRest(v: Json, i: nat, child: Json, found: Option<Json>, at: seq<nat>)
    requires IsChild(v, i, child) && IsFirstCarried(child, None, []) && IsFirstCarriedFrom(v, i + 1, found, at)
    ensures IsFirstCarriedFrom(v, i, found, at)
  {
    forall b | b != [] && b[0] == i ensures !CarriesAt(v, b) { CarriesBelow(v, i, child, b); }
  }

  lemma {:induction false} FirstInItems(v: Json, i: nat) returns (at: seq<nat>)
    requires v.Array?
    ensures IsFirstCarriedFrom(v, i, FindInItems(v, i), at)
    decreases v, |v.items| - i
  {
    at := [];
    if i < |v.items| {
      at := FirstCarriedIsFound(v.items[i]);
      if FindNested(v.items[i]).Some? {
        FirstInChild(v, i, v.items[i], FindNested(v.items[i]), at);
        at := [i] + at;
      } else {
        at := FirstInItems(v, i + 1);
        FirstInRest(v, i, v.items[i], FindInItems(v, i + 1), at);
      }
    }
  }

  lemma {:induction false} FirstInFields(v: Json, i: nat) returns (at: seq<nat>)
    requires v.Object?
    ensures IsFirstCarriedFrom(v, i, FindInFields(v, i), at)
    decreases v, |v.fields| - i
  {
    at := [];
    if i < |v.fields| {
      at := FirstCarriedIsFound(v.fields[i].1);
      if FindNested(v.fields[i].1).Some? {
        FirstInChild(v, i, v.fields[i].1, FindNested(v.fields[i].1), at);
        at := [i] + at;
      } else {
        at := FirstInFields(v, i + 1);
        FirstInRest(v, i, v.fields[i].1, FindInFields(v, i + 1), at);
      }
    }
  }

  /** The snapshot of an event is the first that is carried anywhere in it. */
  lemma {:induction false} FirstCarriedIsFound(v: Json) returns (at: seq<nat>)
    ensures IsFirstCarried(v, FindNested(v), at)
    decreases v
  {
    at := [];
    if Carried(v).None? {
      forall b | CarriesAt(v, b) ensures b != [] {}
      if v.Object? {
        at := FirstInFields(v, 0);
      } else if v.Array? {
        at := FirstInItems(v, 0);
      }
    }
  }

  // ---------------------------------------------------------------- what records add up to

  /** One more record adds each of its numbers to that number of the sum. */
  lemma {:induction false} RecordsAddUp(us: seq<Usage>, u: Usage)
    requires us != []
    ensures var before, after := Aggregate(us), Aggregate(us + [u]);
      && before.Some? && after.Some?
      && after.value.input == before.value.input + u.input && after.value.output == before.value.output + u.output
      && after.value.cached == before.value.cached + u.cached && after.value.total == before.value.total + u.total
  {
    assert (us + [u])[..|us|] == us;
  }

  lemma {:induction false} TwoDiffer<T>(s: set<T>, a: T, b: T)
    requires a in s && b in s && a != b
    ensures |s| >= 2
  {
    assert b in s - {a};
    assert |s| == |s - {a}| + 1;
  }

  /** Records of one source, but for unknown ones, have it in common. */
  lemma {:induction false} SourceOfAll(us: seq<Usage>, source: Source)
    requires us != [] && forall u :: u in us ==> u.source == source || u.source == Unknown
    requires exists u :: u in us && u.source == source
    ensures Aggregate(us).value.source == source
  {
    var sources := set u | u in us && u.source != Unknown :: u.source;
    if source != Unknown {
      assert sources == {source};
    } else {
      assert sources == {};
    }
  }

  /** Records of different known sources are mixed. */
  lemma {:induction false} SourcesMix(us: seq<Usage>, u: Usage, v: Usage)
    requires u in us && v in us && u.source != Unknown && v.source != Unknown && u.source != v.source
    ensures Aggregate(us).value.source == Mixed
  {
    var sources := set u | u in us && u.source != Unknown :: u.source;
    TwoDiffer(sources, u.source, v.source);
  }

  lemma {:induction false} FirstNamed(us: seq<Usage>, name: string)
    requires NamesOnly(us, name)
    ensures FirstProvider(us) == if NamesAny(us) then Some(name) else None
  {
    if us != [] {
      assert us == [us[0]] + us[1..];
      FirstNamed(us[1..], name);
    }
  }

  /** Records that name one provider, or none, have it in common. */
  lemma {:induction false} ProviderOfAll(us: seq<Usage>, name: string)
    requires us != [] && NamesOnly(us, name)
    ensures Aggregate(us).value.provider == if NamesAny(us) then Some(name) else None
  {
    var names := set u | u in us && u.provider.Some? :: u.provider.value;
    FirstNamed(us, name);
    if NamesAny(us) {
      var u :| u in us && u.provider.Some?;
      assert names == {name};
    } else {
      assert names == {};
    }
  }

  /** Records that name different providers have none in common. */
  lemma {:induction false} ProvidersClash(us: seq<Usage>, u: Usage, v: Usage)
    requires u in us && v in us && u.provider.Some? && v.provider.Some? && u.provider != v.provider
    ensures Aggregate(us).value.provider == None
  {
    var names := set u | u in us && u.provider.Some? :: u.provider.value;
    TwoDiffer(names, u.provider.value, v.provider.value);
  }

  /** One record adds up to itself. */
  lemma {:induction false} OneRecordIsItself(u: Usage)
    ensures Aggregate([]) == None && Aggregate([u]) == Some(u)
  {
    var us := [u];
    assert us[..0] == [] && Sum(us[..0]) == Numbers(0, 0, 0, 0);
    assert u in us && (NamesAny(us) <==> u.provider.Some?);
    SourceOfAll(us, u.source);
    ProviderOfAll(us, if u.provider.Some? then u.provider.value else "");
  }

  // ---------------------------------------------------------------- event by event

  /** The records of all events. */
  function AllRecords(defaults: Defaults, events: seq<Json>): seq<Usage> {
    if events == [] then [] else AllRecords(defaults, events[..|events| - 1]) + Records(defaults, events[|events| - 1])
  }

  predicate HasRecord(defaults: Defaults, e: Json, u: Usage) {
    u in Records(defaults, e)
  }

  predicate AddsUpTo(defaults: Defaults, e: Json, u: Usage) {
    Aggregate(Records(defaults, e)) == Some(u)
  }

  lemma {:induction false} InAllRecords(defaults: Defaults, events: seq<Json>, u: Usage)
    ensures u in AllRecords(defaults, events) <==> exists e :: e in events && HasRecord(defaults, e, u)
  {
    if events != [] {
      var init, last := events[..|events| - 1], events[|events| - 1];
      assert events == init + [last] && last in events;
      InAllRecords(defaults, init, u);
      assert u in AllRecords(defaults, events) <==> u in AllRecords(defaults, init) || HasRecord(defaults, last, u);
    }
  }

  lemma {:induction false} InPerEvent(defaults: Defaults, events: seq<Json>, u: Usage)
    ensures u in PerEvent(defaults, events) <==> exists e :: e in events && AddsUpTo(defaults, e, u)
  {
    if events != [] {
      var init, last := events[..|events| - 1], events[|events| - 1];
      assert events == init + [last] && last in events;
      InPerEvent(defaults, init, u);
      assert u in PerEvent(defaults, events) <==> u in PerEvent(defaults, init) || AddsUpTo(defaults, last, u);
    }
  }

  /** A record and what its event adds up to. */
  lemma {:induction false} EventOf(defaults: Defaults, events: seq<Json>, u: Usage) returns (e: Json, added: Usage)
    requires u in AllRecords(defaults, events)
    ensures e in events && u in Records(defaults, e) && AddsUpTo(defaults, e, added) && added in PerEvent(defaults, events)
  {
    InAllRecords(defaults, events, u);
    e :| e in events && HasRecord(defaults, e, u);
    added := Aggregate(Records(defaults, e)).value;
    InPerEvent(defaults, events, added);
  }

  lemma {:induction false} RecordsOf(defaults: Defaults, events: seq<Json>, added: Usage) returns (e: Json)
    requires added in PerEvent(defaults, events)
    ensures e in events && AddsUpTo(defaults, e, added) && Records(defaults, e) != []
    ensures forall u :: u in Records(defaults, e) ==> u in AllRecords(defaults, events)
  {
    InPerEvent(defaults, events, added);
    e :| e in events && AddsUpTo(defaults, e, added);
    forall u | u in Records(defaults, e) ensures u in AllRecords(defaults, events) {
      assert HasRecord(defaults, e, u);
      InAllRecords(defaults, events, u);
    }
  }

  lemma {:induction false} MixedStays(us: seq<Usage>, u: Usage)
    requires u in us && u.source == Mixed
    ensures Aggregate(us).value.source == Mixed
  {
    if v :| v in us && v.source != Mixed && v.source != Unknown {
      SourcesMix(us, u, v);
    } else {
      SourceOfAll(us, Mixed);
    }
  }

  lemma {:induction false} OwnSourceOrMixed(us: seq<Usage>, u: Usage)
    requires u in us && u.source != Unknown
    ensures Aggregate(us).value.source == u.source || Aggregate(us).value.source == Mixed
  {
    if v :| v in us && v.source != u.source && v.source != Unknown {
      SourcesMix(us, u, v);
    } else {
      SourceOfAll(us, u.source);
    }
  }

  lemma {:induction false} EventsOfOneSource(defaults: Defaults, events: seq<Json>, source: Source)
    requires AllRecords(defaults, events) != []
    requires forall u :: u in AllRecords(defaults, events) ==> u.source == source || u.source == Unknown
    requires exists u :: u in AllRecords(defaults, events) && u.source == source
    ensures PerEvent(defaults, events) != [] && Aggregate(PerEvent(defaults, events)).value.source == source
  {
    var u :| u in AllRecords(defaults, events) && u.source == source;
    var e, added := EventOf(defaults, events, u);
    forall w | w in PerEvent(defaults, events) ensures w.source == source || w.source == Unknown {
      var f := RecordsOf(defaults, events, w);
      var us := Records(defaults, f);
      if v :| v in us && v.source == source {
        SourceOfAll(us, source);
      } else {
        assert us[0] in us && us[0].source == Unknown;
        SourceOfAll(us, Unknown);
      }
    }
    assert added.source == source by {
      var us := Records(defaults, e);
      forall v | v in us ensures v in AllRecords(defaults, events) {
        assert HasRecord(defaults, e, v);
        InAllRecords(defaults, events, v);
      }
      SourceOfAll(us, source);
    }
    SourceOfAll(PerEvent(defaults, events), source);
  }

  lemma {:induction false} EventsOfTwoSources(defaults: Defaults, events: seq<Json>, u: Usage, v: Usage)
    requires u in AllRecords(defaults, events) && v in AllRecords(defaults, events)
    requires u.source != Unknown && v.source != Unknown && u.source != v.source
    ensures PerEvent(defaults, events) != [] && Aggregate(PerEvent(defaults, events)).value.source == Mixed
  {
    var e, a := EventOf(defaults, events, u);
    var f, b := EventOf(defaults, events, v);
    OwnSourceOrMixed(Records(defaults, e), u);
    OwnSourceOrMixed(Records(defaults, f), v);
    if a.source == Mixed {
      MixedStays(PerEvent(defaults, events), a);
    } else if b.source == Mixed {
      MixedStays(PerEvent(defaults, events), b);
    } else {
      SourcesMix(PerEvent(defaults, events), a, b);
    }
  }

  /** Adding up event by event keeps the source that all records have together. */
  lemma {:induction false} SourceIsThatOfAllRecords(defaults: Defaults, events: seq<Json>)
    requires AllRecords(defaults, events) != []
    ensures PerEvent(defaults, events) != []
    ensures Aggregate(PerEvent(defaults, events)).value.source == Aggregate(AllRecords(defaults, events)).value.source
  {
    var us := AllRecords(defaults, events);
    assert us[0] in us;
    if u :| u in us && u.source != Unknown {
      if v :| v in us && v.source != Unknown && v.source != u.source {
        SourcesMix(us, u, v);
        EventsOfTwoSources(defaults, events, u, v);
      } else {
        SourceOfAll(us, u.source);
        EventsOfOneSource(defaults, events, u.source);
      }
    } else {
      SourceOfAll(us, Unknown);
      EventsOfOneSource(defaults, events, Unknown);
    }
  }

  predicate EventNamesOne(defaults: Defaults, e: Json) {
    NameOne(Records(defaults, e))
  }

  lemma {:induction false} ProviderOfEvent(us: seq<Usage>, u: Usage)
    requires NameOne(us) && u in us && u.provider.Some?
    ensures Aggregate(us).value.provider == u.provider
  {
    ProviderOfAll(us, u.provider.value);
  }

  lemma {:induction false} EventsNameOne(defaults: Defaults, events: seq<Json>, name: string)
    requires AllRecords(defaults, events) != [] && NamesOnly(AllRecords(defaults, events), name)
    ensures PerEvent(defaults, events) != []
    ensures Aggregate(PerEvent(defaults, events)).value.provider == Aggregate(AllRecords(defaults, events)).value.provider
  {
    var us := AllRecords(defaults, events);
    var _, first := EventOf(defaults, events, us[0]);
    forall w | w in PerEvent(defaults, events)
      ensures w.provider.None? || (w.provider == Some(name) && NamesAny(us))
    {
      var e := RecordsOf(defaults, events, w);
      ProviderOfAll(Records(defaults, e), name);
    }
    if u :| u in us && u.provider.Some? {
      var e, added := EventOf(defaults, events, u);
      forall v | v in Records(defaults, e) ensures v in us {
        assert HasRecord(defaults, e, v);
        InAllRecords(defaults, events, v);
      }
      ProviderOfAll(Records(defaults, e), name);
      assert NamesAny(PerEvent(defaults, events));
    }
    ProviderOfAll(us, name);
    ProviderOfAll(PerEvent(defaults, events), name);
  }

  /**
   The provider is the one that all records have together exactly if no event
   names two, or it comes out as none at all: an event whose records name two
   providers counts as naming none.
   */
  lemma {:induction false} ProviderIsThatOfAllRecords(defaults: Defaults, events: seq<Json>)
    requires AllRecords(defaults, events) != []
    ensures PerEvent(defaults, events) != []
    ensures Aggregate(PerEvent(defaults, events)).value.provider == Aggregate(AllRecords(defaults, events)).value.provider <==>
      (forall e :: e in events ==> EventNamesOne(defaults, e)) || Aggregate(PerEvent(defaults, events)).value.provider == None
  {
    var us := AllRecords(defaults, events);
    var _, first := EventOf(defaults, events, us[0]);
    if u, v :| u in us && v in us && u.provider.Some? && v.provider.Some? && u.provider != v.provider {
      ProvidersClash(us, u, v);
      if forall e :: e in events ==> EventNamesOne(defaults, e) {
        var e, a := EventOf(defaults, events, u);
        var f, b := EventOf(defaults, events, v);
        ProviderOfEvent(Records(defaults, e), u);
        ProviderOfEvent(Records(defaults, f), v);
        ProvidersClash(PerEvent(defaults, events), a, b);
      }
    } else {
      var name := if NamesAny(us) then var u :| u in us && u.provider.Some?; u.provider.value else "";
      EventsNameOne(defaults, events, name);
      forall e | e in events ensures EventNamesOne(defaults, e) {
        forall u | u in Records(defaults, e) ensures u in us {
          assert HasRecord(defaults, e, u);
          InAllRecords(defaults, events, u);
        }
      }
    }
  }

  lemma {:induction false} TwoEvents(defaults: Defaults, e: Json, f: Json, a: Usage, b: Usage)
    requires AddsUpTo(defaults, e, a) && AddsUpTo(defaults, f, b)
    ensures PerEvent(defaults, [e, f]) == [a, b]
    ensures AllRecords(defaults, [e, f]) == Records(defaults, e) + Records(defaults, f)
  {
    assert [e, f][..1] == [e] && [e][..0] == [];
    assert PerEvent(defaults, [e]) == [a];
    assert AllRecords(defaults, [e]) == Records(defaults, e);
  }

  /** An event whose records name two providers, and one that names a single one: the second name is taken for both. */
  lemma {:induction false} ForgottenClash(defaults: Defaults, e: Json, f: Json, u: Usage, v: Usage, name: string)
    requires u in Records(defaults, e) && v in Records(defaults, e)
    requires u.provider.Some? && v.provider.Some? && u.provider != v.provider
    requires NamesOnly(Records(defaults, f), name) && NamesAny(Records(defaults, f))
    ensures Aggregate(AllRecords(defaults, [e, f])).value.provider == None
    ensures Aggregate(PerEvent(defaults, [e, f])).value.provider == Some(name)
  {
    var a, b := Aggregate(Records(defaults, e)).value, Aggregate(Records(defaults, f)).value;
    ProvidersClash(Records(defaults, e), u, v);
    ProviderOfAll(Records(defaults, f), name);
    TwoEvents(defaults, e, f, a, b);
    assert b in [a, b] && NamesOnly([a, b], name);
    ProviderOfAll([a, b], name);
    ProvidersClash(AllRecords(defaults, [e, f]), u, v);
  }
}
