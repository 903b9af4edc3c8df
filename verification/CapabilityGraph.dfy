/**
 Capabilities, their aliases, and the closure of a set of capabilities under
 what they imply and require.
 */
module CapabilityGraph {
  import opened Wrappers
  import opened Ordering

  datatype Capability = Capability(
    capabilityId: string, aliases: seq<string>, implies: seq<string>, requiresIds: seq<string>, weight: real)

  /** What `_capabilities` and `_aliases` hold. */
  datatype Catalog = Catalog(capabilities: map<string, Capability>, aliases: map<string, string>)

  datatype CatalogError =
    | CapabilityRegistered(id: string)
    | AliasRegistered(alias: string)
    | UnknownCapability(id: string)
    | UnknownReference(owner: string, related: string)

  function Canonical(c: Catalog, id: string): string {
    if id in c.aliases then c.aliases[id] else id
  }

  predicate Known(c: Catalog, id: string) {
    Canonical(c, id) in c.capabilities
  }

  /** The canonical names of a list of names. */
  function Canonicals(c: Catalog, ids: seq<string>): (r: seq<string>)
    ensures |r| == |ids| && forall i :: 0 <= i < |ids| ==> r[i] == Canonical(c, ids[i])
  {
    seq(|ids|, i requires 0 <= i < |ids| => Canonical(c, ids[i]))
  }

  /** What expanding `id` adds: `get` resolves an alias once more. */
  function Related(c: Catalog, id: string): seq<string>
    requires Known(c, id)
  {
    var capability := c.capabilities[Canonical(c, id)];
    Canonicals(c, capability.implies) + Canonicals(c, capability.requiresIds)
  }

  /** Every member is known and brings all it implies and requires. */
  ghost predicate ClosedUnder(c: Catalog, s: set<string>) {
    forall id :: id in s ==> Known(c, id) && Elements(Related(c, id)) <= s
  }

  ghost predicate Bound(c: Catalog, ids: seq<string>, s: set<string>) {
    Elements(Canonicals(c, ids)) <= s && ClosedUnder(c, s)
  }

  /** Some closed set holds the canonical inputs: nothing unknown is reached from them. */
  ghost predicate Expandable(c: Catalog, ids: seq<string>) {
    exists s :: Bound(c, ids, s)
  }

  /** `s` is the least set that holds the canonical inputs and is closed. */
  ghost predicate IsClosure(c: Catalog, ids: seq<string>, s: set<string>) {
    Bound(c, ids, s) && forall t :: Bound(c, ids, t) ==> s <= t
  }

  /** The closure of a request: what every closed set holding it has in common. */
  ghost function Closure(c: Catalog, ids: seq<string>): (r: set<string>)
    requires Expandable(c, ids)
    ensures IsClosure(c, ids, r)
  {
    var some :| Bound(c, ids, some);
    var r := set x | x in some && forall s :: Bound(c, ids, s) ==> x in s;
    assert Bound(c, ids, r) by {
      forall id | id in r ensures Known(c, id) && Elements(Related(c, id)) <= r {
        assert id in some;
      }
    }
    r
  }

  lemma {:induction false} ClosureUnique(c: Catalog, ids: seq<string>, s: set<string>, t: set<string>)
    requires IsClosure(c, ids, s) && IsClosure(c, ids, t)
    ensures s == t
  {
  }

  /** A larger request has a larger closure. */
  lemma {:induction false} ClosureMonotone(c: Catalog, ids: seq<string>, more: seq<string>, s: set<string>, t: set<string>)
    requires Elements(ids) <= Elements(more)
    requires IsClosure(c, ids, s) && IsClosure(c, more, t)
    ensures s <= t
  {
    forall x | x in Canonicals(c, ids) ensures x in t {
      var i :| 0 <= i < |ids| && x == Canonical(c, ids[i]);
      assert ids[i] in Elements(more);
      var j :| 0 <= j < |more| && more[j] == ids[i];
      assert x == Canonicals(c, more)[j];
    }
    assert Bound(c, ids, t);
  }

  // ---------------------------------------------------------------- expanding an expansion

  /** Every closed set that answers the request for `from` holds `id`. */
  ghost predicate Reaches(c: Catalog, from: string, id: string) {
    forall t :: Bound(c, [from], t) ==> id in t
  }

  /** If `a` is an alias of an alias: the end of the chain comes with `a`, and the middle comes back from its own expansion. */
  ghost predicate ChainCloses(c: Catalog, a: string)
    requires a in c.aliases
  {
    c.aliases[a] in c.aliases ==> Reaches(c, a, c.aliases[c.aliases[a]]) && Reaches(c, c.aliases[a], c.aliases[a])
  }

  ghost predicate ChainsClose(c: Catalog) {
    forall a {:trigger ChainCloses(c, a)} :: a in c.aliases ==> ChainCloses(c, a)
  }

  /** No alias of an alias leads to a further alias. */
  ghost predicate ShortChains(c: Catalog) {
    forall a :: a in c.aliases && c.aliases[a] in c.aliases ==> c.aliases[c.aliases[a]] !in c.aliases
  }

  /** Expanding any listing of an expansion gives it back. */
  ghost predicate Idempotent(c: Catalog) {
    forall ids, s, listing {:trigger IsClosure(c, ids, s), IsClosure(c, listing, s)} ::
      IsClosure(c, ids, s) && Elements(listing) == s ==> IsClosure(c, listing, s)
  }

  lemma {:induction false} CanonicalsOf(c: Catalog, listing: seq<string>, t: set<string>)
    ensures Elements(Canonicals(c, listing)) <= t <==> forall x :: x in Elements(listing) ==> Canonical(c, x) in t
  {
    var names := Canonicals(c, listing);
    if Elements(names) <= t {
      forall x | x in Elements(listing) ensures Canonical(c, x) in t {
        var i :| 0 <= i < |listing| && listing[i] == x;
        assert names[i] in Elements(names);
      }
    }
    if forall x :: x in Elements(listing) ==> Canonical(c, x) in t {
      forall y | y in Elements(names) ensures y in t {
        var i :| 0 <= i < |names| && names[i] == y;
        assert listing[i] in Elements(listing);
      }
    }
  }

  lemma {:induction false} OnlyTargets(c: Catalog, ids: seq<string>, s: set<string>, x: string)
    requires IsClosure(c, ids, s) && x in c.aliases && forall a :: a in c.aliases ==> c.aliases[a] != x
    ensures x !in s
  {
    var t := s - {x};
    forall id | id in t ensures Known(c, id) && Elements(Related(c, id)) <= t { assert x !in Related(c, id); }
    assert x !in Canonicals(c, ids);
    assert Bound(c, ids, t);
  }

  /** A member of a closure that is an alias is the target of another alias. */
  lemma {:induction false} AliasesAreTargets(c: Catalog, ids: seq<string>, s: set<string>, x: string)
    requires IsClosure(c, ids, s) && x in c.aliases
    ensures x in s ==> exists a :: a in c.aliases && c.aliases[a] == x
  {
    if forall a :: a in c.aliases ==> c.aliases[a] != x { OnlyTargets(c, ids, s, x); }
  }

  lemma {:induction false} BoundOne(c: Catalog, id: string, t: set<string>)
    ensures Bound(c, [id], t) <==> Canonical(c, id) in t && ClosedUnder(c, t)
  {
    assert Canonicals(c, [id]) == [Canonical(c, id)];
    CanonicalsOf(c, [id], t);
  }

  /** Where every chain of aliases closes, expanding a closure gives it back. */
  lemma {:induction false} ClosureIdempotent(c: Catalog, ids: seq<string>, s: set<string>, listing: seq<string>)
    requires ChainsClose(c) && IsClosure(c, ids, s) && Elements(listing) == s
    ensures IsClosure(c, listing, s)
  {
    forall x | x in s ensures Canonical(c, x) in s {
      if x in c.aliases {
        AliasesAreTargets(c, ids, s, x);
        var a :| a in c.aliases && c.aliases[a] == x;
        assert ChainCloses(c, a);
        BoundOne(c, a, s);
      }
    }
    CanonicalsOf(c, listing, s);
    forall t | Bound(c, listing, t) ensures s <= t {
      CanonicalsOf(c, listing, t);
      forall x | x in s ensures x in t {
        if x in c.aliases {
          AliasesAreTargets(c, ids, s, x);
          var a :| a in c.aliases && c.aliases[a] == x;
          assert ChainCloses(c, a);
          BoundOne(c, x, t);
        }
      }
    }
  }

  /** An alias of an alias in an idempotent catalog: the closure of `a` has both the middle and the end of the chain. */
  lemma {:induction false} EndComesAlong(c: Catalog, a: string, s: set<string>)
    requires Idempotent(c) && a in c.aliases && c.aliases[a] in c.aliases && IsClosure(c, [a], s)
    ensures c.aliases[a] in s && c.aliases[c.aliases[a]] in s && IsClosure(c, Sorted(s), s)
    ensures forall y :: y in s ==> Canonical(c, y) in s
  {
    assert IsClosure(c, Sorted(s), s);
    CanonicalsOf(c, Sorted(s), s);
    BoundOne(c, a, s);
  }

  lemma {:induction false} MiddleComesBack(c: Catalog, a: string, t: set<string>)
    requires Idempotent(c) && ShortChains(c) && a in c.aliases && c.aliases[a] in c.aliases && Bound(c, [c.aliases[a]], t)
    ensures c.aliases[a] in t
  {
    var x := c.aliases[a];
    BoundOne(c, x, t);
    assert Related(c, x) == Related(c, c.aliases[x]);
    BoundOne(c, a, t + {x});
    var s := Closure(c, [a]);
    EndComesAlong(c, a, s);
    var both := s * t;
    forall y | y in s ensures Canonical(c, y) in both {
      if Canonical(c, y) == x && y in c.aliases {
        AliasesAreTargets(c, [a], s, y);
      }
    }
    CanonicalsOf(c, Sorted(s), both);
    assert Bound(c, Sorted(s), both);
  }

  /** With chains of at most two aliases that is exact: expansion is idempotent if and only if every chain closes. */
  lemma {:induction false} IdempotentIffChainsClose(c: Catalog)
    requires ShortChains(c)
    ensures Idempotent(c) <==> ChainsClose(c)
  {
    if ChainsClose(c) {
      forall ids, s, listing | IsClosure(c, ids, s) && Elements(listing) == s ensures IsClosure(c, listing, s) {
        ClosureIdempotent(c, ids, s, listing);
      }
    }
    if Idempotent(c) {
      forall a | a in c.aliases && c.aliases[a] in c.aliases ensures ChainCloses(c, a) {
        forall t | Bound(c, [a], t) ensures c.aliases[c.aliases[a]] in t { EndComesAlong(c, a, Closure(c, [a])); }
        forall t | Bound(c, [c.aliases[a]], t) ensures c.aliases[a] in t { MiddleComesBack(c, a, t); }
      }
    }
  }

  lemma {:induction false} ClosureOfOne(c: Catalog, id: string, x: string)
    requires Canonical(c, id) == x && Known(c, x) && Related(c, x) == []
    ensures IsClosure(c, [id], {x})
  {
    BoundOne(c, id, {x});
    forall t | Bound(c, [id], t) ensures {x} <= t { BoundOne(c, id, t); }
  }

  /** Every alias names a registered capability. */
  predicate AliasesRegistered(c: Catalog) {
    forall a :: a in c.aliases ==> c.aliases[a] in c.capabilities
  }

  /** What `validate` checks before it expands every capability. */
  predicate ReferencesKnown(c: Catalog) {
    forall id :: id in c.capabilities ==>
      forall related :: related in c.capabilities[id].implies + c.capabilities[id].requiresIds ==> Known(c, related)
  }

  /**
     Expansion need not be idempotent: `x` is an alias of `b`, then a capability
     `x` is registered with the alias `y`.
   */
  lemma {:induction false} ClosureOfAliasChain()
    ensures var c := Catalog(
        map["b" := Capability("b", ["x"], [], [], 1.0), "x" := Capability("x", ["y"], [], [], 1.0)],
        map["x" := "b", "y" := "x"]);
      && AliasesRegistered(c) && ReferencesKnown(c) && ShortChains(c) && !Idempotent(c)
      && IsClosure(c, ["y"], {"x"}) && IsClosure(c, ["x"], {"b"})
  {
    var c := Catalog(
      map["b" := Capability("b", ["x"], [], [], 1.0), "x" := Capability("x", ["y"], [], [], 1.0)],
      map["x" := "b", "y" := "x"]);
    assert Related(c, "x") == [] && Related(c, "b") == [];
    ClosureOfOne(c, "y", "x");
    ClosureOfOne(c, "x", "b");
    BoundOne(c, "x", {"x"});
    assert Elements(["x"]) == {"x"} && !IsClosure(c, ["x"], {"x"});
  }

  // ---------------------------------------------------------------- registration

  function WithAliases(aliases: map<string, string>, added: seq<string>, id: string): map<string, string> {
    if added == [] then aliases
    else WithAliases(aliases, added[..|added| - 1], id)[added[|added| - 1] := id]
  }

  /** The aliases, new one after the other, name neither a capability nor an alias. */
  predicate AliasesFree(aliases: set<string>, capabilities: set<string>, added: seq<string>) {
    NoDuplicates(added) && forall i :: 0 <= i < |added| ==> added[i] !in aliases && added[i] !in capabilities
  }

  /** `register` accepts the capability. */
  predicate FitsIn(c: Catalog, capability: Capability) {
    && capability.capabilityId !in c.capabilities
    && AliasesFree(c.aliases.Keys, c.capabilities.Keys + {capability.capabilityId}, capability.aliases)
  }

  lemma {:induction false} WithAliasesKeys(aliases: map<string, string>, added: seq<string>, id: string)
    ensures WithAliases(aliases, added, id).Keys == aliases.Keys + Elements(added)
  {
    if added != [] {
      var init, last := added[..|added| - 1], added[|added| - 1];
      WithAliasesKeys(aliases, init, id);
      assert added == init + [last];
      assert Elements(added) == Elements(init) + {last};
    }
  }

  lemma {:induction false} AliasClash(aliases: map<string, string>, capabilities: set<string>, added: seq<string>, i: nat, id: string)
    requires i < |added|
    requires added[i] in WithAliases(aliases, added[..i], id) || added[i] in capabilities
    ensures !AliasesFree(aliases.Keys, capabilities, added)
  {
    WithAliasesKeys(aliases, added[..i], id);
    if added[i] in Elements(added[..i]) {
      var j :| 0 <= j < i && added[..i][j] == added[i];
      assert added[j] == added[i];
    }
  }

  lemma {:induction false} AliasesFreeMore(aliases: map<string, string>, capabilities: set<string>, added: seq<string>, i: nat, id: string)
    requires i < |added| && AliasesFree(aliases.Keys, capabilities, added[..i])
    requires added[i] !in WithAliases(aliases, added[..i], id) && added[i] !in capabilities
    ensures AliasesFree(aliases.Keys, capabilities, added[..i + 1])
  {
    WithAliasesKeys(aliases, added[..i], id);
    assert added[..i + 1] == added[..i] + [added[i]];
    forall j | 0 <= j < i ensures added[j] != added[i] { assert added[j] == added[..i][j]; }
  }

  /** The catalog of capabilities registered one after the other. */
  function Assembled(listed: seq<Capability>): Catalog {
    if listed == [] then Catalog(map[], map[])
    else
      var before, last := Assembled(listed[..|listed| - 1]), listed[|listed| - 1];
      Catalog(before.capabilities[last.capabilityId := last], WithAliases(before.aliases, last.aliases, last.capabilityId))
  }

  /** The names of a capability are new after those before it; only its id may be an alias of an earlier one. */
  predicate NamesAreNew(before: seq<Capability>, capability: Capability) {
    && NoDuplicates(capability.aliases) && capability.capabilityId !in capability.aliases
    && forall b :: b in before ==>
         b.capabilityId != capability.capabilityId && forall a :: a in capability.aliases ==> a != b.capabilityId && a !in b.aliases
  }

  lemma {:induction false} AssembledNames(listed: seq<Capability>, name: string)
    ensures name in Assembled(listed).capabilities <==> exists b :: b in listed && b.capabilityId == name
    ensures name in Assembled(listed).aliases <==> exists b :: b in listed && name in b.aliases
  {
    if listed != [] {
      var init, last := listed[..|listed| - 1], listed[|listed| - 1];
      assert listed == init + [last];
      AssembledNames(init, name);
      WithAliasesKeys(Assembled(init).aliases, last.aliases, last.capabilityId);
      assert name in Elements(last.aliases) <==> name in last.aliases;
    }
  }

  lemma {:induction false} FitsIfNew(before: seq<Capability>, capability: Capability)
    ensures FitsIn(Assembled(before), capability) <==> NamesAreNew(before, capability)
  {
    var c := Assembled(before);
    forall name
      ensures name in c.capabilities <==> exists b :: b in before && b.capabilityId == name
      ensures name in c.aliases <==> exists b :: b in before && name in b.aliases
    {
      AssembledNames(before, name);
    }
    if FitsIn(c, capability) {
      forall a | a in capability.aliases ensures a != capability.capabilityId && a !in c.capabilities && a !in c.aliases {
        var i :| 0 <= i < |capability.aliases| && capability.aliases[i] == a;
      }
    }
  }

  ghost predicate NewAt(listed: seq<Capability>, i: nat)
    requires i < |listed|
  {
    NamesAreNew(listed[..i], listed[i])
  }

  ghost predicate AllNew(listed: seq<Capability>, n: nat)
    requires n <= |listed|
  {
    forall i {:trigger NewAt(listed, i)} :: 0 <= i < n ==> NewAt(listed, i)
  }

  /** Every capability finds its names new, and all references are known in the end. */
  ghost predicate Loadable(listed: seq<Capability>) {
    AllNew(listed, |listed|) && ReferencesKnown(Assembled(listed))
  }

  lemma {:induction false} AssembledKeeps(listed: seq<Capability>, n: nat)
    requires n <= |listed| && AllNew(listed, n)
    ensures forall i :: 0 <= i < n ==>
      var all := Assembled(listed[..n]).capabilities;
      listed[i].capabilityId in all && all[listed[i].capabilityId] == listed[i]
  {
    if n > 0 {
      AssembledKeeps(listed, n - 1);
      assert listed[..n][..n - 1] == listed[..n - 1];
      assert NewAt(listed, n - 1);
      forall i | 0 <= i < n - 1 ensures listed[i].capabilityId != listed[n - 1].capabilityId {
        assert listed[i] == listed[..n - 1][i];
      }
    }
  }

  /** In a validated catalog, everything whose inputs are known can be expanded. */
  lemma {:induction false} ValidatedExpands(c: Catalog, ids: seq<string>)
    requires AliasesRegistered(c) && ReferencesKnown(c)
    ensures Expandable(c, ids) <==> forall i :: 0 <= i < |ids| ==> Known(c, ids[i])
  {
    var all := c.capabilities.Keys;
    forall id | id in all ensures Known(c, id) && Elements(Related(c, id)) <= all {
      var capability := c.capabilities[Canonical(c, id)];
      forall r | r in Related(c, id) ensures r in all {
        var rest := |capability.implies|;
        var i :| 0 <= i < |Related(c, id)| && Related(c, id)[i] == r;
        var related := if i < rest then capability.implies[i] else capability.requiresIds[i - rest];
        assert related in capability.implies + capability.requiresIds;
        assert r == Canonical(c, related);
      }
    }
    assert ClosedUnder(c, all);
    if forall i :: 0 <= i < |ids| ==> Known(c, ids[i]) {
      assert Bound(c, ids, all);
    }
    if s :| Bound(c, ids, s) {
      forall i | 0 <= i < |ids| ensures Known(c, ids[i]) {
        var x := Canonicals(c, ids)[i];
        assert x in Elements(Canonicals(c, ids)) && x in s && Known(c, x);
        assert ids[i] in c.aliases ==> x in c.capabilities;
      }
    }
  }

  // ---------------------------------------------------------------- the worklist

  ghost function Direct(c: Catalog, id: string): seq<string>
    requires id in c.capabilities
  {
    Canonicals(c, c.capabilities[id].implies) + Canonicals(c, c.capabilities[id].requiresIds)
  }

  /** Every name a registered capability leads to. */
  ghost function Mentioned(c: Catalog): set<string> {
    set id, r | id in c.capabilities && r in Direct(c, id) :: r
  }

  lemma {:induction false} RelatedMentioned(c: Catalog, id: string)
    requires Known(c, id)
    ensures Elements(Related(c, id)) <= Mentioned(c)
  {
    assert Related(c, id) == Direct(c, Canonical(c, id));
  }

  lemma {:induction false} Popped(pending: seq<string>)
    requires pending != []
    ensures Elements(pending) == Elements(pending[..|pending| - 1]) + {pending[|pending| - 1]}
  {
    assert pending == pending[..|pending| - 1] + [pending[|pending| - 1]];
  }

  /** The unknown name the worklist comes upon first, taking names from the end. */
  ghost function FirstUnknown(c: Catalog, universe: set<string>, expanded: set<string>, pending: seq<string>): Option<string>
    requires Elements(pending) + Mentioned(c) <= universe
    decreases |universe - expanded|, |pending|
  {
    if pending == [] then None
    else
      var id, rest := pending[|pending| - 1], pending[..|pending| - 1];
      Popped(pending);
      if id in expanded then FirstUnknown(c, universe, expanded, rest)
      else if !Known(c, id) then Some(id)
      else
        RelatedMentioned(c, id);
        assert universe - expanded == (universe - (expanded + {id})) + {id};
        assert Elements(rest + Related(c, id)) == Elements(rest) + Elements(Related(c, id));
        FirstUnknown(c, universe, expanded + {id}, rest + Related(c, id))
  }

  /** The unknown name that makes expanding `ids` fail, if any. */
  ghost function UnknownReached(c: Catalog, ids: seq<string>): Option<string> {
    FirstUnknown(c, Elements(Canonicals(c, ids)) + Mentioned(c), {}, Canonicals(c, ids))
  }

  /** What the worklist keeps: the unexpanded part is all pending, and nothing superfluous is. */
  ghost predicate Frontier(c: Catalog, ids: seq<string>, universe: set<string>, expanded: set<string>, pending: seq<string>) {
    && expanded + Elements(pending) <= universe
    && Mentioned(c) <= universe
    && Elements(Canonicals(c, ids)) <= expanded + Elements(pending)
    && (forall id :: id in expanded ==> Known(c, id) && Elements(Related(c, id)) <= expanded + Elements(pending))
    && (forall s :: Bound(c, ids, s) ==> expanded + Elements(pending) <= s)
  }

  lemma {:induction false} SkipStep(c: Catalog, ids: seq<string>, universe: set<string>, expanded: set<string>, pending: seq<string>)
    requires Frontier(c, ids, universe, expanded, pending) && pending != [] && pending[|pending| - 1] in expanded
    ensures Frontier(c, ids, universe, expanded, pending[..|pending| - 1])
  {
    Popped(pending);
    assert expanded + Elements(pending) == expanded + Elements(pending[..|pending| - 1]);
  }

  lemma {:induction false} PendingMustBeKnown(c: Catalog, ids: seq<string>, universe: set<string>, expanded: set<string>, pending: seq<string>)
    requires Frontier(c, ids, universe, expanded, pending) && pending != []
    ensures Expandable(c, ids) ==> Known(c, pending[|pending| - 1])
  {
    Popped(pending);
    if s :| Bound(c, ids, s) {
      assert pending[|pending| - 1] in s;
    }
  }

  lemma {:induction false} FrontierStart(c: Catalog, ids: seq<string>)
    ensures Frontier(c, ids, Elements(Canonicals(c, ids)) + Mentioned(c), {}, Canonicals(c, ids))
  {
  }

  lemma {:induction false} FrontierEnd(c: Catalog, ids: seq<string>, universe: set<string>, expanded: set<string>)
    requires Frontier(c, ids, universe, expanded, [])
    ensures IsClosure(c, ids, expanded) && Expandable(c, ids)
  {
    assert expanded + Elements([]) == expanded;
    assert Bound(c, ids, expanded);
  }

  lemma {:induction false} ExpandStep(c: Catalog, ids: seq<string>, universe: set<string>, expanded: set<string>, pending: seq<string>)
    requires Frontier(c, ids, universe, expanded, pending) && pending != []
    requires pending[|pending| - 1] !in expanded && Known(c, pending[|pending| - 1])
    ensures var id := pending[|pending| - 1];
      && Frontier(c, ids, universe, expanded + {id}, pending[..|pending| - 1] + Related(c, id))
      && |universe - (expanded + {id})| < |universe - expanded|
  {
    var id, rest := pending[|pending| - 1], pending[..|pending| - 1];
    var more := Elements(Related(c, id));
    Popped(pending);
    RelatedMentioned(c, id);
    assert Elements(rest + Related(c, id)) == Elements(rest) + more;
    assert (expanded + {id}) + (Elements(rest) + more) == (expanded + Elements(pending)) + more;
    forall s | Bound(c, ids, s) ensures (expanded + Elements(pending)) + more <= s {
      assert id in s;
    }
    assert universe - expanded == (universe - (expanded + {id})) + {id};
  }

  class CapabilityGraph {
    var capabilities: map<string, Capability>
    var aliases: map<string, string>

    function Contents(): Catalog
      reads this
    {
      Catalog(capabilities, aliases)
    }

    constructor Empty()
      ensures Contents() == Catalog(map[], map[])
    {
      capabilities := map[];
      aliases := map[];
    }

    /**
     A rejected alias is reported after the capability itself and the aliases
     before the rejected one have been stored.
     */
    method Register(capability: Capability) returns (r: Result<(), CatalogError>)
      requires AliasesRegistered(Contents())
      modifies this
      ensures AliasesRegistered(Contents())
      ensures r == Failure(CapabilityRegistered(capability.capabilityId))
        <==> capability.capabilityId in old(capabilities)
      ensures r.Success? <==> FitsIn(old(Contents()), capability)
      ensures capability.capabilityId in old(capabilities) ==> Contents() == old(Contents())
      ensures capability.capabilityId !in old(capabilities) ==>
        capabilities == old(capabilities)[capability.capabilityId := capability]
      ensures r.Success? ==>
        aliases == WithAliases(old(aliases), capability.aliases, capability.capabilityId)
      ensures r.Failure? && r.error.AliasRegistered? ==>
        exists n | 0 <= n < |capability.aliases| ::
          aliases == WithAliases(old(aliases), capability.aliases[..n], capability.capabilityId)
          && r.error.alias == capability.aliases[n] && (r.error.alias in aliases || r.error.alias in capabilities)
      ensures r.Failure? ==> !r.error.UnknownCapability? && !r.error.UnknownReference?
    {
      var id := capability.capabilityId;
      if id in capabilities {
        return Failure(CapabilityRegistered(id));
      }
      capabilities := capabilities[id := capability];
      for i := 0 to |capability.aliases|
        invariant capabilities == old(capabilities)[id := capability]
        invariant aliases == WithAliases(old(aliases), capability.aliases[..i], id)
        invariant AliasesRegistered(Contents())
        invariant AliasesFree(old(aliases).Keys, capabilities.Keys, capability.aliases[..i])
      {
        var alias := capability.aliases[i];
        if alias in aliases || alias in capabilities {
          AliasClash(old(aliases), capabilities.Keys, capability.aliases, i, id);
          return Failure(AliasRegistered(alias));
        }
        assert capability.aliases[..i + 1][..i] == capability.aliases[..i];
        AliasesFreeMore(old(aliases), capabilities.Keys, capability.aliases, i, id);
        aliases := aliases[alias := id];
      }
      assert capability.aliases[..|capability.aliases|] == capability.aliases;
      r := Success(());
    }

    /** The references check; expanding every capability afterwards cannot raise. */
    method Validate() returns (r: Result<(), CatalogError>)
      requires AliasesRegistered(Contents())
      ensures r.Success? <==> ReferencesKnown(Contents())
      ensures r.Failure? ==> r.error.UnknownReference? && !Known(Contents(), r.error.related)
      ensures r.Failure? ==> r.error.owner in capabilities && r.error.related in References(r.error.owner)
    {
      var listing := ListOf(capabilities.Keys);
      for i := 0 to |listing|
        invariant forall j, related :: 0 <= j < i && related in References(listing[j]) ==> Known(Contents(), related)
      {
        assert listing[i] in Elements(listing);
        var related := References(listing[i]);
        for k := 0 to |related|
          invariant forall m :: 0 <= m < k ==> Known(Contents(), related[m])
        {
          if !Known(Contents(), related[k]) {
            return Failure(UnknownReference(listing[i], related[k]));
          }
        }
      }
      forall id | id in capabilities ensures forall related :: related in References(id) ==> Known(Contents(), related) {
        assert id in Elements(listing);
      }
      for i := 0 to |listing| {
        assert listing[i] in Elements(listing);
        assert Canonical(Contents(), listing[i]) in capabilities;
        ValidatedExpands(Contents(), [listing[i]]);
        var expansion := Expand([listing[i]]);
        assert expansion.Success?;
      }
      r := Success(());
    }

    function References(id: string): seq<string>
      reads this
      requires id in capabilities
    {
      capabilities[id].implies + capabilities[id].requiresIds
    }

    /** The worklist of `expand`, last in first out. */
    method Expand(ids: seq<string>) returns (r: Result<set<string>, CatalogError>)
      ensures r.Success? <==> Expandable(Contents(), ids)
      ensures r.Success? ==> IsClosure(Contents(), ids, r.value)
      ensures r.Failure? ==> r.error.UnknownCapability? && !Known(Contents(), r.error.id)
      ensures UnknownReached(Contents(), ids) == if r.Failure? then Some(r.error.id) else None
    {
      ghost var c := Contents();
      var expanded: set<string> := {};
      var pending := Canonicals(Contents(), ids);
      ghost var universe := Elements(pending) + Mentioned(c);
      FrontierStart(c, ids);
      while pending != []
        invariant Frontier(c, ids, universe, expanded, pending)
        invariant FirstUnknown(c, universe, expanded, pending) == UnknownReached(c, ids)
        decreases |universe - expanded|, |pending|
      {
        var id := pending[|pending| - 1];
        if id in expanded {
          SkipStep(c, ids, universe, expanded, pending);
          pending := pending[..|pending| - 1];
          continue;
        }
        if !Known(Contents(), id) {
          PendingMustBeKnown(c, ids, universe, expanded, pending);
          return Failure(UnknownCapability(id));
        }
        ExpandStep(c, ids, universe, expanded, pending);
        pending := pending[..|pending| - 1] + Related(Contents(), id);
        expanded := expanded + {id};
      }
      FrontierEnd(c, ids, universe, expanded);
      r := Success(expanded);
    }
  }

  /** The constructor: registers the listed capabilities in order, then validates. */
  method Load(listed: seq<Capability>) returns (r: Result<CapabilityGraph, CatalogError>)
    ensures r.Success? <==> Loadable(listed)
    ensures r.Success? ==> fresh(r.value) && AliasesRegistered(r.value.Contents()) && r.value.Contents() == Assembled(listed)
    ensures r.Success? ==> forall i :: 0 <= i < |listed| ==>
      listed[i].capabilityId in r.value.capabilities && r.value.capabilities[listed[i].capabilityId] == listed[i]
  {
    var graph := new CapabilityGraph.Empty();
    for i := 0 to |listed|
      invariant fresh(graph) && AliasesRegistered(graph.Contents()) && graph.Contents() == Assembled(listed[..i])
      invariant AllNew(listed, i)
    {
      FitsIfNew(listed[..i], listed[i]);
      assert listed[..i + 1][..i] == listed[..i];
      var registered := graph.Register(listed[i]);
      if registered.Failure? {
        assert !NewAt(listed, i);
        return Failure(registered.error);
      }
    }
    assert listed[..|listed|] == listed;
    AssembledKeeps(listed, |listed|);
    var checked := graph.Validate();
    if checked.Failure? {
      return Failure(checked.error);
    }
    r := Success(graph);
  }
}
