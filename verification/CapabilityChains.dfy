/** What an expansion holds: the names reached along chains of implied and required capabilities. */
module CapabilityChains {
  import opened Wrappers
  import opened Ordering
  import opened CapabilityGraph

  /** The registered name that an alias stands for. */
  function Resolved(c: Catalog, name: string): string {
    if name in c.aliases then c.aliases[name] else name
  }

  /** The capability that `a` names implies or requires `n`. */
  predicate Names(c: Catalog, a: string, n: string) {
    && Resolved(c, a) in c.capabilities
    && (n in c.capabilities[Resolved(c, a)].implies || n in c.capabilities[Resolved(c, a)].requiresIds)
  }

  ghost predicate Leads(c: Catalog, a: string, b: string) {
    exists n :: Names(c, a, n) && b == Resolved(c, n)
  }

  ghost predicate IsChain(c: Catalog, chain: seq<string>) {
    chain != [] && forall k {:trigger chain[k]} :: 0 < k < |chain| ==> Leads(c, chain[k - 1], chain[k])
  }

  predicate IsRequested(c: Catalog, ids: seq<string>, x: string) {
    exists i :: 0 <= i < |ids| && x == Resolved(c, ids[i])
  }

  /** A chain from one of the requested names ends in `x`. */
  ghost predicate IsReached(c: Catalog, ids: seq<string>, x: string) {
    exists chain {:trigger IsChain(c, chain)} :: IsChain(c, chain) && IsRequested(c, ids, chain[0]) && chain[|chain| - 1] == x
  }

  lemma {:induction false} RelatedAreNamed(c: Catalog, a: string, b: string)
    requires Known(c, a)
    ensures b in Related(c, a) <==> Leads(c, a, b)
  {
    var capability := c.capabilities[Canonical(c, a)];
    var implied, required := Canonicals(c, capability.implies), Canonicals(c, capability.requiresIds);
    if b in Related(c, a) {
      if b in implied {
        var i :| 0 <= i < |implied| && implied[i] == b;
        assert Names(c, a, capability.implies[i]);
      } else {
        var i :| 0 <= i < |required| && required[i] == b;
        assert Names(c, a, capability.requiresIds[i]);
      }
    }
    if Leads(c, a, b) {
      var n :| Names(c, a, n) && b == Resolved(c, n);
      if n in capability.implies {
        var i :| 0 <= i < |capability.implies| && capability.implies[i] == n;
        assert implied[i] == b;
      } else {
        var i :| 0 <= i < |capability.requiresIds| && capability.requiresIds[i] == n;
        assert required[i] == b;
      }
    }
  }

  lemma {:induction false} RequestedAre(c: Catalog, ids: seq<string>, x: string)
    ensures x in Canonicals(c, ids) <==> IsRequested(c, ids, x)
  {
    var names := Canonicals(c, ids);
    if x in names {
      var i :| 0 <= i < |names| && names[i] == x;
      assert x == Resolved(c, ids[i]);
    }
    if i :| 0 <= i < |ids| && x == Resolved(c, ids[i]) { assert names[i] == x; }
  }

  lemma {:induction false} ChainStaysIn(c: Catalog, ids: seq<string>, t: set<string>, chain: seq<string>)
    requires Bound(c, ids, t) && IsChain(c, chain) && IsRequested(c, ids, chain[0])
    ensures chain[|chain| - 1] in t
  {
    if |chain| == 1 {
      RequestedAre(c, ids, chain[0]);
      assert chain[0] in Elements(Canonicals(c, ids));
    } else {
      var init := chain[..|chain| - 1];
      forall k | 0 < k < |init| ensures Leads(c, init[k - 1], init[k]) { assert init[k] == chain[k]; }
      ChainStaysIn(c, ids, t, init);
      var a, b := init[|init| - 1], chain[|chain| - 1];
      RelatedAreNamed(c, a, b);
      assert b in Elements(Related(c, a));
    }
  }

  lemma {:induction false} OneStepFurther(c: Catalog, ids: seq<string>, a: string, b: string)
    requires IsReached(c, ids, a) && Leads(c, a, b)
    ensures IsReached(c, ids, b)
  {
    var chain :| IsChain(c, chain) && IsRequested(c, ids, chain[0]) && chain[|chain| - 1] == a;
    var more := chain + [b];
    forall k | 0 < k < |more| ensures Leads(c, more[k - 1], more[k]) {
      if k < |chain| { assert more[k] == chain[k]; }
    }
    assert IsChain(c, more) && more[|more| - 1] == b;
  }

  /** A set with all the reached names of a universe that holds what is related is closed, if these are known. */
  lemma {:induction false} ReachedIsClosed(c: Catalog, ids: seq<string>, universe: set<string>, reached: set<string>)
    requires forall x {:trigger x in reached} :: x in reached <==> x in universe && IsReached(c, ids, x)
    requires forall x :: x in reached ==> Known(c, x) && Elements(Related(c, x)) <= universe
    requires Elements(Canonicals(c, ids)) <= universe
    ensures Bound(c, ids, reached)
  {
    forall x | x in Elements(Canonicals(c, ids)) ensures x in reached {
      RequestedAre(c, ids, x);
      assert IsChain(c, [x]);
    }
    forall x, y | x in reached && y in Elements(Related(c, x)) ensures y in reached {
      RelatedAreNamed(c, x, y);
      OneStepFurther(c, ids, x, y);
    }
  }

  /** The closure of a request is what chains reach from it. */
  lemma {:induction false} ClosureIsReached(c: Catalog, ids: seq<string>, x: string)
    requires Expandable(c, ids)
    ensures x in Closure(c, ids) <==> IsReached(c, ids, x)
  {
    var t := Closure(c, ids);
    if IsReached(c, ids, x) {
      var chain :| IsChain(c, chain) && IsRequested(c, ids, chain[0]) && chain[|chain| - 1] == x;
      ChainStaysIn(c, ids, t, chain);
    }
    var reached := set y | y in t && IsReached(c, ids, y);
    ReachedIsClosed(c, ids, t, reached);
  }

  /** A request can be expanded exactly if everything reached from it is registered, by its name or as an alias. */
  lemma {:induction false} ExpandableIfReachedIsKnown(c: Catalog, ids: seq<string>)
    ensures Expandable(c, ids) <==> forall x :: IsReached(c, ids, x) ==> Resolved(c, x) in c.capabilities
  {
    if t :| Bound(c, ids, t) {
      forall x | IsReached(c, ids, x) ensures Known(c, x) {
        var chain :| IsChain(c, chain) && IsRequested(c, ids, chain[0]) && chain[|chain| - 1] == x;
        ChainStaysIn(c, ids, t, chain);
      }
    }
    if forall x :: IsReached(c, ids, x) ==> Resolved(c, x) in c.capabilities {
      var universe := Elements(Canonicals(c, ids)) + Mentioned(c);
      var reached := set y | y in universe && IsReached(c, ids, y);
      forall y | y in reached ensures Known(c, y) && Elements(Related(c, y)) <= universe { RelatedMentioned(c, y); }
      ReachedIsClosed(c, ids, universe, reached);
    }
  }

  // ---------------------------------------------------------------- expanding an expansion

  /** Expanding what a single name expands to gives it back. */
  ghost predicate Returns(c: Catalog, id: string) {
    forall s {:trigger IsClosure(c, [id], s)} :: IsClosure(c, [id], s) ==> IsClosure(c, Sorted(s), s)
  }

  /** Every registered name and alias returns. */
  ghost predicate NamesReturn(c: Catalog) {
    forall id {:trigger Returns(c, id)} :: id in c.capabilities || id in c.aliases ==> Returns(c, id)
  }

  /** Whatever a request reaches, one of its names does. */
  lemma {:induction false} ReachedFromOne(c: Catalog, ids: seq<string>, s: set<string>, x: string) returns (id: string, own: set<string>)
    requires IsClosure(c, ids, s) && x in s
    ensures (id in c.capabilities || id in c.aliases) && IsClosure(c, [id], own) && x in own && own <= s
  {
    ClosureUnique(c, ids, s, Closure(c, ids));
    ClosureIsReached(c, ids, x);
    var chain :| IsChain(c, chain) && IsRequested(c, ids, chain[0]) && chain[|chain| - 1] == x;
    var i :| 0 <= i < |ids| && chain[0] == Resolved(c, ids[i]);
    id := ids[i];
    RequestedAre(c, ids, chain[0]);
    BoundOne(c, id, s);
    own := Closure(c, [id]);
    assert [id][0] == id && IsRequested(c, [id], chain[0]);
    ClosureIsReached(c, [id], x);
  }

  lemma {:induction false} LargerRequest(c: Catalog, some: set<string>, listing: seq<string>, t: set<string>)
    requires some <= Elements(listing) && Bound(c, listing, t)
    ensures Bound(c, Sorted(some), t)
  {
    CanonicalsOf(c, listing, t);
    CanonicalsOf(c, Sorted(some), t);
  }

  /** Expansion is idempotent on every request if and only if it is on every single name. */
  lemma {:induction false} IdempotentIfNamesReturn(c: Catalog)
    ensures Idempotent(c) <==> NamesReturn(c)
  {
    if NamesReturn(c) {
      forall ids, s, listing | IsClosure(c, ids, s) && Elements(listing) == s ensures IsClosure(c, listing, s) {
        forall x | x in s ensures Canonical(c, x) in s {
          var id, own := ReachedFromOne(c, ids, s, x);
          assert Returns(c, id);
          CanonicalsOf(c, Sorted(own), own);
        }
        CanonicalsOf(c, listing, s);
        forall t, x | Bound(c, listing, t) && x in s ensures x in t {
          var id, own := ReachedFromOne(c, ids, s, x);
          assert Returns(c, id);
          LargerRequest(c, own, listing, t);
        }
      }
    }
  }

  // ---------------------------------------------------------------- which unknown name is reported

  predicate Within(pending: seq<string>, mentioned: set<string>, universe: set<string>) {
    Elements(pending) + mentioned <= universe
  }

  lemma {:induction false} WithinConcat(a: seq<string>, b: seq<string>, mentioned: set<string>, universe: set<string>)
    ensures Within(a + b, mentioned, universe) <==> Within(a, mentioned, universe) && Within(b, mentioned, universe)
  {
    forall x ensures x in a + b <==> x in a || x in b {}
    assert Elements(a + b) == Elements(a) + Elements(b);
  }

  lemma {:induction false} SkipsExpanded(c: Catalog, universe: set<string>, expanded: set<string>, init: seq<string>, id: string)
    requires id in expanded && Within(init + [id], Mentioned(c), universe) && Within(init, Mentioned(c), universe)
    ensures FirstUnknown(c, universe, expanded, init + [id]) == FirstUnknown(c, universe, expanded, init)
  {
    assert (init + [id])[..|init|] == init;
  }

  lemma {:induction false} ExpandsKnown(c: Catalog, universe: set<string>, expanded: set<string>, init: seq<string>, id: string)
    requires id !in expanded && Known(c, id) && Within(init + [id], Mentioned(c), universe)
    requires Within(init + Related(c, id), Mentioned(c), universe)
    ensures FirstUnknown(c, universe, expanded, init + [id]) == FirstUnknown(c, universe, expanded + {id}, init + Related(c, id))
    ensures |universe - (expanded + {id})| < |universe - expanded|
  {
    assert (init + [id])[..|init|] == init;
    assert id in init + [id] && id in Elements(init + [id]);
    assert universe - expanded == (universe - (expanded + {id})) + {id};
  }

  lemma {:induction false} RegisteredLeadToRegistered(c: Catalog, id: string)
    requires ReferencesKnown(c) && AliasesRegistered(c) && id in c.capabilities
    ensures Known(c, id) && Elements(Related(c, id)) <= c.capabilities.Keys
  {
    assert Resolved(c, id) in c.capabilities;
    forall b | b in Elements(Related(c, id)) ensures b in c.capabilities {
      RelatedAreNamed(c, id, b);
      var n :| Names(c, id, n) && b == Resolved(c, n);
      var capability := c.capabilities[Resolved(c, id)];
      assert n in capability.implies + capability.requiresIds;
    }
  }

  /** Names that lead to known ones only are worked off without an error, and the others stay pending. */
  lemma {:induction false} KnownAreWorkedOff(c: Catalog, universe: set<string>, expanded: set<string>,
    pending: seq<string>, known: seq<string>)
    returns (after: set<string>)
    requires ReferencesKnown(c) && AliasesRegistered(c)
    requires Within(pending, Mentioned(c), universe) && Within(known, Mentioned(c), universe)
    requires Within(pending + known, Mentioned(c), universe)
    requires expanded + Elements(known) <= c.capabilities.Keys
    ensures after <= c.capabilities.Keys
    ensures FirstUnknown(c, universe, expanded, pending + known) == FirstUnknown(c, universe, after, pending)
    decreases |universe - expanded|, |known|
  {
    if known == [] {
      assert pending + known == pending;
      after := expanded;
    } else {
      var id, rest := known[|known| - 1], known[..|known| - 1];
      assert known == rest + [id] && pending + known == (pending + rest) + [id] && id in Elements(known);
      WithinConcat(rest, [id], Mentioned(c), universe);
      WithinConcat(pending, rest, Mentioned(c), universe);
      assert Elements(rest) <= Elements(known);
      if id in expanded {
        SkipsExpanded(c, universe, expanded, pending + rest, id);
        after := KnownAreWorkedOff(c, universe, expanded, pending, rest);
      } else {
        after := KnownIsExpanded(c, universe, expanded, pending, rest, id);
      }
    }
  }

  lemma {:induction false} KnownIsExpanded(c: Catalog, universe: set<string>, expanded: set<string>,
    pending: seq<string>, rest: seq<string>, id: string)
    returns (after: set<string>)
    requires ReferencesKnown(c) && AliasesRegistered(c) && id !in expanded
    requires Within(pending, Mentioned(c), universe) && Within(rest, Mentioned(c), universe)
    requires Within((pending + rest) + [id], Mentioned(c), universe)
    requires expanded + Elements(rest) + {id} <= c.capabilities.Keys
    ensures after <= c.capabilities.Keys
    ensures FirstUnknown(c, universe, expanded, (pending + rest) + [id]) == FirstUnknown(c, universe, after, pending)
    decreases |universe - expanded|, 0
  {
    RegisteredLeadToRegistered(c, id);
    RelatedMentioned(c, id);
    var more := Related(c, id);
    assert Within(more, Mentioned(c), universe);
    WithinConcat(rest, more, Mentioned(c), universe);
    WithinConcat(pending, rest + more, Mentioned(c), universe);
    assert (pending + rest) + more == pending + (rest + more);
    ExpandsKnown(c, universe, expanded, pending + rest, id);
    assert Elements(rest + more) == Elements(rest) + Elements(more);
    after := KnownAreWorkedOff(c, universe, expanded + {id}, pending, rest + more);
  }

  lemma {:induction false} ReportsUnknown(c: Catalog, universe: set<string>, expanded: set<string>, init: seq<string>, id: string)
    requires Within(init + [id], Mentioned(c), universe) && id !in expanded && !Known(c, id)
    ensures FirstUnknown(c, universe, expanded, init + [id]) == Some(id)
  {
  }

  /** Of the unknown names of a request to a validated catalog the last is reported. */
  lemma {:induction false} LastUnknownIsReported(c: Catalog, ids: seq<string>, k: nat)
    requires AliasesRegistered(c) && ReferencesKnown(c)
    requires k < |ids| && !Known(c, ids[k]) && forall i :: k < i < |ids| ==> Known(c, ids[i])
    ensures UnknownReached(c, ids) == Some(ids[k])
  {
    var names := Canonicals(c, ids);
    var universe := Elements(names) + Mentioned(c);
    var before, known := names[..k] + [ids[k]], names[k + 1..];
    assert names == before + known;
    forall x | x in Elements(known) ensures x in c.capabilities {
      var i :| 0 <= i < |known| && known[i] == x;
      assert x == names[k + 1 + i] == Canonical(c, ids[k + 1 + i]);
    }
    WithinConcat(before, known, Mentioned(c), universe);
    var after := KnownAreWorkedOff(c, universe, {}, before, known);
    ReportsUnknown(c, universe, after, names[..k], ids[k]);
  }

  /** Registration makes every alias of the capability stand for its id, and leaves the others. */
  lemma {:induction false} RegisteredAliases(aliases: map<string, string>, added: seq<string>, id: string, name: string)
    ensures name in added ==> name in WithAliases(aliases, added, id) && WithAliases(aliases, added, id)[name] == id
    ensures name !in added ==> (name in WithAliases(aliases, added, id) <==> name in aliases)
    ensures name !in added && name in aliases ==> WithAliases(aliases, added, id)[name] == aliases[name]
  {
    if added != [] {
      assert added == added[..|added| - 1] + [added[|added| - 1]];
      RegisteredAliases(aliases, added[..|added| - 1], id, name);
      WithAliasesKeys(aliases, added, id);
      assert name in Elements(added) <==> name in added;
    } else {
      assert WithAliases(aliases, added, id) == aliases;
    }
  }
}
