/** `list.sort(key=...)`: a stable sort under a strict order on keys. */
module Sorting {

  /** Puts `x` after everything it does not strictly precede. */
  function Place<T>(x: T, s: seq<T>, before: (T, T) -> bool): seq<T> {
    if s == [] then [x]
    else if before(x, s[0]) then [x] + s
    else [s[0]] + Place(x, s[1..], before)
  }

  function StableSort<T>(s: seq<T>, before: (T, T) -> bool): seq<T> {
    if s == [] then [] else Place(s[|s| - 1], StableSort(s[..|s| - 1], before), before)
  }

  ghost predicate StrictWeakOrder<T(!new)>(before: (T, T) -> bool) {
    && (forall x :: !before(x, x))
    && (forall x, y, z :: before(x, y) && before(y, z) ==> before(x, z))
    && (forall x, y, z :: before(x, z) ==> before(x, y) || before(y, z))
  }

  ghost predicate SortedBy<T>(s: seq<T>, before: (T, T) -> bool) {
    forall i, j :: 0 <= i < j < |s| ==> !before(s[j], s[i])
  }

  lemma {:induction false} PlaceContents<T>(x: T, s: seq<T>, before: (T, T) -> bool)
    ensures multiset(Place(x, s, before)) == multiset(s) + multiset{x}
  {
    if s != [] {
      assert s == [s[0]] + s[1..];
      PlaceContents(x, s[1..], before);
    }
  }

  lemma {:induction false} PlaceSorted<T(!new)>(x: T, s: seq<T>, before: (T, T) -> bool)
    requires StrictWeakOrder(before) && SortedBy(s, before)
    ensures SortedBy(Place(x, s, before), before)
  {
    if s != [] && !before(x, s[0]) {
      PlaceSorted(x, s[1..], before);
      PlaceContents(x, s[1..], before);
      var r := Place(x, s[1..], before);
      forall j | 0 <= j < |r| ensures !before(r[j], s[0]) {
        assert r[j] in multiset(r);
        assert r[j] == x || r[j] in s[1..];
      }
    }
  }

  lemma {:induction false} StableSortSorts<T(!new)>(s: seq<T>, before: (T, T) -> bool)
    requires StrictWeakOrder(before)
    ensures SortedBy(StableSort(s, before), before)
    ensures multiset(StableSort(s, before)) == multiset(s)
  {
    if s != [] {
      var init, last := s[..|s| - 1], s[|s| - 1];
      assert s == init + [last];
      StableSortSorts(init, before);
      PlaceSorted(last, StableSort(init, before), before);
      PlaceContents(last, StableSort(init, before), before);
    }
  }

  predicate Tied<T>(x: T, y: T, before: (T, T) -> bool) {
    !before(x, y) && !before(y, x)
  }

  /** The elements that come neither strictly before nor strictly after `x`, in their order. */
  function Ties<T>(s: seq<T>, x: T, before: (T, T) -> bool): seq<T> {
    if s == [] then [] else (if Tied(x, s[0], before) then [s[0]] else []) + Ties(s[1..], x, before)
  }

  lemma {:induction false} NoTies<T>(s: seq<T>, x: T, before: (T, T) -> bool)
    requires forall y :: y in s ==> before(x, y)
    ensures Ties(s, x, before) == []
  {
    if s != [] {
      assert s[0] in s;
      NoTies(s[1..], x, before);
    }
  }

  lemma {:induction false} TiesHead<T>(y: T, s: seq<T>, x: T, before: (T, T) -> bool)
    ensures Ties([y] + s, x, before) == (if Tied(x, y, before) then [y] else []) + Ties(s, x, before)
  {
    assert ([y] + s)[1..] == s;
  }

  lemma {:induction false} TiesMore<T>(s: seq<T>, y: T, x: T, before: (T, T) -> bool)
    ensures Ties(s + [y], x, before) == Ties(s, x, before) + if Tied(x, y, before) then [y] else []
  {
    if s == [] {
      assert [y][1..] == [] && s + [y] == [y];
    } else {
      assert s + [y] == [s[0]] + (s[1..] + [y]);
      TiesHead(s[0], s[1..] + [y], x, before);
      TiesMore(s[1..], y, x, before);
    }
  }

  /** Nothing in `s` from an element on that `y` precedes is tied with `x`. */
  ghost predicate ClearFrom<T>(y: T, s: seq<T>, x: T, before: (T, T) -> bool) {
    forall i, j :: 0 <= i <= j < |s| && before(y, s[i]) ==> before(x, s[j])
  }

  lemma {:induction false} Between<T(!new)>(x: T, y: T, z: T, before: (T, T) -> bool)
    requires StrictWeakOrder(before) && before(x, z)
    ensures before(x, y) || before(y, z)
  {
  }

  lemma {:induction false} TiedIsClear<T(!new)>(y: T, s: seq<T>, x: T, before: (T, T) -> bool)
    requires StrictWeakOrder(before) && SortedBy(s, before) && Tied(x, y, before)
    ensures ClearFrom(y, s, x, before)
  {
    forall i, j | 0 <= i <= j < |s| && before(y, s[i]) ensures before(x, s[j]) {
      Between(y, s[j], s[i], before);
      Between(y, x, s[j], before);
    }
  }

  lemma {:induction false} PlaceClear<T>(y: T, s: seq<T>, x: T, before: (T, T) -> bool)
    requires Tied(x, y, before) ==> ClearFrom(y, s, x, before)
    ensures Ties(Place(y, s, before), x, before) == Ties(s, x, before) + if Tied(x, y, before) then [y] else []
  {
    if s == [] {
    } else if before(y, s[0]) {
      TiesHead(y, s, x, before);
      if Tied(x, y, before) { NoTies(s, x, before); }
    } else {
      TiesHead(s[0], Place(y, s[1..], before), x, before);
      PlaceClear(y, s[1..], x, before);
    }
  }

  lemma {:induction false} PlaceTies<T(!new)>(y: T, s: seq<T>, x: T, before: (T, T) -> bool)
    requires StrictWeakOrder(before) && SortedBy(s, before)
    ensures Ties(Place(y, s, before), x, before) == Ties(s, x, before) + if Tied(x, y, before) then [y] else []
  {
    if Tied(x, y, before) { TiedIsClear(y, s, x, before); }
    PlaceClear(y, s, x, before);
  }

  /** Ties keep their order. */
  lemma {:induction false} StableSortIsStable<T(!new)>(s: seq<T>, x: T, before: (T, T) -> bool)
    requires StrictWeakOrder(before)
    ensures Ties(StableSort(s, before), x, before) == Ties(s, x, before)
  {
    if s != [] {
      var init, last := s[..|s| - 1], s[|s| - 1];
      assert s == init + [last];
      StableSortSorts(init, before);
      StableSortIsStable(init, x, before);
      PlaceTies(last, StableSort(init, before), x, before);
      TiesMore(init, last, x, before);
    }
  }

  /** The head of a sorted list: nothing of the list comes strictly before it. */
  lemma {:induction false} FirstIsBest<T(!new)>(s: seq<T>, before: (T, T) -> bool)
    requires StrictWeakOrder(before) && s != []
    ensures var r := StableSort(s, before); r != [] && r[0] in s && forall x :: x in s ==> !before(x, r[0])
  {
    StableSortSorts(s, before);
    var r := StableSort(s, before);
    assert |multiset(r)| == |r| && |multiset(s)| == |s|;
    assert r[0] in multiset(s);
    forall x | x in s ensures !before(x, r[0]) {
      assert x in multiset(r);
      var i :| 0 <= i < |r| && r[i] == x;
    }
  }
}
