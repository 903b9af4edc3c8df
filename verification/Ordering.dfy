/**
 The order Python puts on strings, and `sorted` applied to the distinct keys of
 a dictionary or to a set.
 */
module Ordering {

  /** Python's `<` on strings: by code point, a proper prefix first. */
  predicate Less(a: string, b: string) {
    b != "" && (a == "" || a[0] < b[0] || (a[0] == b[0] && Less(a[1..], b[1..])))
  }

  lemma {:induction false} LessIrreflexive(a: string)
    ensures !Less(a, a)
  {
    if a != "" { LessIrreflexive(a[1..]); }
  }

  lemma {:induction false} LessTransitive(a: string, b: string, c: string)
    requires Less(a, b) && Less(b, c)
    ensures Less(a, c)
  {
    if a != "" && a[0] == b[0] == c[0] {
      LessTransitive(a[1..], b[1..], c[1..]);
    }
  }

  lemma {:induction false} LessTotal(a: string, b: string)
    ensures Less(a, b) || a == b || Less(b, a)
  {
    if a != "" && b != "" && a[0] == b[0] {
      LessTotal(a[1..], b[1..]);
      assert a == [a[0]] + a[1..] && b == [b[0]] + b[1..];
    }
  }

  lemma {:induction false} LessAsymmetric(a: string, b: string)
    ensures !(Less(a, b) && Less(b, a))
  {
    if Less(a, b) && Less(b, a) {
      LessTransitive(a, b, a);
      LessIrreflexive(a);
    }
  }

  /** The strings agree up to `n`, where the first ends or has the smaller character. */
  ghost predicate DiffersAt(a: string, b: string, n: nat) {
    && n <= |a| && n < |b| && a[..n] == b[..n]
    && (n < |a| ==> a[n] < b[n])
  }

  lemma {:induction false} AgreeAtHead(a: string, b: string, n: nat)
    ensures DiffersAt(a, b, n) ==> n == 0 || (a != "" && b != "" && a[0] == b[0])
  {
    if DiffersAt(a, b, n) && n > 0 { assert a[..n][0] == a[0] && b[..n][0] == b[0]; }
  }

  /** The first difference decides; without one the shorter string comes first. */
  lemma {:induction false} LessIsLexicographic(a: string, b: string)
    ensures Less(a, b) <==> exists n: nat :: DiffersAt(a, b, n)
  {
    if a != "" && b != "" && a[0] == b[0] {
      LessIsLexicographic(a[1..], b[1..]);
      if Less(a[1..], b[1..]) {
        var n: nat :| DiffersAt(a[1..], b[1..], n);
        assert a[..n + 1] == [a[0]] + a[1..][..n] && b[..n + 1] == [b[0]] + b[1..][..n];
        assert DiffersAt(a, b, n + 1);
      }
      forall n: nat | DiffersAt(a, b, n) ensures Less(a[1..], b[1..]) {
        assert a[1..][..n - 1] == a[..n][1..] && b[1..][..n - 1] == b[..n][1..];
        assert DiffersAt(a[1..], b[1..], n - 1);
      }
    } else {
      if Less(a, b) { assert DiffersAt(a, b, 0); }
      forall n: nat { AgreeAtHead(a, b, n); }
    }
  }

  predicate StrictlySorted(s: seq<string>) {
    forall i, j :: 0 <= i < j < |s| ==> Less(s[i], s[j])
  }

  function Elements<T>(s: seq<T>): set<T> {
    set x | x in s
  }

  predicate NoDuplicates<T(==)>(s: seq<T>) {
    forall i, j :: 0 <= i < j < |s| ==> s[i] != s[j]
  }

  lemma {:induction false} ElementsCount<T>(s: seq<T>)
    ensures |Elements(s)| <= |s|
    ensures NoDuplicates(s) <==> |Elements(s)| == |s|
  {
    if s != [] {
      var init, last := s[..|s| - 1], s[|s| - 1];
      ElementsCount(init);
      assert s == init + [last];
      assert Elements(s) == Elements(init) + {last};
      if last in init {
        assert Elements(s) == Elements(init);
        assert !NoDuplicates(s);
      } else if NoDuplicates(init) {
        assert NoDuplicates(s);
      } else {
        assert !NoDuplicates(s);
      }
    }
  }

  lemma {:induction false} Appended<T>(s: seq<T>, x: T)
    ensures Elements(s + [x]) == Elements(s) + {x}
    ensures x in s <==> x in Elements(s)
  {
  }

  lemma {:induction false} NoDuplicatesConcat<T>(a: seq<T>, b: seq<T>)
    requires NoDuplicates(a) && NoDuplicates(b) && Elements(a) !! Elements(b)
    ensures NoDuplicates(a + b) && Elements(a + b) == Elements(a) + Elements(b)
  {
    forall i, j | 0 <= i < j < |a + b| ensures (a + b)[i] != (a + b)[j] {
      if i < |a| <= j {
        assert a[i] in Elements(a) && b[j - |a|] in Elements(b);
      }
    }
  }

  lemma {:induction false} NoDuplicatesCounts<T>(s: seq<T>)
    ensures NoDuplicates(s) <==> forall x :: multiset(s)[x] <= 1
  {
    if s != [] {
      var init, last := s[..|s| - 1], s[|s| - 1];
      assert s == init + [last];
      NoDuplicatesCounts(init);
      assert multiset(s) == multiset(init) + multiset{last};
      if last in init {
        assert multiset(s)[last] >= 2;
        assert !NoDuplicates(s);
      } else if !NoDuplicates(init) {
        var x :| multiset(init)[x] > 1;
        assert multiset(s)[x] > 1;
      }
    }
  }

  ghost predicate IsLeast(m: string, s: set<string>) {
    m in s && forall x :: x in s ==> x == m || Less(m, x)
  }

  lemma {:induction false} LeastExists(s: set<string>)
    requires s != {}
    ensures exists m :: IsLeast(m, s)
    decreases |s|
  {
    var x :| x in s;
    if s == {x} {
      assert IsLeast(x, s);
    } else {
      var rest := s - {x};
      LeastExists(rest);
      var m :| IsLeast(m, rest);
      LessTotal(x, m);
      if Less(x, m) {
        forall y | y in s && y != x ensures Less(x, y) {
          if y != m { LessTransitive(x, m, y); }
        }
        assert IsLeast(x, s);
      } else {
        assert IsLeast(m, s);
      }
    }
  }

  lemma {:induction false} LeastUnique(m: string, n: string, s: set<string>)
    requires IsLeast(m, s) && IsLeast(n, s)
    ensures m == n
  {
    if m != n {
      LessTransitive(m, n, m);
      LessIrreflexive(m);
    }
  }

  lemma {:induction false} SortedHasNoDuplicates(s: seq<string>)
    requires StrictlySorted(s)
    ensures NoDuplicates(s)
  {
    forall i, j | 0 <= i < j < |s| ensures s[i] != s[j] { LessIrreflexive(s[i]); }
  }

  /** Inserts into a sorted listing; the step of `SortList`. */
  function Insert(x: string, s: seq<string>): (r: seq<string>) {
    if s == [] then [x]
    else if Less(s[0], x) then [s[0]] + Insert(x, s[1..])
    else [x] + s
  }

  lemma {:induction false} InsertElements(x: string, s: seq<string>)
    ensures Elements(Insert(x, s)) == {x} + Elements(s)
  {
    if s != [] {
      InsertElements(x, s[1..]);
      assert s == [s[0]] + s[1..];
      assert Elements(s) == {s[0]} + Elements(s[1..]);
      if Less(s[0], x) {
        assert Elements([s[0]] + Insert(x, s[1..])) == {s[0]} + Elements(Insert(x, s[1..]));
      } else {
        assert Elements([x] + s) == {x} + Elements(s);
      }
    }
  }

  lemma {:induction false} InsertSorted(x: string, s: seq<string>)
    requires StrictlySorted(s) && x !in s
    ensures StrictlySorted(Insert(x, s))
  {
    if s != [] {
      LessTotal(s[0], x);
      if Less(s[0], x) {
        InsertSorted(x, s[1..]);
        InsertElements(x, s[1..]);
        var r := Insert(x, s[1..]);
        forall j | 0 <= j < |r| ensures Less(s[0], r[j]) {
          assert r[j] in Elements(r);
        }
      } else {
        forall j | 0 < j < |s| ensures Less(x, s[j]) { LessTransitive(x, s[0], s[j]); }
      }
    }
  }

  lemma {:induction false} SortedExists(s: set<string>)
    ensures exists r :: StrictlySorted(r) && Elements(r) == s
    decreases |s|
  {
    if s == {} {
      assert StrictlySorted([]) && Elements<string>([]) == s;
    } else {
      var x :| x in s;
      SortedExists(s - {x});
      var r :| StrictlySorted(r) && Elements(r) == s - {x};
      assert x !in r by { assert x !in Elements(r); }
      InsertSorted(x, r);
      InsertElements(x, r);
      assert Elements(Insert(x, r)) == s;
    }
  }

  /** `sorted` of a set of strings. */
  ghost function Sorted(s: set<string>): (r: seq<string>)
    ensures StrictlySorted(r) && Elements(r) == s
  {
    SortedExists(s);
    var r :| StrictlySorted(r) && Elements(r) == s;
    r
  }

  lemma {:induction false} ElementsEmpty<T>(s: seq<T>)
    ensures Elements(s) == {} <==> s == []
  {
    if s != [] { assert s[0] in Elements(s); }
  }

  /** A set has one sorted listing only. */
  lemma {:induction false} SortedUnique(a: seq<string>, b: seq<string>)
    requires StrictlySorted(a) && StrictlySorted(b)
    requires Elements(a) == Elements(b)
    ensures a == b
  {
    if a == [] || b == [] {
      ElementsEmpty(a);
      ElementsEmpty(b);
    } else {
      assert IsLeast(a[0], Elements(a));
      assert IsLeast(b[0], Elements(b));
      LeastUnique(a[0], b[0], Elements(a));
      SortedHasNoDuplicates(a);
      SortedHasNoDuplicates(b);
      assert Elements(a[1..]) == Elements(a) - {a[0]};
      assert Elements(b[1..]) == Elements(b) - {b[0]};
      SortedUnique(a[1..], b[1..]);
      assert a == [a[0]] + a[1..] && b == [b[0]] + b[1..];
    }
  }

  /** `sorted` of a list of strings. */
  function SortList(s: seq<string>): seq<string> {
    if s == [] then [] else Insert(s[|s| - 1], SortList(s[..|s| - 1]))
  }

  /** On a list without duplicates `sorted` lists the set of its elements in order. */
  lemma {:induction false} SortListIsSorted(s: seq<string>)
    requires NoDuplicates(s)
    ensures SortList(s) == Sorted(Elements(s))
  {
    if s != [] {
      var init, last := s[..|s| - 1], s[|s| - 1];
      SortListIsSorted(init);
      assert Elements(s) == Elements(init) + {last};
      assert last !in SortList(init) by {
        assert last in SortList(init) ==> last in Elements(SortList(init));
      }
      InsertSorted(last, SortList(init));
      InsertElements(last, SortList(init));
    }
    SortedUnique(SortList(s), Sorted(Elements(s)));
  }

  /** Lists the keys of a dictionary in some order. */
  method ListOf(s: set<string>) returns (r: seq<string>)
    ensures NoDuplicates(r) && Elements(r) == s
  {
    var rest := s;
    r := [];
    while rest != {}
      invariant NoDuplicates(r) && Elements(r) == s - rest && rest <= s
      decreases |rest|
    {
      var x :| x in rest;
      assert Elements(r + [x]) == Elements(r) + {x};
      assert x !in r by { assert x in r ==> x in Elements(r); }
      r := r + [x];
      rest := rest - {x};
    }
  }

  /** `sorted(...)` over the keys of a dictionary or the elements of a set. */
  method SortedKeys(s: set<string>) returns (r: seq<string>)
    ensures r == Sorted(s)
  {
    var listing := ListOf(s);
    SortListIsSorted(listing);
    r := SortList(listing);
  }
}
