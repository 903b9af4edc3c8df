/** The string operations of the parsers: decimal numbers, split, join and strip on ASCII text. */
module Text {
  import opened Wrappers
  import opened Ordering

  predicate IsDigit(c: char) {
    '0' <= c <= '9'
  }

  predicate IsLetter(c: char) {
    'a' <= c <= 'z' || 'A' <= c <= 'Z'
  }

  /** `str.isdigit` on ASCII text. */
  predicate AllDigits(s: string) {
    s != "" && forall i :: 0 <= i < |s| ==> IsDigit(s[i])
  }

  // ---------------------------------------------------------------- decimal numbers

  function DigitValue(c: char): nat
    requires IsDigit(c)
  {
    (c - '0') as nat
  }

  function DigitChar(n: nat): (c: char)
    requires n < 10
    ensures IsDigit(c) && DigitValue(c) == n
  {
    '0' + n as char
  }

  /** `int(s)` of a digit string. */
  function FromDecimal(s: string): nat
    requires forall i :: 0 <= i < |s| ==> IsDigit(s[i])
  {
    if s == "" then 0 else 10 * FromDecimal(s[..|s| - 1]) + DigitValue(s[|s| - 1])
  }

  /** `str(n)`. */
  function ToDecimal(n: nat): string {
    if n < 10 then [DigitChar(n)] else ToDecimal(n / 10) + [DigitChar(n % 10)]
  }

  /** `0|[1-9]\d*`: a decimal number without leading zeroes. */
  predicate IsNumeral(s: string) {
    AllDigits(s) && (|s| == 1 || s[0] != '0')
  }

  lemma {:induction false} NumeralValue(s: string)
    requires AllDigits(s)
    ensures FromDecimal(s) == 0 ==> s[0] == '0'
  {
    if |s| == 1 {
      assert s[..0] == "";
    } else {
      NumeralValue(s[..|s| - 1]);
    }
  }

  lemma {:induction false} DecimalOfNumeral(s: string)
    requires IsNumeral(s)
    ensures ToDecimal(FromDecimal(s)) == s
  {
    var init, last := s[..|s| - 1], s[|s| - 1];
    assert s == init + [last];
    if |s| > 1 {
      DecimalOfNumeral(init);
      NumeralValue(init);
      assert FromDecimal(s) == 10 * FromDecimal(init) + DigitValue(last);
    }
  }

  lemma {:induction false} NumeralOfDecimal(n: nat)
    ensures IsNumeral(ToDecimal(n)) && FromDecimal(ToDecimal(n)) == n
    ensures n > 0 ==> ToDecimal(n)[0] != '0'
  {
    if n < 10 {
      assert ToDecimal(n)[..0] == "";
    } else {
      NumeralOfDecimal(n / 10);
      assert ToDecimal(n)[..|ToDecimal(n)| - 1] == ToDecimal(n / 10);
    }
  }

  lemma {:induction false} LessAppended(a: string, x: char, b: string, y: char)
    requires |a| == |b|
    ensures Less(a + [x], b + [y]) <==> Less(a, b) || (a == b && x < y)
  {
    if a == "" {
      assert a + [x] == [x] && b + [y] == [y];
    } else {
      assert (a + [x])[1..] == a[1..] + [x] && (b + [y])[1..] == b[1..] + [y];
      LessAppended(a[1..], x, b[1..], y);
      assert a == [a[0]] + a[1..] && b == [b[0]] + b[1..];
    }
  }

  /** Digit strings of one length are ordered as the numbers they stand for. */
  lemma {:induction false} DigitsOrder(s: string, t: string)
    requires |s| == |t| && (forall i :: 0 <= i < |s| ==> IsDigit(s[i])) && (forall i :: 0 <= i < |t| ==> IsDigit(t[i]))
    ensures FromDecimal(s) < FromDecimal(t) <==> Less(s, t)
    ensures FromDecimal(s) == FromDecimal(t) <==> s == t
  {
    if s != "" {
      var a, b, x, y := s[..|s| - 1], t[..|t| - 1], s[|s| - 1], t[|t| - 1];
      assert s == a + [x] && t == b + [y];
      DigitsOrder(a, b);
      LessAppended(a, x, b, y);
    }
  }

  lemma {:induction false} ShorterIsSmaller(s: string, t: string)
    requires |s| < |t| && t[0] != '0' && (forall i :: 0 <= i < |s| ==> IsDigit(s[i])) && (forall i :: 0 <= i < |t| ==> IsDigit(t[i]))
    ensures FromDecimal(s) < FromDecimal(t)
  {
    if s == "" {
      if |t| > 1 { ShorterIsSmaller(s, t[..|t| - 1]); }
    } else {
      ShorterIsSmaller(s[..|s| - 1], t[..|t| - 1]);
    }
  }

  /** Numerals are ordered by length, and as texts if they are as long. */
  lemma {:induction false} NumeralsOrder(s: string, t: string)
    requires IsNumeral(s) && IsNumeral(t)
    ensures FromDecimal(s) < FromDecimal(t) <==> |s| < |t| || (|s| == |t| && Less(s, t))
  {
    if |s| < |t| {
      ShorterIsSmaller(s, t);
    } else if |t| < |s| {
      ShorterIsSmaller(t, s);
    } else {
      DigitsOrder(s, t);
    }
  }

  // ---------------------------------------------------------------- split and join

  /** The index of the first `c`, or the length if there is none. */
  function Find(s: string, c: char): (i: nat)
    ensures i <= |s| && (i < |s| <==> c in s)
    ensures c !in s[..i] && (i < |s| ==> s[i] == c)
  {
    if s == "" || s[0] == c then 0
    else
      assert s == [s[0]] + s[1..];
      assert s[..1 + Find(s[1..], c)] == [s[0]] + s[1..][..Find(s[1..], c)];
      1 + Find(s[1..], c)
  }

  lemma {:induction false} FindFirst(a: string, c: char, b: string)
    requires c !in a
    ensures Find(a + [c] + b, c) == |a|
  {
    var s := a + [c] + b;
    if a == "" {
      assert s[0] == c;
    } else {
      assert a[0] in a && s[0] == a[0];
      assert s[1..] == a[1..] + [c] + b;
      FindFirst(a[1..], c, b);
    }
  }

  function Split(s: string, c: char): (r: seq<string>)
    ensures r != []
    decreases |s|
  {
    if c !in s then [s] else [s[..Find(s, c)]] + Split(s[Find(s, c) + 1..], c)
  }

  function Join(parts: seq<string>, c: char): string
    requires parts != []
  {
    if |parts| == 1 then parts[0] else parts[0] + [c] + Join(parts[1..], c)
  }

  lemma {:induction false} JoinHead(head: string, parts: seq<string>, c: char)
    requires parts != []
    ensures Join([head] + parts, c) == head + [c] + Join(parts, c)
  {
    assert ([head] + parts)[1..] == parts;
  }

  lemma {:induction false} JoinOfSplit(s: string, c: char)
    ensures Join(Split(s, c), c) == s
    decreases |s|
  {
    if c in s {
      var i := Find(s, c);
      var head, rest := s[..i], s[i + 1..];
      JoinOfSplit(rest, c);
      JoinHead(head, Split(rest, c), c);
      assert s == head + [c] + rest;
    }
  }

  lemma {:induction false} SplitHead(head: string, c: char, rest: string)
    requires c !in head
    ensures Split(head + [c] + rest, c) == [head] + Split(rest, c)
  {
    var s := head + [c] + rest;
    FindFirst(head, c, rest);
    assert s[|head|] == c;
    assert s[..|head|] == head && s[|head| + 1..] == rest;
  }

  lemma {:induction false} SplitOfJoin(parts: seq<string>, c: char)
    requires parts != [] && forall p :: p in parts ==> c !in p
    ensures Split(Join(parts, c), c) == parts
  {
    assert parts[0] in parts;
    if |parts| > 1 {
      SplitOfJoin(parts[1..], c);
      SplitHead(parts[0], c, Join(parts[1..], c));
      assert parts == [parts[0]] + parts[1..];
    }
  }

  lemma {:induction false} JoinChars(parts: seq<string>, c: char)
    requires parts != []
    ensures forall x :: x in Join(parts, c) ==> x == c || exists p :: p in parts && x in p
  {
    if |parts| == 1 {
      assert parts[0] in parts;
    } else {
      JoinChars(parts[1..], c);
      forall x | x in Join(parts, c) ensures x == c || exists p :: p in parts && x in p {
        if x in parts[0] {
          assert parts[0] in parts;
        } else if x != c {
          assert x in Join(parts[1..], c);
        }
      }
    }
  }

  // ---------------------------------------------------------------- strip

  /** The ASCII characters `str.strip` removes. */
  predicate IsSpace(c: char) {
    c == ' ' || '\t' <= c <= '\r' || '\U{1c}' <= c <= '\U{1f}'
  }

  function StripLeft(s: string): string {
    if s != "" && IsSpace(s[0]) then StripLeft(s[1..]) else s
  }

  function StripRight(s: string): string {
    if s != "" && IsSpace(s[|s| - 1]) then StripRight(s[..|s| - 1]) else s
  }

  function Strip(s: string): string {
    StripRight(StripLeft(s))
  }

  lemma {:induction false} StripNothing(s: string)
    requires forall c :: c in s ==> !IsSpace(c)
    ensures Strip(s) == s
  {
    if s != "" {
      assert s[0] in s && s[|s| - 1] in s;
    }
  }

  lemma {:induction false} LeftBlanksGo(front: string, rest: string)
    requires forall c :: c in front ==> IsSpace(c)
    ensures StripLeft(front + rest) == StripLeft(rest)
  {
    if front == "" {
      assert front + rest == rest;
    } else {
      assert front[0] in front && (front + rest)[1..] == front[1..] + rest;
      LeftBlanksGo(front[1..], rest);
    }
  }

  lemma {:induction false} RightBlanksGo(rest: string, back: string)
    requires forall c :: c in back ==> IsSpace(c)
    ensures StripRight(rest + back) == StripRight(rest)
  {
    if back == "" {
      assert rest + back == rest;
    } else {
      var init := back[..|back| - 1];
      assert back[|back| - 1] in back && (rest + back)[..|rest + back| - 1] == rest + init;
      RightBlanksGo(rest, init);
    }
  }

  /** Stripping takes the blanks at both ends and nothing else. */
  lemma {:induction false} StripTakesBlanks(front: string, core: string, back: string)
    requires forall c :: c in front + back ==> c in " \t\n\U{b}\U{c}\r\U{1c}\U{1d}\U{1e}\U{1f}"
    requires core != "" ==> !IsSpace(core[0]) && !IsSpace(core[|core| - 1])
    ensures Strip(front + core + back) == core
  {
    assert forall c :: c in front ==> c in front + back;
    assert forall c :: c in back ==> c in front + back;
    assert front + core + back == front + (core + back);
    LeftBlanksGo(front, core + back);
    RightBlanksGo(core, back);
    if core == "" {
      assert core + back == back + "";
      LeftBlanksGo(back, "");
    }
  }
}
