/// The string operations the CSV importer relies on: Python's unicode
/// strip() and split() with no arguments, "%i" formatting of a column
/// number, and the code-point ordering used by list.sort().
module CsvText {

  /// unicode.isspace() in Python 2.7 (Unicode 5.2): the characters that
  /// strip() removes and split() splits on.
  predicate IsSpace(c: char) {
    var n := c as int;
    (9 <= n <= 13) || (28 <= n <= 32) || n == 0x85 || n == 0xA0 || n == 0x1680 || n == 0x180E
    || (0x2000 <= n <= 0x200A) || n == 0x2028 || n == 0x2029 || n == 0x202F || n == 0x205F || n == 0x3000
  }

  predicate NoSpace(s: string) {
    forall i :: 0 <= i < |s| ==> !IsSpace(s[i])
  }

  predicate AllSpace(s: string) {
    forall i :: 0 <= i < |s| ==> IsSpace(s[i])
  }

  /// s with its leading whitespace removed.
  function StripLeft(s: string): string {
    if s == [] || !IsSpace(s[0]) then s else StripLeft(s[1..])
  }

  /// s with its trailing whitespace removed.
  function StripRight(s: string): string {
    if s == [] || !IsSpace(s[|s| - 1]) then s else StripRight(s[..|s| - 1])
  }

  /// unicode.strip().
  function Strip(s: string): string {
    StripRight(StripLeft(s))
  }

  /// The longest prefix of s that holds no whitespace.
  function Word(s: string): string {
    if s == [] || IsSpace(s[0]) then [] else [s[0]] + Word(s[1..])
  }

  /// unicode.split(): the maximal runs of non-whitespace characters, in order.
  function Words(s: string): seq<string>
    decreases |s|
  {
    var t := StripLeft(s);
    StripLeftSpec(s);
    if t == [] then []
    else
      var w := Word(t);
      WordSpec(t);
      [w] + Words(t[|w|..])
  }

  /// StripLeft removes a run of whitespace from the front, and exactly the
  /// whole run.
  lemma {:induction false} StripLeftSpec(s: string)
    ensures var r := StripLeft(s);
      && |r| <= |s| && r == s[|s| - |r|..]
      && AllSpace(s[..|s| - |r|])
      && (r == [] || !IsSpace(r[0]))
  {
    if s != [] && IsSpace(s[0]) {
      StripLeftSpec(s[1..]);
      var r := StripLeft(s);
      assert s[..|s| - |r|] == [s[0]] + s[1..][..|s| - 1 - |r|];
    }
  }

  /// StripRight removes a run of whitespace from the back, and exactly the
  /// whole run.
  lemma {:induction false} StripRightSpec(s: string)
    ensures var r := StripRight(s);
      && |r| <= |s| && r == s[..|r|]
      && AllSpace(s[|r|..])
      && (r == [] || !IsSpace(r[|r| - 1]))
  {
    if s != [] && IsSpace(s[|s| - 1]) {
      var t := s[..|s| - 1];
      StripRightSpec(t);
      var r := StripRight(s);
      assert s[|r|..] == t[|r|..] + [s[|s| - 1]];
    }
  }

  /// Neither end of a stripped string is whitespace.
  lemma StripEnds(s: string)
    ensures var r := Strip(s);
      r == [] || (!IsSpace(r[0]) && !IsSpace(r[|r| - 1]))
  {
    var l := StripLeft(s);
    StripLeftSpec(s);
    StripRightSpec(l);
    var r := StripRight(l);
    assert r != [] ==> r[0] == l[0];
  }

  /// A string whose ends are not whitespace is its own StripLeft and StripRight.
  lemma StripFixed(t: string)
    requires t == [] || (!IsSpace(t[0]) && !IsSpace(t[|t| - 1]))
    ensures StripLeft(t) == t && StripRight(t) == t && Strip(t) == t
  {
  }

  /// Stripping a stripped string changes nothing.
  lemma StripIdempotent(s: string)
    ensures Strip(Strip(s)) == Strip(s)
  {
    StripEnds(s);
    StripFixed(Strip(s));
  }

  /// strip() removes whitespace only, and only from the two ends.
  lemma StripRemovesOnlySpace(s: string)
    ensures var r := Strip(s);
      exists i :: 0 <= i <= |s| - |r| && r == s[i..i + |r|] && AllSpace(s[..i]) && AllSpace(s[i + |r|..])
  {
    var l := StripLeft(s);
    StripLeftSpec(s);
    StripRightSpec(l);
    var r := StripRight(l);
    var i := |s| - |l|;
    assert r == s[i..i + |r|];
    assert s[i + |r|..] == l[|r|..];
  }

  /// The first word is a prefix without whitespace, followed by whitespace
  /// or the end.
  lemma {:induction false} WordSpec(s: string)
    ensures var w := Word(s);
      && |w| <= |s| && w == s[..|w|] && NoSpace(w)
      && (|w| < |s| ==> IsSpace(s[|w|]))
      && (s != [] && !IsSpace(s[0]) ==> w != [])
  {
    if s != [] && !IsSpace(s[0]) {
      WordSpec(s[1..]);
      var w := Word(s);
      assert w == [s[0]] + Word(s[1..]);
    }
  }

  /// Every word of split() is non-empty and holds no whitespace.
  lemma {:induction false} WordsSpec(s: string)
    ensures forall k :: 0 <= k < |Words(s)| ==> Words(s)[k] != [] && NoSpace(Words(s)[k])
    decreases |s|
  {
    var t := StripLeft(s);
    StripLeftSpec(s);
    if t != [] {
      var w := Word(t);
      WordSpec(t);
      var rest := Words(t[|w|..]);
      WordsSpec(t[|w|..]);
      var ws := Words(s);
      assert ws == [w] + rest;
      forall k | 0 < k < |ws| ensures ws[k] == rest[k - 1] { }
    }
  }

  /// A word with no whitespace in it is the whole of a single-word string.
  lemma {:induction false} WordOfWord(w: string)
    requires NoSpace(w)
    ensures Word(w) == w
  {
    if w != [] {
      WordOfWord(w[1..]);
    }
  }

  /// A string that is not blank once stripped has a first and a last word,
  /// and neither is empty.
  lemma StrippedHasWords(s: string)
    requires Strip(s) != []
    ensures var ws := Words(Strip(s)); ws != [] && ws[0] != [] && ws[|ws| - 1] != []
  {
    StripEnds(s);
    StripFixed(Strip(s));
    WordsSpec(Strip(s));
  }

  /// The first word of `a + rest` is a when rest starts with whitespace.
  lemma {:induction false} WordBeforeSpace(a: string, rest: string)
    requires NoSpace(a) && rest != [] && IsSpace(rest[0])
    ensures Word(a + rest) == a
  {
    if a != [] {
      WordBeforeSpace(a[1..], rest);
      assert (a + rest)[1..] == a[1..] + rest;
    }
  }

  lemma WordsOfSpacedWord(b: string)
    requires b != [] && NoSpace(b)
    ensures Words(" " + b) == [b]
  {
    var rest := " " + b;
    assert StripLeft(rest) == StripLeft(rest[1..]);
    assert rest[1..] == b;
    OneWord(b);
  }

  /// `a + " " + b` for two words a and b strips to itself and splits into
  /// exactly those two words.
  lemma TwoWords(a: string, b: string)
    requires a != [] && b != [] && NoSpace(a) && NoSpace(b)
    ensures Strip(a + " " + b) == a + " " + b
    ensures Words(a + " " + b) == [a, b]
  {
    var s := a + " " + b;
    assert s[0] == a[0] && s[|s| - 1] == b[|b| - 1];
    StripFixed(s);
    TwoWordsSplit(a, b);
  }

  lemma TwoWordsSplit(a: string, b: string)
    requires a != [] && b != [] && NoSpace(a) && NoSpace(b)
    ensures Words(a + " " + b) == [a, b]
  {
    var s := a + " " + b;
    assert s[0] == a[0];
    assert StripLeft(s) == s;
    WordBeforeSpace(a, " " + b);
    assert s == a + (" " + b);
    assert s[|a|..] == " " + b;
    WordsOfSpacedWord(b);
  }

  /// A single word strips to itself and splits into itself.
  lemma OneWord(a: string)
    requires a != [] && NoSpace(a)
    ensures Strip(a) == a
    ensures Words(a) == [a]
  {
    StripFixed(a);
    WordOfWord(a);
    assert a[|a|..] == [];
    assert Words([]) == [];
  }

  //////////////////////////////////////////////////////////////////////////
  // "%i" of a natural number

  function DigitChar(d: nat): char
    requires d < 10
  {
    ('0' as int + d) as char
  }

  predicate IsDigit(c: char) { '0' <= c <= '9' }

  /// The decimal digits of n, most significant first, without leading zeros.
  function Decimal(n: nat): (s: string)
    ensures s != [] && forall i :: 0 <= i < |s| ==> IsDigit(s[i])
  {
    if n < 10 then [DigitChar(n)] else Decimal(n / 10) + [DigitChar(n % 10)]
  }

  /// The value of a string of decimal digits.
  function DecimalValue(s: string): nat
    requires forall i :: 0 <= i < |s| ==> IsDigit(s[i])
  {
    if s == [] then 0
    else
      assert IsDigit(s[|s| - 1]);
      DecimalValue(s[..|s| - 1]) * 10 + (s[|s| - 1] as int - '0' as int)
  }

  /// Reading the decimal text of n back gives n.
  lemma {:induction false} DecimalRoundTrip(n: nat)
    ensures DecimalValue(Decimal(n)) == n
  {
    var s := Decimal(n);
    if n >= 10 {
      DecimalRoundTrip(n / 10);
      assert s[..|s| - 1] == Decimal(n / 10);
    }
  }

  /// Different numbers are written differently.
  lemma DecimalInjective(m: nat, n: nat)
    requires Decimal(m) == Decimal(n)
    ensures m == n
  {
    DecimalRoundTrip(m);
    DecimalRoundTrip(n);
  }

  //////////////////////////////////////////////////////////////////////////
  // Ordering of names for list.sort()

  /// Python's comparison of unicode strings: code point by code point, and a
  /// proper prefix first.
  predicate LexLessEq(a: string, b: string)
    decreases |a|
  {
    a == [] || (b != [] && (a[0] < b[0] || (a[0] == b[0] && LexLessEq(a[1..], b[1..]))))
  }

  lemma {:induction false} LexTotal(a: string, b: string)
    ensures LexLessEq(a, b) || LexLessEq(b, a)
    decreases |a|
  {
    if a != [] && b != [] && a[0] == b[0] {
      LexTotal(a[1..], b[1..]);
    }
  }

  lemma {:induction false} LexTransitive(a: string, b: string, c: string)
    requires LexLessEq(a, b) && LexLessEq(b, c)
    ensures LexLessEq(a, c)
    decreases |a|
  {
    if a != [] && a[0] == b[0] && b[0] == c[0] {
      LexTransitive(a[1..], b[1..], c[1..]);
    }
  }

  lemma {:induction false} LexAntisymmetric(a: string, b: string)
    requires LexLessEq(a, b) && LexLessEq(b, a)
    ensures a == b
    decreases |a|
  {
    if a != [] {
      LexAntisymmetric(a[1..], b[1..]);
      assert a == [a[0]] + a[1..] && b == [b[0]] + b[1..];
    }
  }

  predicate Sorted(s: seq<string>) {
    forall i :: 0 < i < |s| ==> LexLessEq(s[i - 1], s[i])
  }

  /// Place x before the first element it does not follow.
  function Insert(x: string, s: seq<string>): (r: seq<string>)
    ensures multiset(r) == multiset(s) + multiset{x}
    ensures |r| == |s| + 1
    ensures r[0] == x || (s != [] && r[0] == s[0])
  {
    if s == [] then [x]
    else if LexLessEq(x, s[0]) then [x] + s
    else
      assert s == [s[0]] + s[1..];
      [s[0]] + Insert(x, s[1..])
  }

  /// list.sort() on names: the ascending order of the same names.
  function Sort(s: seq<string>): (r: seq<string>)
    ensures multiset(r) == multiset(s)
  {
    if s == [] then []
    else
      assert s == [s[0]] + s[1..];
      Insert(s[0], Sort(s[1..]))
  }

  lemma {:induction false} InsertSorted(x: string, s: seq<string>)
    requires Sorted(s)
    ensures Sorted(Insert(x, s))
  {
    if s != [] && !LexLessEq(x, s[0]) {
      InsertSorted(x, s[1..]);
      LexTotal(x, s[0]);
      var r := Insert(x, s);
      var t := Insert(x, s[1..]);
      assert r == [s[0]] + t;
      assert t[0] == x || t[0] == s[1];
      forall i | 0 < i < |r| ensures LexLessEq(r[i - 1], r[i]) {
        if i > 1 {
          assert r[i - 1] == t[i - 2] && r[i] == t[i - 1];
        }
      }
    }
  }

  lemma {:induction false} SortSorted(s: seq<string>)
    ensures Sorted(Sort(s))
  {
    if s != [] {
      SortSorted(s[1..]);
      InsertSorted(s[0], Sort(s[1..]));
    }
  }

  /// Sorted adjacent pairs make every pair ordered.
  lemma {:induction false} SortedPairs(s: seq<string>, i: nat, j: nat)
    requires Sorted(s) && i <= j < |s|
    ensures LexLessEq(s[i], s[j])
    decreases j - i
  {
    if i == j {
      LexReflexive(s[i]);
    } else {
      SortedPairs(s, i, j - 1);
      LexTransitive(s[i], s[j - 1], s[j]);
    }
  }

  lemma {:induction false} LexReflexive(a: string)
    ensures LexLessEq(a, a)
    decreases |a|
  {
    if a != [] {
      LexReflexive(a[1..]);
    }
  }
}
