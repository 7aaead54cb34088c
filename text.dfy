/**
 * String operations the Python code gets from the language: decimal
 * formatting of ids in f-strings, substring tests (`base in key`) and the
 * ASCII case folding behind SQLite's case-insensitive `iexact` lookups.
 */
module Text {

  predicate IsDigit(c: char) {
    '0' <= c <= '9'
  }

  predicate AllDigits(s: string) {
    forall i :: 0 <= i < |s| ==> IsDigit(s[i])
  }

  function DigitChar(d: nat): (c: char)
    requires d < 10
    ensures IsDigit(c)
  {
    ('0' as int + d) as char
  }

  function DigitValue(c: char): (d: nat)
    requires IsDigit(c)
    ensures d < 10 && DigitChar(d) == c
  {
    c as int - '0' as int
  }

  /** `str(n)` for a non-negative integer, as an f-string field `{n}` writes it. */
  function NatStr(n: nat): (s: string)
    ensures |s| > 0 && AllDigits(s)
    ensures |s| > 1 ==> s[0] != '0'
  {
    if n < 10 then [DigitChar(n)] else NatStr(n / 10) + [DigitChar(n % 10)]
  }

  /** The value of a string of decimal digits (Python's `int(s)` on digits). */
  function DigitsValue(s: string): nat
    requires AllDigits(s)
  {
    if s == [] then 0 else DigitsValue(s[..|s| - 1]) * 10 + DigitValue(s[|s| - 1])
  }

  /** Reading back a formatted id gives the id: `int(str(n)) == n`. */
  lemma {:induction false} NatStrRoundTrip(n: nat)
    ensures DigitsValue(NatStr(n)) == n
  {
    if n >= 10 {
      NatStrRoundTrip(n / 10);
      var s := NatStr(n);
      assert s[..|s| - 1] == NatStr(n / 10);
    }
  }

  /** Distinct ids are formatted as distinct strings. */
  lemma NatStrInjective(a: nat, b: nat)
    ensures NatStr(a) == NatStr(b) ==> a == b
  {
    NatStrRoundTrip(a);
    NatStrRoundTrip(b);
  }

  /** `sub in s` for Python strings: `sub` occurs in `s` at some position. */
  predicate Contains(s: string, sub: string)
    decreases |s|
  {
    sub <= s || (s != [] && Contains(s[1..], sub))
  }

  /** A string contains whatever it starts with, and whatever occurs after any prefix. */
  lemma {:induction false} ContainsInfix(a: string, b: string, c: string)
    ensures Contains(a + b + c, b)
    decreases |a|
  {
    if a == [] {
      assert a + b + c == b + c;
    } else {
      ContainsInfix(a[1..], b, c);
      assert (a + b + c)[1..] == a[1..] + b + c;
    }
  }

  /** Whatever a string contains, any longer string ending with it contains too. */
  lemma {:induction false} ContainsAfterPrefix(p: string, s: string, sub: string)
    requires Contains(s, sub)
    ensures Contains(p + s, sub)
    decreases |p|
  {
    if p != [] {
      ContainsAfterPrefix(p[1..], s, sub);
      assert (p + s)[1..] == p[1..] + s;
    } else {
      assert p + s == s;
    }
  }

  /** `s.replace(target, "")`: occurrences of `target` removed left to right, without overlaps. */
  function Without(s: string, target: string): (r: string)
    requires target != []
    ensures |r| <= |s|
    decreases |s|
  {
    if s == [] then []
    else if target <= s then Without(s[|target|..], target)
    else [s[0]] + Without(s[1..], target)
  }

  /** Removing a single character never leaves that character behind. */
  lemma {:induction false} WithoutCharGone(s: string, c: char)
    ensures c !in Without(s, [c])
    decreases |s|
  {
    if s != [] {
      WithoutCharGone(s[1..], c);
    }
  }

  /** Removing a single character distributes over concatenation. */
  lemma {:induction false} WithoutCharAppend(a: string, b: string, c: char)
    ensures Without(a + b, [c]) == Without(a, [c]) + Without(b, [c])
    decreases |a|
  {
    if a == [] {
      assert a + b == b;
    } else {
      assert (a + b)[1..] == a[1..] + b;
      assert [c] <= a + b <==> [c] <= a;
      WithoutCharAppend(a[1..], b, c);
    }
  }

  /** A string in which `target` cannot start anywhere is left unchanged. */
  lemma {:induction false} WithoutAbsent(s: string, target: string)
    requires target != [] && target[0] !in s
    ensures Without(s, target) == s
    decreases |s|
  {
    if s != [] {
      assert !(target <= s);
      WithoutAbsent(s[1..], target);
      assert s == [s[0]] + s[1..];
    }
  }

  /** Python's `str.strip(chars)`: drops leading and trailing characters from `chars`. */
  function Strip(s: string, chars: set<char>): (r: string)
    ensures |r| <= |s|
    ensures r != [] ==> r[0] !in chars && r[|r| - 1] !in chars
    decreases |s|
  {
    if s == [] then []
    else if s[0] in chars then Strip(s[1..], chars)
    else if s[|s| - 1] in chars then Strip(s[..|s| - 1], chars)
    else s
  }

  /**
   * The characters `str.strip()` removes: those `str.isspace()` holds for,
   * the ASCII separators \x1c to \x1f included.
   */
  const Whitespace: set<char> := {
    '\t', '\n', '\U{0b}', '\U{0c}', '\r', '\U{1c}', '\U{1d}', '\U{1e}', '\U{1f}', ' ',
    '\U{85}', '\U{a0}', '\U{1680}',
    '\U{2000}', '\U{2001}', '\U{2002}', '\U{2003}', '\U{2004}', '\U{2005}',
    '\U{2006}', '\U{2007}', '\U{2008}', '\U{2009}', '\U{200a}',
    '\U{2028}', '\U{2029}', '\U{202f}', '\U{205f}', '\U{3000}'}

  /** `s[..i]` and `s[j..]` consist of characters from `chars` only. */
  predicate Cut(s: string, chars: set<char>, i: int, j: int) {
    0 <= i <= j <= |s|
    && (forall k :: 0 <= k < i ==> s[k] in chars)
    && (forall k :: j <= k < |s| ==> s[k] in chars)
  }

  /** A cut of `s[1..]` is a cut of `s` one further on, when `s[0]` is in `chars`. */
  lemma CutDropFirst(s: string, chars: set<char>, i: int, j: int)
    requires s != [] && s[0] in chars && Cut(s[1..], chars, i, j)
    ensures Cut(s, chars, i + 1, j + 1) && s[1..][i..j] == s[i + 1..j + 1]
  {
    forall k | 0 < k < |s| ensures s[k] == s[1..][k - 1] { }
  }

  /** A cut of `s` without its last character is a cut of `s`, when that character is in `chars`. */
  lemma CutDropLast(s: string, chars: set<char>, i: int, j: int)
    requires s != [] && s[|s| - 1] in chars && Cut(s[..|s| - 1], chars, i, j)
    ensures Cut(s, chars, i, j) && s[..|s| - 1][i..j] == s[i..j]
  {
    forall k | 0 <= k < |s| - 1 ensures s[k] == s[..|s| - 1][k] { }
  }

  /**
   * Stripping cuts a prefix and a suffix made only of stripped characters,
   * and keeps the middle unchanged.
   */
  lemma {:induction false} StripIsSlice(s: string, chars: set<char>)
    ensures exists i, j :: Cut(s, chars, i, j) && Strip(s, chars) == s[i..j]
    decreases |s|
  {
    if s == [] {
      assert Cut(s, chars, 0, 0) && Strip(s, chars) == s[0..0];
    } else if s[0] in chars {
      StripIsSlice(s[1..], chars);
      var i, j :| Cut(s[1..], chars, i, j) && Strip(s[1..], chars) == s[1..][i..j];
      CutDropFirst(s, chars, i, j);
      assert Cut(s, chars, i + 1, j + 1) && Strip(s, chars) == s[i + 1..j + 1];
    } else if s[|s| - 1] in chars {
      StripIsSlice(s[..|s| - 1], chars);
      var i, j :| Cut(s[..|s| - 1], chars, i, j) && Strip(s[..|s| - 1], chars) == s[..|s| - 1][i..j];
      CutDropLast(s, chars, i, j);
      assert Cut(s, chars, i, j) && Strip(s, chars) == s[i..j];
    } else {
      assert Cut(s, chars, 0, |s|) && Strip(s, chars) == s[0..|s|];
    }
  }

  /** `str.strip()`, as the REST framework's `trim_whitespace` applies it to text input. */
  function Trim(s: string): (r: string)
    ensures |r| <= |s|
  {
    Strip(s, Whitespace)
  }

  /** ASCII lower-casing, the folding SQLite's LIKE applies for `iexact`. */
  function LowerChar(c: char): char {
    if 'A' <= c <= 'Z' then (c as int + 32) as char else c
  }

  function Lower(s: string): (r: string)
    ensures |r| == |s|
  {
    seq(|s|, i requires 0 <= i < |s| => LowerChar(s[i]))
  }

  /** `a__iexact=b`: equal once ASCII letters are folded to lower case. */
  predicate SameIgnoringCase(a: string, b: string) {
    Lower(a) == Lower(b)
  }
}
