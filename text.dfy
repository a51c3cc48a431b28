/**
  Character classes and string operations that the browser code (JavaScript) and the
  server code (Python) rely on: whitespace, trimming, digits, decimal rendering,
  ASCII lower-casing and Python's `str.split()` / `" ".join(...)`.
 */
module Text {

  /** Which runtime's notion of whitespace applies. */
  datatype Runtime = JavaScript | Python

  /** JavaScript: the characters matched by `\s` and removed by `String.prototype.trim`.
      Python: the characters for which `str.isspace()` holds, used by `strip()` and `split()`. */
  predicate IsSpace(rt: Runtime, c: char) {
    match rt
    case JavaScript =>
      ('\t' <= c <= '\r') || c == ' ' || c == '\U{00A0}' || c == '\U{1680}'
      || ('\U{2000}' <= c <= '\U{200A}') || c == '\U{2028}' || c == '\U{2029}'
      || c == '\U{202F}' || c == '\U{205F}' || c == '\U{3000}' || c == '\U{FEFF}'
    case Python =>
      ('\t' <= c <= '\r') || ('\U{001C}' <= c <= ' ') || c == '\U{0085}' || c == '\U{00A0}'
      || c == '\U{1680}' || ('\U{2000}' <= c <= '\U{200A}') || c == '\U{2028}'
      || c == '\U{2029}' || c == '\U{202F}' || c == '\U{205F}' || c == '\U{3000}'
  }

  predicate AllSpace(rt: Runtime, s: string) {
    forall i :: 0 <= i < |s| ==> IsSpace(rt, s[i])
  }

  /** The number of whitespace characters at the start of `s`. */
  function LeadingSpaces(rt: Runtime, s: string): (n: nat)
    ensures n <= |s|
    ensures forall i :: 0 <= i < n ==> IsSpace(rt, s[i])
    ensures n < |s| ==> !IsSpace(rt, s[n])
  {
    if s == [] || !IsSpace(rt, s[0]) then 0 else 1 + LeadingSpaces(rt, s[1..])
  }

  /** The index where the whitespace at the end of `s` begins. */
  function TrailingStart(rt: Runtime, s: string): (n: nat)
    ensures n <= |s|
    ensures forall i :: n <= i < |s| ==> IsSpace(rt, s[i])
    ensures n > 0 ==> !IsSpace(rt, s[n - 1])
  {
    if s == [] || !IsSpace(rt, s[|s| - 1]) then |s| else TrailingStart(rt, s[..|s| - 1])
  }

  /** JavaScript's `s.trim()` and Python's `s.strip()`: the slice between the leading and
      the trailing whitespace. */
  function Strip(rt: Runtime, s: string): string {
    var lo, hi := LeadingSpaces(rt, s), TrailingStart(rt, s);
    if hi <= lo then [] else s[lo..hi]
  }

  /** The stripped string is a slice of the input with whitespace only around it, and it
      neither starts nor ends with whitespace. */
  lemma StripShape(rt: Runtime, s: string) returns (lo: nat)
    ensures lo + |Strip(rt, s)| <= |s| && Strip(rt, s) == s[lo..lo + |Strip(rt, s)|]
    ensures AllSpace(rt, s[..lo]) && AllSpace(rt, s[lo + |Strip(rt, s)|..])
    ensures Strip(rt, s) != [] ==> !IsSpace(rt, Strip(rt, s)[0])
    ensures Strip(rt, s) != [] ==> !IsSpace(rt, Strip(rt, s)[|Strip(rt, s)| - 1])
  {
    var l, h := LeadingSpaces(rt, s), TrailingStart(rt, s);
    if h <= l {
      lo := |s|;
    } else {
      lo := l;
    }
  }

  /** `!s.trim()` in JavaScript and `not s.strip()` in Python: the string is blank exactly
      when every character is whitespace. */
  lemma StripBlank(rt: Runtime, s: string)
    ensures Strip(rt, s) == [] <==> AllSpace(rt, s)
  {
    var l, h := LeadingSpaces(rt, s), TrailingStart(rt, s);
    if h > l {
      assert !IsSpace(rt, s[l]);
    }
  }

  /** A string without whitespace is its own trimmed form. */
  lemma StripNoSpace(rt: Runtime, s: string)
    requires forall i :: 0 <= i < |s| ==> !IsSpace(rt, s[i])
    ensures Strip(rt, s) == s
  {
    if s != [] {
      assert LeadingSpaces(rt, s) == 0;
      assert TrailingStart(rt, s) == |s|;
    }
  }

  predicate IsDigit(c: char) {
    '0' <= c <= '9'
  }

  /** Decimal digits are not whitespace for either runtime. */
  lemma DigitsNoSpace(rt: Runtime, s: string)
    requires AllDigits(s)
    ensures Strip(rt, s) == s
  {
    StripNoSpace(rt, s);
  }

  predicate AllDigits(s: string) {
    forall i :: 0 <= i < |s| ==> IsDigit(s[i])
  }

  function DigitChar(d: int): (c: char)
    requires 0 <= d < 10
    ensures IsDigit(c)
  {
    ('0' as int + d) as char
  }

  function DigitValue(c: char): (d: int)
    requires IsDigit(c)
    ensures 0 <= d < 10 && DigitChar(d) == c
  {
    c as int - '0' as int
  }

  /** A character outside the Basic Multilingual Plane, which UTF-16 stores as two code units. */
  predicate IsAstral(c: char) {
    c as int > 0xFFFF
  }

  /** JavaScript's `s.length`: the number of UTF-16 code units, so an astral character counts
      twice. Python's `len` is `|s|`, the number of code points. */
  function JsLength(s: string): (n: nat)
    ensures |s| <= n <= 2 * |s|
    ensures n == |s| <==> forall i :: 0 <= i < |s| ==> !IsAstral(s[i])
  {
    if s == [] then 0 else (if IsAstral(s[0]) then 2 else 1) + JsLength(s[1..])
  }

  /** Digits lie in the Basic Multilingual Plane: a digit string's length is its size. */
  lemma DigitsJsLength(s: string)
    requires AllDigits(s)
    ensures JsLength(s) == |s|
  {
    assert forall i :: 0 <= i < |s| ==> !IsAstral(s[i]) by {
      forall i | 0 <= i < |s| ensures !IsAstral(s[i]) { assert IsDigit(s[i]); }
    }
  }

  /** Three emoji outside the Basic Multilingual Plane have `length` 6, not 3. */
  lemma AstralCountsTwice()
    ensures JsLength("\U{1F600}\U{1F600}\U{1F600}") == 6
  {
    var s := "\U{1F600}\U{1F600}\U{1F600}";
    assert s[1..][1..][1..] == [];
  }

  /** JavaScript's `s.replace(/\D/g, '')`: drops every character that is not 0-9. */
  function StripNonDigits(s: string): (r: string)
    ensures AllDigits(r) && |r| <= |s|
    ensures AllDigits(s) ==> r == s
  {
    if s == [] then []
    else (if IsDigit(s[0]) then [s[0]] else []) + StripNonDigits(s[1..])
  }

  /** Decimal rendering of a natural number, as `String(n)` and `str(n)` produce it. */
  function NatToString(n: nat): (r: string)
    ensures |r| > 0 && AllDigits(r)
    ensures |r| > 1 ==> r[0] != '0'
  {
    if n < 10 then [DigitChar(n)] else NatToString(n / 10) + [DigitChar(n % 10)]
  }

  /** The value of a string of decimal digits. */
  function ParseNat(s: string): nat
    requires AllDigits(s)
  {
    if s == [] then 0 else 10 * ParseNat(s[..|s| - 1]) + DigitValue(s[|s| - 1])
  }

  /** Rendering a number and reading it back gives the number. */
  lemma {:induction false} ParseNatToString(n: nat)
    ensures ParseNat(NatToString(n)) == n
  {
    var r := NatToString(n);
    if n >= 10 {
      ParseNatToString(n / 10);
      assert r[..|r| - 1] == NatToString(n / 10);
    }
  }

  /** Decimal rendering of an integer (`str(i)`), with a leading '-' when negative. */
  function IntToString(i: int): (r: string)
    ensures |r| > 0
    ensures i < 0 ==> r[0] == '-' && AllDigits(r[1..])
    ensures i >= 0 ==> AllDigits(r)
  {
    if i < 0 then "-" + NatToString(-i) else NatToString(i)
  }

  function LowerChar(c: char): char {
    if 'A' <= c <= 'Z' then (c as int + 32) as char else c
  }

  /** `str.lower()` restricted to ASCII letters. */
  function AsciiLower(s: string): string {
    seq(|s|, i requires 0 <= i < |s| => LowerChar(s[i]))
  }

  /** Lower-casing keeps the length, removes every upper-case ASCII letter and changes no
      whitespace, so it commutes with the emptiness test of `strip()`. */
  lemma AsciiLowerFacts(rt: Runtime, s: string)
    ensures |AsciiLower(s)| == |s|
    ensures forall i :: 0 <= i < |s| ==> !('A' <= AsciiLower(s)[i] <= 'Z')
    ensures forall i :: 0 <= i < |s| ==> (IsSpace(rt, AsciiLower(s)[i]) <==> IsSpace(rt, s[i]))
    ensures AsciiLower(AsciiLower(s)) == AsciiLower(s)
  {
  }

  /** The first index of `c` in `s`, or `|s|` when `c` does not occur. */
  function IndexOf(s: string, c: char): (k: nat)
    ensures k <= |s| && (k < |s| ==> s[k] == c)
    ensures forall i :: 0 <= i < k ==> s[i] != c
  {
    if s == [] then 0 else if s[0] == c then 0 else 1 + IndexOf(s[1..], c)
  }

  /** `s.includes(sub)` in JavaScript, `sub in s` in Python. */
  predicate Contains(s: string, sub: string) {
    exists i :: 0 <= i <= |s| - |sub| && OccursAt(s, sub, i)
  }

  predicate OccursAt(s: string, sub: string, i: int) {
    0 <= i <= |s| - |sub| && s[i..i + |sub|] == sub
  }

  // ---- Python's str.split() and " ".join(...) ----

  /** A piece produced by `split()`: non-empty and free of whitespace. */
  predicate IsWord(w: string) {
    |w| > 0 && forall i :: 0 <= i < |w| ==> !IsSpace(Python, w[i])
  }

  /** The length of the run of non-whitespace characters at the start of `s`. */
  function WordLen(s: string): (n: nat)
    ensures n <= |s|
    ensures forall i :: 0 <= i < n ==> !IsSpace(Python, s[i])
    ensures n < |s| ==> IsSpace(Python, s[n])
  {
    if s == [] || IsSpace(Python, s[0]) then 0 else 1 + WordLen(s[1..])
  }

  /** `s.split()`: the maximal runs of non-whitespace characters, in order. */
  function Words(s: string): (ws: seq<string>)
    ensures forall k :: 0 <= k < |ws| ==> IsWord(ws[k])
    decreases |s|
  {
    if s == [] then []
    else if IsSpace(Python, s[0]) then Words(s[1..])
    else
      var n := WordLen(s);
      [s[..n]] + Words(s[n..])
  }

  /** `" ".join(ws)`. */
  function Join(ws: seq<string>): string {
    if ws == [] then "" else if |ws| == 1 then ws[0] else ws[0] + " " + Join(ws[1..])
  }

  lemma WordLenOfWord(w: string, rest: string)
    requires IsWord(w) && (rest == [] || IsSpace(Python, rest[0]))
    ensures WordLen(w + rest) == |w|
  {
    var s := w + rest;
    assert forall i :: 0 <= i < |w| ==> s[i] == w[i];
    assert rest != [] ==> s[|w|] == rest[0];
  }

  /** Splitting a join of words gives the words back. */
  lemma {:induction false} WordsOfJoin(ws: seq<string>)
    requires forall k :: 0 <= k < |ws| ==> IsWord(ws[k])
    ensures Words(Join(ws)) == ws
  {
    if |ws| == 1 {
      var w := ws[0];
      WordLenOfWord(w, []);
      assert w + [] == w;
      assert w[..|w|] == w && w[|w|..] == [];
    } else if |ws| > 1 {
      var w, j := ws[0], Join(ws[1..]);
      var s := w + " " + j;
      assert s == w + (" " + j);
      WordLenOfWord(w, " " + j);
      assert s[..|w|] == w;
      assert s[|w|..] == " " + j;
      assert (" " + j)[1..] == j;
      WordsOfJoin(ws[1..]);
      assert ws == [w] + ws[1..];
    }
  }

  /** Removing one trailing whitespace character does not change the words. */
  lemma {:induction false} WordsDropLastSpace(s: string)
    requires s != [] && IsSpace(Python, s[|s| - 1])
    ensures Words(s[..|s| - 1]) == Words(s)
    decreases |s|, 1
  {
    var t := s[..|s| - 1];
    if |s| == 1 {
    } else if IsSpace(Python, s[0]) {
      WordsDropLastSpace(s[1..]);
      assert t[1..] == s[1..][..|s[1..]| - 1];
    } else {
      WordsDropLastSpaceAfterWord(s);
    }
  }

  /** The case of `WordsDropLastSpace` where `s` starts with a word. */
  lemma {:induction false} WordsDropLastSpaceAfterWord(s: string)
    requires |s| > 1 && IsSpace(Python, s[|s| - 1]) && !IsSpace(Python, s[0])
    ensures Words(s[..|s| - 1]) == Words(s)
    decreases |s|, 0
  {
    var t := s[..|s| - 1];
    var n := WordLen(s);
    WordLenDropLast(s);
    assert t[..n] == s[..n];
    if n < |s| - 1 {
      WordsDropLastSpace(s[n..]);
      assert t[n..] == s[n..][..|s[n..]| - 1];
    } else {
      WordsOfOneSpace(s[n..]);
      assert t[n..] == [];
    }
  }

  lemma WordLenDropLast(s: string)
    requires |s| > 1 && IsSpace(Python, s[|s| - 1])
    ensures WordLen(s) < |s| && WordLen(s[..|s| - 1]) == WordLen(s)
  {
    var t := s[..|s| - 1];
    var n, m := WordLen(s), WordLen(t);
    assert forall i :: 0 <= i < |t| ==> t[i] == s[i];
    assert n < |s|;
  }

  lemma WordsOfOneSpace(s: string)
    requires |s| == 1 && IsSpace(Python, s[0])
    ensures Words(s) == []
  {
    assert s[1..] == [];
  }

  /** Leading whitespace does not change the words. */
  lemma {:induction false} WordsDropLeading(s: string, k: nat)
    requires k <= |s| && forall i :: 0 <= i < k ==> IsSpace(Python, s[i])
    ensures Words(s[k..]) == Words(s)
  {
    if k > 0 {
      WordsDropLeading(s[1..], k - 1);
      assert s[1..][k - 1..] == s[k..];
    }
  }

  /** Trailing whitespace does not change the words. */
  lemma {:induction false} WordsDropTrailing(s: string, k: nat)
    requires k <= |s| && forall i :: k <= i < |s| ==> IsSpace(Python, s[i])
    ensures Words(s[..k]) == Words(s)
    decreases |s| - k
  {
    if k < |s| {
      WordsDropLastSpace(s);
      var t := s[..|s| - 1];
      WordsDropTrailing(t, k);
      assert t[..k] == s[..k];
    } else {
      assert s[..k] == s;
    }
  }

  /** `s.strip().split()` and `s.split()` give the same words. */
  lemma WordsOfStrip(s: string)
    ensures Words(Strip(Python, s)) == Words(s)
  {
    var l, h := LeadingSpaces(Python, s), TrailingStart(Python, s);
    WordsDropLeading(s, l);
    var t := s[l..];
    var k := if h <= l then 0 else h - l;
    forall i | k <= i < |t| ensures IsSpace(Python, t[i]) {
      assert t[i] == s[l + i];
    }
    WordsDropTrailing(t, k);
    if h <= l {
      assert t[..k] == [];
    } else {
      assert t[..k] == s[l..h];
    }
  }

  /** A join of words has no whitespace at either end, no whitespace other than single
      blanks, and never two blanks in a row. */
  lemma {:induction false} JoinShape(ws: seq<string>)
    requires forall k :: 0 <= k < |ws| ==> IsWord(ws[k])
    ensures var j := Join(ws);
      && (j != [] ==> !IsSpace(Python, j[0]) && !IsSpace(Python, j[|j| - 1]))
      && (forall i :: 0 <= i < |j| && IsSpace(Python, j[i]) ==> j[i] == ' ')
      && (forall i :: 0 <= i < |j| - 1 ==> !(j[i] == ' ' && j[i + 1] == ' '))
  {
    if |ws| > 1 {
      var w, j := ws[0], Join(ws[1..]);
      JoinShape(ws[1..]);
      var s := w + " " + j;
      assert j != [] by { assert |j| >= |ws[1]| by { JoinLength(ws[1..]); } }
      forall i | 0 <= i < |s| && IsSpace(Python, s[i]) ensures s[i] == ' ' {
        if i > |w| { assert s[i] == j[i - |w| - 1]; }
      }
      forall i | 0 <= i < |s| - 1 ensures !(s[i] == ' ' && s[i + 1] == ' ') {
        if i > |w| { assert s[i] == j[i - |w| - 1] && s[i + 1] == j[i - |w|]; }
        else if i == |w| { assert s[i + 1] == j[0]; }
      }
      assert s[|s| - 1] == j[|j| - 1];
    }
  }

  lemma {:induction false} JoinLength(ws: seq<string>)
    requires |ws| > 0
    ensures |Join(ws)| >= |ws[0]|
  {
  }

  /** A sequence is its prefix before position k, the element at k and the rest. */
  lemma SplitAround<T>(s: seq<T>, k: nat)
    requires k < |s|
    ensures s == s[..k] + [s[k]] + s[k + 1..]
  {
    assert s == s[..k] + s[k..];
    assert s[k..] == [s[k]] + s[k + 1..];
  }

  lemma ConcatAssoc<T>(a: seq<T>, b: seq<T>, c: seq<T>)
    ensures a + (b + c) == a + b + c
  {
  }
}
