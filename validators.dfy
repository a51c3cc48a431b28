/**
  `Validators` of the server: the email pattern `^[a-zA-Z0-9._%+-]+@[a-zA-Z0-9.-]+\.[a-zA-Z]{2,}$`
  under `re.match`, the password and name checks, and `sanitize_string`. Python's falsy
  values are `None` and the empty string; a missing argument is `None`.
 */
module Validators {
  import opened Wrappers
  import opened Text

  /** The `(bool, str)` pair every validator returns. */
  datatype Check = Check(ok: bool, message: string)

  const Passed := Check(true, "")

  const EmailRequired := "El email es obligatorio"
  const EmailMalformed := "Formato de email inválido"
  const PasswordRequired := "La contraseña es obligatoria"
  const NameRequired := "El nombre es obligatorio"

  predicate IsAsciiLetter(c: char) {
    ('a' <= c <= 'z') || ('A' <= c <= 'Z')
  }

  /** `[a-zA-Z0-9._%+-]` */
  predicate IsLocalChar(c: char) {
    IsAsciiLetter(c) || IsDigit(c) || c == '.' || c == '_' || c == '%' || c == '+' || c == '-'
  }

  /** `[a-zA-Z0-9.-]` */
  predicate IsDomainChar(c: char) {
    IsAsciiLetter(c) || IsDigit(c) || c == '.' || c == '-'
  }

  predicate AllLocal(s: string) {
    forall i :: 0 <= i < |s| ==> IsLocalChar(s[i])
  }

  predicate AllDomain(s: string) {
    forall i :: 0 <= i < |s| ==> IsDomainChar(s[i])
  }

  predicate AllLetters(s: string) {
    forall i :: 0 <= i < |s| ==> IsAsciiLetter(s[i])
  }

  /** The index of the last `c` in `s`, or -1. */
  function LastIndexOf(s: string, c: char): (k: int)
    ensures -1 <= k < |s| && (k >= 0 ==> s[k] == c)
    ensures forall i :: k < i < |s| ==> s[i] != c
  {
    if s == [] then -1
    else if s[|s| - 1] == c then |s| - 1
    else LastIndexOf(s[..|s| - 1], c)
  }

  /** What follows the '@': domain characters whose last '.' has a non-empty part before it and
      at least two letters after it. (The letters after a `\.` cannot contain a '.', so the
      dot the pattern matches is the last one.) */
  predicate IsPyHost(r: string) {
    && AllDomain(r)
    && var p := LastIndexOf(r, '.');
       p >= 1 && |r| - p - 1 >= 2 && AllLetters(r[p + 1..])
  }

  /** The part of the pattern before `$`: local characters up to the first '@', then a host. */
  predicate IsPyEmail(s: string) {
    var at := IndexOf(s, '@');
    at < |s| && at >= 1 && AllLocal(s[..at]) && IsPyHost(s[at + 1..])
  }

  /** `re.match(pattern, s)`: `$` also matches just before one final "\n". */
  predicate MatchesEmailPattern(s: string) {
    IsPyEmail(s) || (|s| > 0 && s[|s| - 1] == '\n' && IsPyEmail(s[..|s| - 1]))
  }

  /** Any local part, '@', domain, '.', and two or more letters is accepted. */
  lemma PyEmailComposed(l: string, d: string, t: string)
    requires |l| > 0 && AllLocal(l) && |d| > 0 && AllDomain(d) && |t| >= 2 && AllLetters(t)
    ensures IsPyEmail(l + "@" + d + "." + t)
  {
    var r := d + "." + t;
    var s := l + "@" + r;
    assert s == l + "@" + d + "." + t;
    assert forall i :: 0 <= i < |l| ==> s[i] == l[i];
    assert s[|l|] == '@';
    assert IndexOf(s, '@') == |l|;
    assert s[..|l|] == l;
    assert s[|l| + 1..] == r;
    PyHostComposed(d, t);
  }

  lemma PyHostComposed(d: string, t: string)
    requires |d| > 0 && AllDomain(d) && |t| >= 2 && AllLetters(t)
    ensures IsPyHost(d + "." + t)
  {
    var r := d + "." + t;
    assert r[|d|] == '.';
    forall i | 0 <= i < |r| ensures IsDomainChar(r[i]) {
      if i < |d| { assert r[i] == d[i]; }
      else if i > |d| { assert r[i] == t[i - |d| - 1]; }
    }
    forall i | |d| < i < |r| ensures r[i] != '.' {
      assert r[i] == t[i - |d| - 1];
    }
    assert r[|d| + 1..] == t;
  }

  /** Conversely, an accepted address splits as local@domain.letters. */
  lemma PyEmailDecomposed(s: string) returns (l: string, d: string, t: string)
    requires IsPyEmail(s)
    ensures |l| > 0 && AllLocal(l) && |d| > 0 && AllDomain(d) && |t| >= 2 && AllLetters(t)
    ensures s == l + "@" + d + "." + t
  {
    var at := IndexOf(s, '@');
    var r := s[at + 1..];
    l := s[..at];
    d, t := PyHostDecomposed(r);
    SplitAround(s, at);
    assert [s[at]] == "@";
    ConcatAssoc(l + "@", d + ".", t);
    ConcatAssoc(l + "@", d, ".");
  }

  lemma PyHostDecomposed(r: string) returns (d: string, t: string)
    requires IsPyHost(r)
    ensures |d| > 0 && AllDomain(d) && |t| >= 2 && AllLetters(t)
    ensures r == d + "." + t
  {
    var p := LastIndexOf(r, '.');
    d, t := r[..p], r[p + 1..];
    forall i | 0 <= i < |d| ensures IsDomainChar(d[i]) {
      assert d[i] == r[i];
    }
    assert r == d + "." + t;
  }

  /** An accepted address has exactly one '@' and ends with a letter. */
  lemma PyEmailShape(s: string)
    requires IsPyEmail(s)
    ensures exists k :: 0 <= k < |s| && s[k] == '@'
    ensures forall i, j :: 0 <= i < j < |s| && s[i] == '@' ==> s[j] != '@'
    ensures IsAsciiLetter(s[|s| - 1])
  {
    var at := IndexOf(s, '@');
    var r := s[at + 1..];
    forall i, j | 0 <= i < j < |s| && s[i] == '@'
      ensures s[j] != '@'
    {
      assert s[j] == r[j - at - 1];
    }
    assert s[|s| - 1] == r[|r| - 1] == r[LastIndexOf(r, '.') + 1..][|r| - LastIndexOf(r, '.') - 2];
  }

  /** One trailing newline after an accepted address is tolerated by `$`, although the
      address with the newline is not itself of the accepted form. */
  lemma TrailingNewlineAccepted(s: string)
    requires IsPyEmail(s)
    ensures MatchesEmailPattern(s + "\n") && !IsPyEmail(s + "\n")
  {
    var n := s + "\n";
    assert n[..|n| - 1] == s;
    assert !IsAsciiLetter(n[|n| - 1]);
    if IsPyEmail(n) {
      PyEmailShape(n);
    }
  }

  /** `validate_email`. */
  function ValidateEmail(email: Option<string>): (c: Check)
    ensures c.ok <==> email.Some? && MatchesEmailPattern(email.value)
    ensures c.ok ==> c == Passed
    ensures (email.None? || email.value == "") ==> c == Check(false, EmailRequired)
    ensures email.Some? && email.value != "" && !MatchesEmailPattern(email.value) ==> c == Check(false, EmailMalformed)
  {
    if email.None? || email.value == "" then Check(false, EmailRequired)
    else if !MatchesEmailPattern(email.value) then Check(false, EmailMalformed)
    else Passed
  }

  /** `f"La contraseña debe tener al menos {min_length} caracteres"`. */
  function PasswordTooShort(minLength: int): string {
    "La contraseña debe tener al menos " + IntToString(minLength) + " caracteres"
  }

  /** `f"El nombre debe tener al menos {min_length} caracteres"`. */
  function NameTooShort(minLength: int): string {
    "El nombre debe tener al menos " + IntToString(minLength) + " caracteres"
  }

  /** `validate_password`: a length equal to `minLength` is enough. */
  function ValidatePassword(password: Option<string>, minLength: int := 6): (c: Check)
    ensures c.ok <==> password.Some? && password.value != "" && |password.value| >= minLength
    ensures c.ok ==> c == Passed
    ensures (password.None? || password.value == "") ==> c == Check(false, PasswordRequired)
    ensures password.Some? && password.value != "" && |password.value| < minLength ==>
      c == Check(false, PasswordTooShort(minLength))
  {
    if password.None? || password.value == "" then Check(false, PasswordRequired)
    else if |password.value| < minLength then Check(false, PasswordTooShort(minLength))
    else Passed
  }

  /** `validate_name`: the length that counts is the stripped one. */
  function ValidateName(name: Option<string>, minLength: int := 2): (c: Check)
    ensures c.ok <==> name.Some? && Strip(Python, name.value) != [] && |Strip(Python, name.value)| >= minLength
    ensures c.ok ==> c == Passed
    ensures (name.None? || AllSpace(Python, name.value)) ==> c == Check(false, NameRequired)
    ensures name.Some? && !AllSpace(Python, name.value) && |Strip(Python, name.value)| < minLength ==>
      c == Check(false, NameTooShort(minLength))
  {
    if name.None? || name.value == "" || Strip(Python, name.value) == [] then
      StripBlankFor(name);
      Check(false, NameRequired)
    else if |Strip(Python, name.value)| < minLength then
      Check(false, NameTooShort(minLength))
    else
      Passed
  }

  lemma StripBlankFor(name: Option<string>)
    ensures name.Some? ==> (Strip(Python, name.value) == [] <==> AllSpace(Python, name.value))
  {
    if name.Some? {
      StripBlank(Python, name.value);
    }
  }

  /** `sanitize_string`: falsy input gives "", anything else is stripped and its runs of
      whitespace collapsed to one space. */
  function SanitizeString(text: Option<string>): string {
    if text.None? || text.value == "" then "" else Join(Words(Strip(Python, text.value)))
  }

  /** The words of `text.split()`, for `None` none. */
  function WordsOf(text: Option<string>): seq<string> {
    if text.None? then [] else Words(text.value)
  }

  /** The result keeps exactly the input's words, in order. */
  lemma SanitizeKeepsWords(text: Option<string>)
    ensures Words(SanitizeString(text)) == WordsOf(text)
  {
    if text.Some? && text.value != "" {
      WordsOfStrip(text.value);
      WordsOfJoin(Words(text.value));
    }
  }

  /** The result neither starts nor ends with whitespace, its only whitespace is ' ', and it
      never has two spaces in a row. */
  lemma SanitizeShape(text: Option<string>)
    ensures var r := SanitizeString(text);
      && (r != [] ==> !IsSpace(Python, r[0]) && !IsSpace(Python, r[|r| - 1]))
      && (forall i :: 0 <= i < |r| && IsSpace(Python, r[i]) ==> r[i] == ' ')
      && (forall i :: 0 <= i < |r| - 1 ==> !(r[i] == ' ' && r[i + 1] == ' '))
  {
    if text.Some? && text.value != "" {
      JoinShape(Words(Strip(Python, text.value)));
    }
  }

  /** Sanitizing twice is sanitizing once. */
  lemma SanitizeIdempotent(text: Option<string>)
    ensures SanitizeString(Some(SanitizeString(text))) == SanitizeString(text)
  {
    var r := SanitizeString(text);
    if r != "" {
      var ws := Words(Strip(Python, text.value));
      WordsOfJoin(ws);
      WordsOfStrip(r);
    }
  }
}
