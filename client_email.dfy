/**
  The e-mail shape check `/^[^\s@]+@[^\s@]+\.[^\s@]+$/` that the login, registration and
  password-recovery pages each declare as `validateEmail`, with the result shape and the
  messages their form validators share.
 */
module ClientEmail {
  import opened Text

  /** `{ isValid: true }` or `{ isValid: false, error }`. */
  datatype Validation = Valid | Invalid(error: string)

  const EmailRequired := "El correo electrónico es obligatorio"
  const EmailMalformed := "Por favor ingresa un correo electrónico válido"
  const PasswordTooShort := "La contraseña debe tener al menos 6 caracteres"
  const PasswordsDiffer := "Las contraseñas no coinciden"

  /** A run matched by `[^\s@]+`: non-empty, without whitespace and without '@'. */
  predicate IsAtom(s: string) {
    |s| > 0 && forall i :: 0 <= i < |s| ==> !IsSpace(JavaScript, s[i]) && s[i] != '@'
  }

  /** What follows the '@': `[^\s@]+\.[^\s@]+`, an atom holding a '.' that is neither its
      first nor its last character. */
  predicate IsHost(h: string) {
    IsAtom(h) && exists k :: 0 < k < |h| - 1 && h[k] == '.'
  }

  /** `emailRegex.test(email)`. */
  function ValidateEmail(email: string): bool {
    var at := IndexOf(email, '@');
    at < |email| && IsAtom(email[..at]) && IsHost(email[at + 1..])
  }

  /** Every string of the form a@b.c with a, b, c non-empty and free of whitespace and '@'
      is accepted. */
  lemma AcceptsComposed(a: string, b: string, c: string)
    requires IsAtom(a) && IsAtom(b) && IsAtom(c)
    ensures ValidateEmail(a + "@" + b + "." + c)
  {
    var h := b + "." + c;
    var s := a + "@" + h;
    assert s == a + "@" + b + "." + c;
    assert s[|a|] == '@';
    assert forall i :: 0 <= i < |a| ==> s[i] == a[i];
    assert IndexOf(s, '@') == |a|;
    assert s[..|a|] == a;
    assert s[|a| + 1..] == h;
    HostComposed(b, c);
  }

  lemma HostComposed(b: string, c: string)
    requires IsAtom(b) && IsAtom(c)
    ensures IsHost(b + "." + c)
  {
    var h := b + "." + c;
    assert h[|b|] == '.';
    forall i | 0 <= i < |h| ensures !IsSpace(JavaScript, h[i]) && h[i] != '@' {
      if i < |b| { assert h[i] == b[i]; }
      else if i > |b| { assert h[i] == c[i - |b| - 1]; }
    }
  }

  /** Conversely, every accepted string splits as a@b.c with a, b, c non-empty and free of
      whitespace and '@'. */
  lemma DecomposeAccepted(s: string) returns (a: string, b: string, c: string)
    requires ValidateEmail(s)
    ensures IsAtom(a) && IsAtom(b) && IsAtom(c)
    ensures s == a + "@" + b + "." + c
  {
    var at := IndexOf(s, '@');
    var h := s[at + 1..];
    var k :| 0 < k < |h| - 1 && h[k] == '.';
    a, b, c := s[..at], h[..k], h[k + 1..];
    assert h == b + "." + c;
    assert s == a + "@" + h;
  }

  /** An accepted address contains no whitespace at all, so it is never blank. */
  lemma AcceptedHasNoSpace(s: string)
    requires ValidateEmail(s)
    ensures forall i :: 0 <= i < |s| ==> !IsSpace(JavaScript, s[i])
    ensures Strip(JavaScript, s) != []
  {
    var at := IndexOf(s, '@');
    var h := s[at + 1..];
    forall i | 0 <= i < |s| ensures !IsSpace(JavaScript, s[i]) {
      if i < at { assert s[i] == s[..at][i]; }
      else if i > at { assert s[i] == h[i - at - 1]; }
    }
    StripBlank(JavaScript, s);
  }
}
