/**
  `PasswordResetService`: the request, verification, reset and resend operations, each an
  ordered sequence of table reads and changes with early returns. Every operation is given
  as a function of the tables (its specification) and as a method that performs the same
  steps on the `Database`. Sending mail is an output (`Mail`) plus, where the service looks
  at it, a success flag; bcrypt hashing is the `passwordHash` parameter.
 */
module ResetService {
  import opened Wrappers
  import opened Text
  import opened ResetTokens

  /** A mail the service asks `EmailService` to send. */
  datatype Mail =
    | ResetCode(to: string, code: string, userName: string)
    | PasswordChanged(to: string, userName: string)

  /** The `(bool, Optional[str])` pair every operation returns. */
  datatype Outcome = Outcome(ok: bool, error: Option<string>)

  /** The result of a request or resend: the outcome, the mail attempted and the new token table. */
  datatype RequestEffect = RequestEffect(outcome: Outcome, mail: Option<Mail>, tokens: seq<Row>)

  /** The result of a reset: also the new user table. */
  datatype ResetEffect = ResetEffect(outcome: Outcome, mail: Option<Mail>, users: seq<Account>, tokens: seq<Row>)

  const EmailRequired := "El email es obligatorio"
  const TokenFailed := "Error al generar código de recuperación"
  const SendFailed := "Error al enviar el email"
  const CodeFieldsRequired := "Email y código son obligatorios"
  const CodeLength := "El código debe tener 6 dígitos"
  const CodeInvalid := "Código inválido o expirado"
  const FieldsRequired := "Todos los campos son obligatorios"
  const PasswordTooShort := "La contraseña debe tener al menos 6 caracteres"
  const UserNotFound := "Usuario no encontrado"
  const UpdateFailed := "Error al actualizar la contraseña"

  /** The lifetime `create_reset_token` gives a code by default: 15 minutes. */
  const CodeLifetime := 60 * 15

  /** A code created less than this many seconds ago is re-sent instead of replaced. */
  const ResendWindow := 60 * 2

  function Fail(message: string): Outcome {
    Outcome(false, Some(message))
  }

  const Done := Outcome(true, None)

  /** `email.lower().strip()`. */
  function Normalize(email: string): string {
    Strip(Python, AsciiLower(email))
  }

  /** `not email or not email.strip()`. */
  predicate Blank(email: string) {
    Strip(Python, email) == []
  }

  /** The truth value of the `user_id` that `verify_token` returns. */
  predicate Truthy(id: Option<string>) {
    id.Some? && id.value != ""
  }

  /** `user.name or user.email`. */
  function DisplayName(a: Account): string {
    if a.name.Some? && a.name.value != "" then a.name.value else a.email
  }

  /** The position of an account known to be in the table. */
  function IndexOfAccount(users: seq<Account>, a: Account): (k: nat)
    requires a in users
    ensures k < |users| && users[k] == a
  {
    if users[0] == a then 0 else 1 + IndexOfAccount(users[1..], a)
  }

  /** `request_password_reset`. `draws` are the six random digits of the new code, `insertOk`
      whether its INSERT succeeds and `sendOk` whether the mail goes out. A blank email is an
      error, an unknown one is a silent success, and neither touches the table. */
  function RequestSpec(users: seq<Account>, tokens: seq<Row>, now: int, email: string,
                       draws: seq<nat>, insertOk: bool, sendOk: bool): (r: RequestEffect)
    requires |draws| == 6 && forall i :: 0 <= i < 6 ==> draws[i] < 10
    ensures Blank(email) ==> r == RequestEffect(Fail(EmailRequired), None, tokens)
    ensures !Blank(email) && FindByEmail(users, Normalize(email)).None? ==> r == RequestEffect(Done, None, tokens)
    ensures r.outcome.ok <==> r.outcome.error == None
  {
    if Blank(email) then RequestEffect(Fail(EmailRequired), None, tokens)
    else
      match FindByEmail(users, Normalize(email))
      case None => RequestEffect(Done, None, tokens)
      case Some(a) => IssueCode(tokens, now, a, draws, insertOk, sendOk)
  }

  /** The part of `request_password_reset` after the user is found: invalidate the user's
      codes, store a new one, mail it. A failed INSERT still leaves the old codes invalidated;
      a failed mail still leaves the new code stored. */
  function IssueCode(tokens: seq<Row>, now: int, a: Account, draws: seq<nat>, insertOk: bool, sendOk: bool): (r: RequestEffect)
    requires |draws| == 6 && forall i :: 0 <= i < 6 ==> draws[i] < 10
    ensures r.outcome.ok <==> r.outcome.error == None
    ensures r.outcome.ok <==> insertOk && sendOk
    ensures !insertOk ==> r == RequestEffect(Fail(TokenFailed), None, Invalidated(tokens, a.id))
    ensures insertOk ==>
      && r.mail == Some(ResetCode(a.email, GenerateToken(draws), DisplayName(a)))
      && r.tokens == Invalidated(tokens, a.id) + [Row(a.id, GenerateToken(draws), now + CodeLifetime, false, now)]
      && (!sendOk ==> r.outcome == Fail(SendFailed))
  {
    var invalidated := Invalidated(tokens, a.id);
    if !insertOk then RequestEffect(Fail(TokenFailed), None, invalidated)
    else
      var code := GenerateToken(draws);
      var rows := invalidated + [Row(a.id, code, now + CodeLifetime, false, now)];
      var mail := Some(ResetCode(a.email, code, DisplayName(a)));
      if !sendOk then RequestEffect(Fail(SendFailed), mail, rows)
      else RequestEffect(Done, mail, rows)
  }

  /** `verify_reset_code`: a pure check that never changes a table. */
  function VerifyResetCode(users: seq<Account>, tokens: seq<Row>, email: string, code: string, now: int): (o: Outcome)
    ensures o.ok <==> o.error == None
    ensures (email == "" || code == "") ==> o == Fail(CodeFieldsRequired)
    ensures email != "" && code != "" && |Strip(Python, code)| != 6 ==> o == Fail(CodeLength)
    ensures o.ok ==> Truthy(VerifyToken(users, tokens, Normalize(email), Strip(Python, code), now))
    ensures email != "" && code != "" && |Strip(Python, code)| == 6 ==>
      (o.ok <==> Truthy(VerifyToken(users, tokens, Normalize(email), Strip(Python, code), now)))
    ensures !o.ok && email != "" && code != "" && |Strip(Python, code)| == 6 ==> o == Fail(CodeInvalid)
  {
    if email == "" || code == "" then Fail(CodeFieldsRequired)
    else if |Strip(Python, code)| != 6 then Fail(CodeLength)
    else if !Truthy(VerifyToken(users, tokens, Normalize(email), Strip(Python, code), now)) then Fail(CodeInvalid)
    else Done
  }

  /** `reset_password`: the checks in order, then the password update and the consumption of
      the code; any failure leaves both tables as they were. */
  function ResetSpec(users: seq<Account>, tokens: seq<Row>, now: int, email: string, code: string,
                     newPassword: string, passwordHash: string): (r: ResetEffect)
    ensures !r.outcome.ok ==> r.users == users && r.tokens == tokens && r.mail == None
    ensures r.outcome.ok <==> r.outcome.error == None
    ensures (email == "" || code == "" || newPassword == "") ==> r.outcome == Fail(FieldsRequired)
    ensures email != "" && code != "" && newPassword != "" && |newPassword| < 6 ==> r.outcome == Fail(PasswordTooShort)
    ensures r.outcome.ok ==> |newPassword| >= 6
    ensures email != "" && code != "" && |newPassword| >= 6 ==>
      var v := VerifyToken(users, tokens, Normalize(email), Strip(Python, code), now);
      (r.outcome.ok <==> Truthy(v) && FindById(users, v.value).Some?)
  {
    if email == "" || code == "" || newPassword == "" then ResetEffect(Fail(FieldsRequired), None, users, tokens)
    else if |newPassword| < 6 then ResetEffect(Fail(PasswordTooShort), None, users, tokens)
    else ResetWithCode(users, tokens, now, Normalize(email), Strip(Python, code), passwordHash)
  }

  /** The part of `reset_password` after the field checks, on the normalized email and the
      stripped code. The code alone is checked against the table (its length is not, unlike
      in `verify_reset_code`); on success the hash is stored and every row of that user with
      that code is marked used. */
  function ResetWithCode(users: seq<Account>, tokens: seq<Row>, now: int, email: string, code: string,
                         passwordHash: string): (r: ResetEffect)
    ensures !r.outcome.ok ==> r.users == users && r.tokens == tokens && r.mail == None
    ensures r.outcome.ok <==> r.outcome.error == None
    ensures r.outcome.ok ==> Truthy(VerifyToken(users, tokens, email, code, now))
    ensures r.outcome.ok ==> var userId := VerifyToken(users, tokens, email, code, now).value;
      r.users == WithPassword(users, userId, passwordHash, now) && r.tokens == MarkedUsed(tokens, userId, code)
    ensures !Truthy(VerifyToken(users, tokens, email, code, now)) ==> r.outcome == Fail(CodeInvalid)
    ensures var v := VerifyToken(users, tokens, email, code, now);
      Truthy(v) && FindById(users, v.value).None? ==> r.outcome == Fail(UserNotFound)
    ensures var v := VerifyToken(users, tokens, email, code, now);
      Truthy(v) && FindById(users, v.value).Some? ==>
        var a := FindById(users, v.value).value;
        r.outcome.ok && r.mail == Some(PasswordChanged(a.email, DisplayName(a)))
  {
    var userId := VerifyToken(users, tokens, email, code, now);
    if !Truthy(userId) then ResetEffect(Fail(CodeInvalid), None, users, tokens)
    else
      match FindById(users, userId.value)
      case None => ResetEffect(Fail(UserNotFound), None, users, tokens)
      case Some(a) =>
        assert users[IndexOfAccount(users, a)].id == userId.value;
        if !(exists i :: 0 <= i < |users| && users[i].id == userId.value) then
          ResetEffect(Fail(UpdateFailed), None, users, tokens)
        else
          ResetEffect(Done, Some(PasswordChanged(a.email, DisplayName(a))),
                      WithPassword(users, userId.value, passwordHash, now), MarkedUsed(tokens, userId.value, code))
  }

  /** `resend_code`: a still-active code younger than two minutes is mailed again and the
      table is left alone (whether that mail goes out is not looked at); in every other case
      it is `request_password_reset`. */
  function ResendSpec(users: seq<Account>, tokens: seq<Row>, now: int, email: string,
                      draws: seq<nat>, insertOk: bool, sendOk: bool): (r: RequestEffect)
    requires |draws| == 6 && forall i :: 0 <= i < 6 ==> draws[i] < 10
    ensures Blank(email) ==> r == RequestEffect(Fail(EmailRequired), None, tokens)
    ensures !Blank(email) && FindByEmail(users, Normalize(email)).None? ==> r == RequestEffect(Done, None, tokens)
    ensures r.outcome.ok <==> r.outcome.error == None
  {
    if Blank(email) then RequestEffect(Fail(EmailRequired), None, tokens)
    else
      match FindByEmail(users, Normalize(email))
      case None => RequestEffect(Done, None, tokens)
      case Some(a) =>
        var active := GetActiveToken(tokens, a.id, now);
        if active.Some? && now - active.value.createdAt < ResendWindow then
          RequestEffect(Done, Some(ResetCode(a.email, active.value.token, DisplayName(a))), tokens)
        else RequestSpec(users, tokens, now, email, draws, insertOk, sendOk)
  }

  /** A resend within the window mails the user's active code to the user's address and
      changes nothing, even when sending fails. */
  lemma ResendWithinWindow(users: seq<Account>, tokens: seq<Row>, now: int, email: string,
                           draws: seq<nat>, insertOk: bool, sendOk: bool)
    requires |draws| == 6 && forall i :: 0 <= i < 6 ==> draws[i] < 10
    requires !Blank(email) && FindByEmail(users, Normalize(email)).Some?
    requires var active := GetActiveToken(tokens, FindByEmail(users, Normalize(email)).value.id, now);
      active.Some? && now - active.value.createdAt < ResendWindow
    ensures var a := FindByEmail(users, Normalize(email)).value;
      var active := GetActiveToken(tokens, a.id, now).value;
      var r := ResendSpec(users, tokens, now, email, draws, insertOk, sendOk);
      && r.tokens == tokens && r.outcome == Done
      && r.mail == Some(ResetCode(a.email, active.token, DisplayName(a)))
      && active.userId == a.id && !active.used && active.expiresAt > now
  {
  }

  /** Without an active code, or with one at least two minutes old, a resend is a new request. */
  lemma ResendOutsideWindow(users: seq<Account>, tokens: seq<Row>, now: int, email: string,
                            draws: seq<nat>, insertOk: bool, sendOk: bool)
    requires |draws| == 6 && forall i :: 0 <= i < 6 ==> draws[i] < 10
    requires !Blank(email) && FindByEmail(users, Normalize(email)).Some?
    requires var active := GetActiveToken(tokens, FindByEmail(users, Normalize(email)).value.id, now);
      active.None? || now - active.value.createdAt >= ResendWindow
    ensures ResendSpec(users, tokens, now, email, draws, insertOk, sendOk)
      == RequestSpec(users, tokens, now, email, draws, insertOk, sendOk)
  {
  }

  /** After `IssueCode` the user has exactly one unused row, the new one; it is the user's
      active token until it expires, and it verifies for any email the user holds. */
  lemma {:induction false} IssuedRow(users: seq<Account>, tokens: seq<Row>, now: int, a: Account, email: string,
                                     draws: seq<nat>, sendOk: bool, t: int)
    requires |draws| == 6 && forall i :: 0 <= i < 6 ==> draws[i] < 10
    requires forall i :: 0 <= i < |tokens| ==> tokens[i].createdAt <= now
    requires a.id in IdsWithEmail(users, email) && t <= now + CodeLifetime
    ensures var r := IssueCode(tokens, now, a, draws, true, sendOk);
      && UnusedOf(r.tokens, a.id) == 1
      && (t < now + CodeLifetime ==> GetActiveToken(r.tokens, a.id, t).Some?)
      && VerifyToken(users, r.tokens, email, GenerateToken(draws), t) == Some(a.id)
  {
    var invalidated := Invalidated(tokens, a.id);
    var row := Row(a.id, GenerateToken(draws), now + CodeLifetime, false, now);
    var rows := invalidated + [row];
    NoUnusedAfterInvalidate(tokens, a.id);
    assert rows[..|rows| - 1] == invalidated;
    if t < now + CodeLifetime {
      NewRowIsActive(invalidated, row, t);
    }
    NewRowVerifies(users, invalidated, email, row, t);
  }

  /** A successful request leaves the user exactly one unused code, that code is the user's
      active token, and the code mailed verifies with the same email for its whole lifetime. */
  lemma {:induction false} RequestIssuesCode(users: seq<Account>, tokens: seq<Row>, now: int, email: string,
                                             draws: seq<nat>, sendOk: bool, t: int)
    requires |draws| == 6 && forall i :: 0 <= i < 6 ==> draws[i] < 10
    requires forall i :: 0 <= i < |users| ==> users[i].id != ""
    requires forall i :: 0 <= i < |tokens| ==> tokens[i].createdAt <= now
    requires !Blank(email) && FindByEmail(users, Normalize(email)).Some?
    requires t <= now + CodeLifetime
    ensures var a := FindByEmail(users, Normalize(email)).value;
      var r := RequestSpec(users, tokens, now, email, draws, true, sendOk);
      && r.mail == Some(ResetCode(a.email, GenerateToken(draws), DisplayName(a)))
      && UnusedOf(r.tokens, a.id) == 1
      && (t < now + CodeLifetime ==> GetActiveToken(r.tokens, a.id, t).Some?)
      && VerifyResetCode(users, r.tokens, email, GenerateToken(draws), t).ok
  {
    var e := Normalize(email);
    var a := FindByEmail(users, e).value;
    var k :| 0 <= k < |users| && users[k] == a;
    assert a.id in IdsWithEmail(users, e);
    IssuedRow(users, tokens, now, a, e, draws, sendOk, t);
    DigitsNoSpace(Python, GenerateToken(draws));
    assert email != "" by { assert Strip(Python, "") == []; }
  }

  /** A reset with filled-in fields and a code that verifies to an active user succeeds. */
  lemma VerifiedResetSucceeds(users: seq<Account>, tokens: seq<Row>, t: int, email: string, code: string,
                              newPassword: string, passwordHash: string, a: Account)
    requires email != "" && code != "" && |newPassword| >= 6
    requires a in users && a.isActive && a.id != ""
    requires VerifyToken(users, tokens, Normalize(email), Strip(Python, code), t) == Some(a.id)
    ensures ResetSpec(users, tokens, t, email, code, newPassword, passwordHash).outcome.ok
  {
    var k := IndexOfAccount(users, a);
    assert FindById(users, a.id).Some? by { assert users[k].id == a.id && users[k].isActive; }
  }

  /** The code a request mails resets the password while it lives: for an address the request
      found, any new password of at least six characters succeeds with that code. */
  lemma {:induction false} RequestThenReset(users: seq<Account>, tokens: seq<Row>, now: int, email: string,
                                            draws: seq<nat>, sendOk: bool, newPassword: string,
                                            passwordHash: string, t: int)
    requires |draws| == 6 && forall i :: 0 <= i < 6 ==> draws[i] < 10
    requires forall i :: 0 <= i < |users| ==> users[i].id != ""
    requires forall i :: 0 <= i < |tokens| ==> tokens[i].createdAt <= now
    requires !Blank(email) && FindByEmail(users, Normalize(email)).Some?
    requires t <= now + CodeLifetime && |newPassword| >= 6
    ensures var r := RequestSpec(users, tokens, now, email, draws, true, sendOk);
      ResetSpec(users, r.tokens, t, email, GenerateToken(draws), newPassword, passwordHash).outcome.ok
  {
    var e := Normalize(email);
    var a := FindByEmail(users, e).value;
    var k := IndexOfAccount(users, a);
    assert a.id in IdsWithEmail(users, e);
    var rows := IssueCode(tokens, now, a, draws, true, sendOk).tokens;
    IssuedRow(users, tokens, now, a, e, draws, sendOk, t);
    var code := GenerateToken(draws);
    DigitsNoSpace(Python, code);
    assert email != "" by { assert Strip(Python, "") == []; }
    assert a.id != "" by { assert users[k] == a; }
    VerifiedResetSucceeds(users, rows, t, email, code, newPassword, passwordHash, a);
  }

  /** Storing a hash for a user and marking that user's rows with a code used: the code no
      longer verifies with an email only that user holds, and the hash is stored. */
  lemma {:induction false} UpdateAndMarkConsume(users: seq<Account>, tokens: seq<Row>, now: int, email: string,
                                                userId: string, code: string, passwordHash: string, t: int)
    requires UniqueEmails(users) && userId in IdsWithEmail(users, email)
    ensures var after := WithPassword(users, userId, passwordHash, now);
      && VerifyToken(after, MarkedUsed(tokens, userId, code), email, code, t) == None
      && exists i :: 0 <= i < |after| && after[i].passwordHash == passwordHash
  {
    var after := WithPassword(users, userId, passwordHash, now);
    var i :| 0 <= i < |users| && users[i].email == email && users[i].id == userId;
    assert IdsWithEmail(after, email) <= {userId} by {
      forall id | id in IdsWithEmail(after, email)
        ensures id == userId
      {
        var j :| 0 <= j < |after| && after[j].email == email && after[j].id == id;
        assert users[j].email == email;
      }
    }
    VerifyFailsAfterMark(after, tokens, email, userId, code, t);
    assert after[i].passwordHash == passwordHash;
  }

  /** After a successful reset step the code no longer verifies with that email, at any time,
      and the user's stored hash is the new one. */
  lemma {:induction false} ResetWithCodeConsumes(users: seq<Account>, tokens: seq<Row>, now: int, email: string,
                                                 code: string, passwordHash: string, t: int)
    requires UniqueEmails(users)
    requires ResetWithCode(users, tokens, now, email, code, passwordHash).outcome.ok
    ensures var r := ResetWithCode(users, tokens, now, email, code, passwordHash);
      && VerifyToken(r.users, r.tokens, email, code, t) == None
      && exists i :: 0 <= i < |r.users| && r.users[i].passwordHash == passwordHash
  {
    var userId := VerifyToken(users, tokens, email, code, now).value;
    UpdateAndMarkConsume(users, tokens, now, email, userId, code, passwordHash, t);
  }

  /** After a successful reset the same email and code no longer verify, at any time, and the
      user's stored hash is the new one. */
  lemma {:induction false} ResetConsumesCode(users: seq<Account>, tokens: seq<Row>, now: int, email: string, code: string,
                                             newPassword: string, passwordHash: string, t: int)
    requires UniqueEmails(users)
    requires ResetSpec(users, tokens, now, email, code, newPassword, passwordHash).outcome.ok
    ensures var r := ResetSpec(users, tokens, now, email, code, newPassword, passwordHash);
      && !VerifyResetCode(r.users, r.tokens, email, code, t).ok
      && exists i :: 0 <= i < |r.users| && r.users[i].passwordHash == passwordHash
  {
    ResetWithCodeConsumes(users, tokens, now, Normalize(email), Strip(Python, code), passwordHash, t);
  }

  /** `request_password_reset` on the database: invalidate, create, send. */
  method RequestPasswordReset(db: Database, email: string, draws: seq<nat>, insertOk: bool, sendOk: bool)
    returns (outcome: Outcome, mail: Option<Mail>)
    requires db.Valid() && |draws| == 6 && forall i :: 0 <= i < 6 ==> draws[i] < 10
    modifies db`tokens
    ensures db.Valid()
    ensures RequestEffect(outcome, mail, db.tokens) == RequestSpec(db.users, old(db.tokens), db.now, email, draws, insertOk, sendOk)
  {
    if Blank(email) {
      return Fail(EmailRequired), None;
    }
    var user := FindByEmail(db.users, Normalize(email));
    if user.None? {
      return Done, None;
    }
    var a := user.value;
    var _ := db.InvalidateOldTokens(a.id);
    var token := db.CreateResetToken(a.id, draws, insertOk);
    if token.None? {
      return Fail(TokenFailed), None;
    }
    mail := Some(ResetCode(a.email, token.value, DisplayName(a)));
    if !sendOk {
      return Fail(SendFailed), mail;
    }
    outcome := Done;
  }

  /** `reset_password` on the database: verify, look the user up, update, mark the code used,
      notify. */
  method ResetPassword(db: Database, email: string, code: string, newPassword: string, passwordHash: string)
    returns (outcome: Outcome, mail: Option<Mail>)
    requires db.Valid()
    modifies db`users, db`tokens
    ensures db.Valid()
    ensures ResetEffect(outcome, mail, db.users, db.tokens)
      == ResetSpec(old(db.users), old(db.tokens), db.now, email, code, newPassword, passwordHash)
  {
    if email == "" || code == "" || newPassword == "" {
      return Fail(FieldsRequired), None;
    }
    if |newPassword| < 6 {
      return Fail(PasswordTooShort), None;
    }
    var code' := Strip(Python, code);
    var userId := db.CheckToken(Normalize(email), code');
    if !Truthy(userId) {
      return Fail(CodeInvalid), None;
    }
    var user := FindById(db.users, userId.value);
    if user.None? {
      return Fail(UserNotFound), None;
    }
    var rowcount := db.UpdatePassword(userId.value, passwordHash);
    if rowcount == 0 {
      return Fail(UpdateFailed), None;
    }
    var _ := db.MarkTokenAsUsed(userId.value, code');
    mail := Some(PasswordChanged(user.value.email, DisplayName(user.value)));
    outcome := Done;
  }

  /** `resend_code` on the database. */
  method ResendCode(db: Database, email: string, draws: seq<nat>, insertOk: bool, sendOk: bool)
    returns (outcome: Outcome, mail: Option<Mail>)
    requires db.Valid() && |draws| == 6 && forall i :: 0 <= i < 6 ==> draws[i] < 10
    modifies db`tokens
    ensures db.Valid()
    ensures RequestEffect(outcome, mail, db.tokens) == ResendSpec(db.users, old(db.tokens), db.now, email, draws, insertOk, sendOk)
  {
    if Blank(email) {
      return Fail(EmailRequired), None;
    }
    var user := FindByEmail(db.users, Normalize(email));
    if user.None? {
      return Done, None;
    }
    var a := user.value;
    var active := GetActiveToken(db.tokens, a.id, db.now);
    if active.Some? && db.now - active.value.createdAt < ResendWindow {
      return Done, Some(ResetCode(a.email, active.value.token, DisplayName(a)));
    }
    outcome, mail := RequestPasswordReset(db, email, draws, insertOk, sendOk);
  }
}
