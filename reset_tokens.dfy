/**
  The `password_reset_tokens` table and the queries of `PasswordResetRepository` (the last of
  the three class bodies in its file, the one Python keeps), together with the two user
  lookups of `UserRepository` that the reset service relies on. Time is a whole number of
  seconds, and one clock serves both `datetime.now()` and the database's `NOW()`.
 */
module ResetTokens {
  import opened Wrappers
  import opened Text

  /** One row of `password_reset_tokens`; `created_at` is filled in by the database. */
  datatype Row = Row(userId: string, token: string, expiresAt: int, used: bool, createdAt: int)

  /** One row of `users`, with the columns the reset flow reads or writes. */
  datatype Account = Account(id: string, name: Option<string>, email: string, passwordHash: string,
                             isActive: bool, updatedAt: int)

  /** The `WHERE` clause of a token query. */
  datatype Filter =
    | EmailAndToken(ids: set<string>, token: string) // users joined on email, then the token
    | ActiveFor(userId: string, now: int)             // `used = false AND expires_at > NOW()`

  predicate Matches(f: Filter, r: Row) {
    match f
    case EmailAndToken(ids, token) => r.userId in ids && r.token == token
    case ActiveFor(userId, now) => r.userId == userId && !r.used && r.expiresAt > now
  }

  /** Row `k` is the one `ORDER BY created_at DESC LIMIT 1` returns among the matching rows:
      no matching row is newer, and among rows created at the same instant the one inserted
      last wins (SQL leaves that tie open; this is the choice the model makes). */
  ghost predicate IsNewest(rows: seq<Row>, f: Filter, k: nat) {
    && k < |rows| && Matches(f, rows[k])
    && forall j :: 0 <= j < |rows| && Matches(f, rows[j]) ==>
         rows[j].createdAt <= rows[k].createdAt && (j > k ==> rows[j].createdAt < rows[k].createdAt)
  }

  /** The index of the row `ORDER BY created_at DESC LIMIT 1` returns, if any. */
  function MostRecent(rows: seq<Row>, f: Filter): (k: Option<nat>)
    ensures k.None? <==> forall j :: 0 <= j < |rows| ==> !Matches(f, rows[j])
    ensures k.Some? ==> IsNewest(rows, f, k.value)
  {
    if rows == [] then None
    else
      var k := MostRecent(rows[..|rows| - 1], f);
      var last := |rows| - 1;
      if !Matches(f, rows[last]) then k
      else if k.Some? && rows[k.value].createdAt > rows[last].createdAt then k
      else Some(last)
  }

  /** The query result does not depend on how it is computed: any row that is newest in the
      sense of `IsNewest` is the one returned. */
  lemma NewestIsUnique(rows: seq<Row>, f: Filter, k: nat)
    requires IsNewest(rows, f, k)
    ensures MostRecent(rows, f) == Some(k)
  {
    var m := MostRecent(rows, f);
    assert m.Some?;
    var i := m.value;
    assert rows[i].createdAt <= rows[k].createdAt && rows[k].createdAt <= rows[i].createdAt;
  }

  /** At most one row is newest, so every newest row is the one the query returns. */
  lemma NewestIsOnly(rows: seq<Row>, f: Filter)
    ensures forall k: nat :: IsNewest(rows, f, k) ==> MostRecent(rows, f) == Some(k)
  {
    forall k: nat | IsNewest(rows, f, k)
      ensures MostRecent(rows, f) == Some(k)
    {
      NewestIsUnique(rows, f, k);
    }
  }

  /** `generate_token`: six calls of `secrets.randbelow(10)`, `draws`, each rendered as one digit. */
  function GenerateToken(draws: seq<nat>): (t: string)
    requires |draws| == 6 && forall i :: 0 <= i < 6 ==> draws[i] < 10
    ensures |t| == 6 && AllDigits(t)
    ensures forall i :: 0 <= i < 6 ==> DigitValue(t[i]) == draws[i]
  {
    seq(6, i requires 0 <= i < 6 => DigitChar(draws[i]))
  }

  ghost predicate UniqueIds(users: seq<Account>) {
    forall i, j :: 0 <= i < j < |users| ==> users[i].id != users[j].id
  }

  ghost predicate UniqueEmails(users: seq<Account>) {
    forall i, j :: 0 <= i < j < |users| ==> users[i].email != users[j].email
  }

  /** The ids of the users whose email column equals `email` (`JOIN users u ... u.email = %s`). */
  function IdsWithEmail(users: seq<Account>, email: string): set<string> {
    set i | 0 <= i < |users| && users[i].email == email :: users[i].id
  }

  /** `UserRepository.find_by_email`: the first active user with that email. */
  function FindByEmail(users: seq<Account>, email: string): (a: Option<Account>)
    ensures a.Some? ==> a.value in users && a.value.email == email && a.value.isActive
    ensures a.None? <==> forall i :: 0 <= i < |users| ==> !(users[i].email == email && users[i].isActive)
  {
    if users == [] then None
    else if users[0].email == email && users[0].isActive then Some(users[0])
    else FindByEmail(users[1..], email)
  }

  /** `UserRepository.find_by_id`: the first active user with that id. */
  function FindById(users: seq<Account>, id: string): (a: Option<Account>)
    ensures a.Some? ==> a.value in users && a.value.id == id && a.value.isActive
    ensures a.None? <==> forall i :: 0 <= i < |users| ==> !(users[i].id == id && users[i].isActive)
  {
    if users == [] then None
    else if users[0].id == id && users[0].isActive then Some(users[0])
    else FindById(users[1..], id)
  }

  /** With unique emails, the join on email sees at most the one user that has it. */
  lemma IdsOfFoundEmail(users: seq<Account>, email: string)
    requires UniqueEmails(users) && FindByEmail(users, email).Some?
    ensures IdsWithEmail(users, email) == {FindByEmail(users, email).value.id}
  {
    var a := FindByEmail(users, email).value;
    var k :| 0 <= k < |users| && users[k] == a;
    forall id | id in IdsWithEmail(users, email)
      ensures id == a.id
    {
      var i :| 0 <= i < |users| && users[i].email == email && users[i].id == id;
      assert i == k;
    }
  }

  /** Row `i` is an unused, unexpired row of `userId` carrying `token`. */
  predicate VerifiesAt(rows: seq<Row>, i: int, userId: string, token: string, now: int) {
    0 <= i < |rows| && rows[i].userId == userId && rows[i].token == token && !rows[i].used && now <= rows[i].expiresAt
  }

  /** `verify_token`: the newest row for that email and token decides, and it verifies only
      while unused and not past `expires_at` (so at `expires_at` itself it still verifies). */
  function VerifyToken(users: seq<Account>, rows: seq<Row>, email: string, token: string, now: int): (r: Option<string>)
    ensures r.Some? <==> exists k: nat :: IsNewest(rows, EmailAndToken(IdsWithEmail(users, email), token), k)
                                     && !rows[k].used && now <= rows[k].expiresAt
    ensures r.Some? ==> exists k: nat :: IsNewest(rows, EmailAndToken(IdsWithEmail(users, email), token), k)
                                    && r.value == rows[k].userId
    ensures r.Some? ==> r.value in IdsWithEmail(users, email)
    ensures r.Some? ==> exists i :: VerifiesAt(rows, i, r.value, token, now)
  {
    NewestIsOnly(rows, EmailAndToken(IdsWithEmail(users, email), token));
    var k := MostRecent(rows, EmailAndToken(IdsWithEmail(users, email), token));
    if k.None? then None
    else
      var row := rows[k.value];
      if row.used then None
      else if now > row.expiresAt then None
      else assert VerifiesAt(rows, k.value, row.userId, token, now); Some(row.userId)
  }

  /** `get_active_token`: the newest unused row of the user whose `expires_at` is strictly later
      than now. */
  function GetActiveToken(rows: seq<Row>, userId: string, now: int): (r: Option<Row>)
    ensures r.Some? ==> r.value in rows && r.value.userId == userId && !r.value.used && r.value.expiresAt > now
    ensures r.None? <==> forall i :: 0 <= i < |rows| ==>
      !(rows[i].userId == userId && !rows[i].used && rows[i].expiresAt > now)
    ensures r.Some? ==> exists k: nat :: IsNewest(rows, ActiveFor(userId, now), k) && r.value == rows[k]
  {
    var k := MostRecent(rows, ActiveFor(userId, now));
    if k.None? then None else Some(rows[k.value])
  }

  /** The table after `UPDATE ... SET used = true WHERE user_id = %s AND used = false`. */
  function Invalidated(rows: seq<Row>, userId: string): (r: seq<Row>)
    ensures |r| == |rows|
    ensures forall i :: 0 <= i < |rows| && rows[i].userId != userId ==> r[i] == rows[i]
    ensures forall i :: 0 <= i < |rows| && rows[i].userId == userId ==> r[i] == rows[i].(used := true)
  {
    seq(|rows|, i requires 0 <= i < |rows| =>
      if rows[i].userId == userId && !rows[i].used then rows[i].(used := true) else rows[i])
  }

  /** The table after `UPDATE ... SET used = true WHERE user_id = %s AND token = %s`. */
  function MarkedUsed(rows: seq<Row>, userId: string, token: string): (r: seq<Row>)
    ensures |r| == |rows|
    ensures forall i :: 0 <= i < |rows| && !(rows[i].userId == userId && rows[i].token == token) ==> r[i] == rows[i]
    ensures forall i :: 0 <= i < |rows| && rows[i].userId == userId && rows[i].token == token ==>
      r[i] == rows[i].(used := true)
  {
    seq(|rows|, i requires 0 <= i < |rows| =>
      if rows[i].userId == userId && rows[i].token == token then rows[i].(used := true) else rows[i])
  }

  /** The accounts after `UPDATE users SET password_hash = %s, updated_at = NOW() WHERE id = %s`. */
  function WithPassword(users: seq<Account>, id: string, passwordHash: string, now: int): (r: seq<Account>)
    ensures |r| == |users|
    ensures forall i :: 0 <= i < |users| ==>
      && r[i].id == users[i].id && r[i].email == users[i].email
      && r[i].name == users[i].name && r[i].isActive == users[i].isActive
    ensures forall i :: 0 <= i < |users| && users[i].id == id ==> r[i].passwordHash == passwordHash && r[i].updatedAt == now
    ensures forall i :: 0 <= i < |users| && users[i].id != id ==> r[i] == users[i]
  {
    seq(|users|, i requires 0 <= i < |users| =>
      if users[i].id == id then users[i].(passwordHash := passwordHash, updatedAt := now) else users[i])
  }

  /** The number of unused rows of a user. */
  function UnusedOf(rows: seq<Row>, userId: string): nat {
    if rows == [] then 0
    else UnusedOf(rows[..|rows| - 1], userId) + (if rows[|rows| - 1].userId == userId && !rows[|rows| - 1].used then 1 else 0)
  }

  /** Invalidating twice is invalidating once. */
  lemma InvalidatedIdempotent(rows: seq<Row>, userId: string)
    ensures Invalidated(Invalidated(rows, userId), userId) == Invalidated(rows, userId)
  {
  }

  /** Right after invalidation the user has no active token, at any time. */
  lemma NoActiveAfterInvalidate(rows: seq<Row>, userId: string, now: int)
    ensures GetActiveToken(Invalidated(rows, userId), userId, now) == None
  {
  }

  /** After invalidation the user has no unused row. */
  lemma {:induction false} NoUnusedAfterInvalidate(rows: seq<Row>, userId: string)
    ensures UnusedOf(Invalidated(rows, userId), userId) == 0
  {
    if rows != [] {
      var r := Invalidated(rows, userId);
      var init := rows[..|rows| - 1];
      NoUnusedAfterInvalidate(init, userId);
      assert r[..|r| - 1] == Invalidated(init, userId);
    }
  }

  /** Once every row of the user with that token is used, the token no longer verifies for
      an email that only that user holds. */
  lemma VerifyFailsAfterMark(users: seq<Account>, rows: seq<Row>, email: string, userId: string, token: string, now: int)
    requires IdsWithEmail(users, email) <= {userId}
    ensures VerifyToken(users, MarkedUsed(rows, userId, token), email, token, now) == None
  {
  }

  /** A row inserted last, unused and later than every other row's `created_at` or equal to
      it, is what the user's email and its token verify to until it expires. */
  lemma NewRowVerifies(users: seq<Account>, rows: seq<Row>, email: string, row: Row, now: int)
    requires row.userId in IdsWithEmail(users, email) && !row.used && now <= row.expiresAt
    requires forall i :: 0 <= i < |rows| ==> rows[i].createdAt <= row.createdAt
    ensures VerifyToken(users, rows + [row], email, row.token, now) == Some(row.userId)
  {
    var all := rows + [row];
    var f := EmailAndToken(IdsWithEmail(users, email), row.token);
    assert IsNewest(all, f, |rows|) by {
      forall j | 0 <= j < |all| && Matches(f, all[j])
        ensures all[j].createdAt <= all[|rows|].createdAt
      {
        if j < |rows| { assert all[j] == rows[j]; }
      }
    }
    NewestIsUnique(all, f, |rows|);
  }

  /** The same row is the user's active token while it has not expired. */
  lemma NewRowIsActive(rows: seq<Row>, row: Row, now: int)
    requires !row.used && now < row.expiresAt
    requires forall i :: 0 <= i < |rows| ==> rows[i].createdAt <= row.createdAt
    ensures GetActiveToken(rows + [row], row.userId, now) == Some(row)
  {
    var all := rows + [row];
    var f := ActiveFor(row.userId, now);
    assert IsNewest(all, f, |rows|) by {
      forall j | 0 <= j < |all| && Matches(f, all[j])
        ensures all[j].createdAt <= all[|rows|].createdAt
      {
        if j < |rows| { assert all[j] == rows[j]; }
      }
    }
    NewestIsUnique(all, f, |rows|);
  }

  /** The application database: the accounts, the token table and the shared clock. */
  class Database {
    var users: seq<Account>
    var tokens: seq<Row>
    var now: int

    /** Ids and emails are unique and non-empty, and no token row lies in the future. */
    ghost predicate Valid()
      reads this
    {
      && UniqueIds(users) && UniqueEmails(users)
      && (forall i :: 0 <= i < |users| ==> users[i].id != "")
      && forall i :: 0 <= i < |tokens| ==> tokens[i].createdAt <= now
    }

    constructor (users: seq<Account>, now: int)
      requires UniqueIds(users) && UniqueEmails(users) && forall i :: 0 <= i < |users| ==> users[i].id != ""
      ensures Valid() && this.users == users && tokens == [] && this.now == now
    {
      this.users, tokens, this.now := users, [], now;
    }

    /** Time passes. */
    method Tick(seconds: nat)
      requires Valid()
      modifies this`now
      ensures Valid() && now == old(now) + seconds
    {
      now := now + seconds;
    }

    /** `create_reset_token`: inserts one unused row expiring `expiration_minutes` from now;
        `insertOk` is false when the INSERT raises, and then nothing is stored. */
    method CreateResetToken(userId: string, draws: seq<nat>, insertOk: bool, expirationMinutes: int := 15)
      returns (token: Option<string>)
      requires Valid() && |draws| == 6 && forall i :: 0 <= i < 6 ==> draws[i] < 10
      modifies this`tokens
      ensures Valid()
      ensures insertOk ==>
        && token == Some(GenerateToken(draws))
        && tokens == old(tokens) + [Row(userId, GenerateToken(draws), now + 60 * expirationMinutes, false, now)]
      ensures !insertOk ==> token == None && tokens == old(tokens)
    {
      var t := GenerateToken(draws);
      var expiresAt := now + 60 * expirationMinutes;
      if !insertOk {
        return None;
      }
      tokens := tokens + [Row(userId, t, expiresAt, false, now)];
      token := Some(t);
    }

    /** `verify_token` on the current table and clock. */
    method CheckToken(email: string, token: string) returns (userId: Option<string>)
      requires Valid()
      ensures userId == VerifyToken(users, tokens, email, token, now)
    {
      userId := VerifyToken(users, tokens, email, token, now);
    }

    /** `mark_token_as_used`: true iff the UPDATE touched a row. */
    method MarkTokenAsUsed(userId: string, token: string) returns (marked: bool)
      requires Valid()
      modifies this`tokens
      ensures Valid() && tokens == MarkedUsed(old(tokens), userId, token)
      ensures marked <==> exists i :: 0 <= i < |old(tokens)| && old(tokens)[i].userId == userId && old(tokens)[i].token == token
    {
      marked := exists i :: 0 <= i < |tokens| && tokens[i].userId == userId && tokens[i].token == token;
      tokens := MarkedUsed(tokens, userId, token);
    }

    /** `invalidate_old_tokens`: reports success whether or not any row matched. */
    method InvalidateOldTokens(userId: string) returns (done: bool)
      requires Valid()
      modifies this`tokens
      ensures Valid() && done && tokens == Invalidated(old(tokens), userId)
    {
      tokens := Invalidated(tokens, userId);
      done := true;
    }

    /** `UPDATE users SET password_hash = %s, updated_at = NOW() WHERE id = %s`, returning the
        row count. */
    method UpdatePassword(userId: string, passwordHash: string) returns (rowcount: nat)
      requires Valid()
      modifies this`users
      ensures Valid() && users == WithPassword(old(users), userId, passwordHash, now)
      ensures rowcount > 0 <==> exists i :: 0 <= i < |old(users)| && old(users)[i].id == userId
    {
      var n := 0;
      var i := 0;
      while i < |users|
        invariant 0 <= i <= |users| && |users| == |old(users)|
        invariant forall j :: 0 <= j < |users| ==>
          users[j] == if j < i && old(users)[j].id == userId then old(users)[j].(passwordHash := passwordHash, updatedAt := now) else old(users)[j]
        invariant n > 0 <==> exists j :: 0 <= j < i && old(users)[j].id == userId
      {
        if users[i].id == userId {
          users := users[i := users[i].(passwordHash := passwordHash, updatedAt := now)];
          n := n + 1;
        }
        i := i + 1;
      }
      assert users == WithPassword(old(users), userId, passwordHash, now);
      rowcount := n;
    }
  }
}
