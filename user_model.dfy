/**
  The `User` model of the server: an object whose eight attributes are Python values, its
  dictionary form for JSON and its construction from a database row.
 */
module UserModel {
  import opened Wrappers
  import opened PyValues

  /** The seven keys `to_dict` always produces. */
  const PublicKeys: set<string> := {"id", "name", "email", "created_at", "updated_at", "is_active", "last_login"}

  /** `x.isoformat() if x else None` */
  function IsoOrNone(v: Value): (r: Value)
    requires v.PyNone? || v.PyDateTime?
    ensures v.PyNone? ==> r == PyNone
    ensures v.PyDateTime? ==> r.PyStr? && |r.s| >= 19 && r.s[10] == 'T'
  {
    if Truthy(v) then
      IsoFormatFields(v.dt, 'T');
      PyStr(IsoFormat(v.dt))
    else PyNone
  }

  /** `str(self.id) if self.id else None` */
  function IdOrNone(v: Value): (r: Value)
    requires IsScalar(v)
    ensures !Truthy(v) ==> r == PyNone
    ensures v.PyStr? && v.s != "" ==> r == v
    ensures Truthy(v) ==> r.PyStr?
  {
    if Truthy(v) then PyStr(Str(v)) else PyNone
  }

  /** A row as the driver returns it: timestamps are `datetime` or `None`, the id is a scalar. */
  predicate WellTypedRow(row: map<string, Value>) {
    && IsScalar(Get(row, "id"))
    && (Get(row, "created_at").PyNone? || Get(row, "created_at").PyDateTime?)
    && (Get(row, "updated_at").PyNone? || Get(row, "updated_at").PyDateTime?)
    && (Get(row, "last_login").PyNone? || Get(row, "last_login").PyDateTime?)
  }

  class User {
    var id: Value
    var name: Value
    var email: Value
    var passwordHash: Value
    var createdAt: Value
    var updatedAt: Value
    var isActive: Value
    var lastLogin: Value

    /** The attribute kinds `to_dict` relies on. */
    predicate Valid()
      reads this
    {
      && IsScalar(id)
      && (createdAt.PyNone? || createdAt.PyDateTime?)
      && (updatedAt.PyNone? || updatedAt.PyDateTime?)
      && (lastLogin.PyNone? || lastLogin.PyDateTime?)
    }

    /** `User(...)`: every attribute defaults to `None` except `is_active`, which is `True`. */
    constructor (id: Value := PyNone, name: Value := PyNone, email: Value := PyNone,
                 passwordHash: Value := PyNone, createdAt: Value := PyNone, updatedAt: Value := PyNone,
                 isActive: Value := PyBool(true), lastLogin: Value := PyNone)
      ensures this.id == id && this.name == name && this.email == email && this.passwordHash == passwordHash
      ensures this.createdAt == createdAt && this.updatedAt == updatedAt
      ensures this.isActive == isActive && this.lastLogin == lastLogin
    {
      this.id, this.name, this.email, this.passwordHash := id, name, email, passwordHash;
      this.createdAt, this.updatedAt, this.isActive, this.lastLogin := createdAt, updatedAt, isActive, lastLogin;
    }

    /** The value `to_dict` stores under `key`. */
    function Entry(key: string): Value
      requires Valid()
      reads this
    {
      if key == "id" then IdOrNone(id)
      else if key == "name" then name
      else if key == "email" then email
      else if key == "created_at" then IsoOrNone(createdAt)
      else if key == "updated_at" then IsoOrNone(updatedAt)
      else if key == "is_active" then isActive
      else if key == "last_login" then IsoOrNone(lastLogin)
      else passwordHash
    }

    /** `to_dict`. */
    function ToDict(includePassword: bool := false): map<string, Value>
      requires Valid()
      reads this
    {
      var keys := if includePassword then PublicKeys + {"password_hash"} else PublicKeys;
      map key | key in keys :: Entry(key)
    }
  }

  /** `to_dict` always has the seven public keys, and `password_hash` exactly when asked for. */
  lemma ToDictKeys(u: User, includePassword: bool)
    requires u.Valid()
    ensures u.ToDict(includePassword).Keys == if includePassword then PublicKeys + {"password_hash"} else PublicKeys
    ensures includePassword ==> u.ToDict(includePassword)["password_hash"] == u.passwordHash
  {
  }

  /** The identity entries: the id as a string when truthy, name, email and flag copied. */
  lemma ToDictIdentity(u: User, includePassword: bool)
    requires u.Valid()
    ensures var d := u.ToDict(includePassword);
      && d["id"] == IdOrNone(u.id)
      && d["name"] == u.name && d["email"] == u.email && d["is_active"] == u.isActive
  {
  }

  /** The timestamp entries: ISO text when set, `None` otherwise. */
  lemma ToDictTimestamps(u: User, includePassword: bool)
    requires u.Valid()
    ensures var d := u.ToDict(includePassword);
      && d["created_at"] == IsoOrNone(u.createdAt)
      && d["updated_at"] == IsoOrNone(u.updatedAt)
      && d["last_login"] == IsoOrNone(u.lastLogin)
  {
  }

  /** `from_db_row`: `None` for a missing or empty row; otherwise every column is copied and a
      missing one becomes `None`, so a row without `is_active` yields `None`, not `True`. */
  method FromDbRow(row: Option<map<string, Value>>) returns (u: User?)
    requires row.Some? ==> WellTypedRow(row.value)
    ensures u == null <==> row.None? || row.value == map[]
    ensures u != null ==> fresh(u) && u.Valid()
    ensures u != null ==>
      && u.id == Get(row.value, "id") && u.name == Get(row.value, "name")
      && u.email == Get(row.value, "email") && u.passwordHash == Get(row.value, "password_hash")
      && u.createdAt == Get(row.value, "created_at") && u.updatedAt == Get(row.value, "updated_at")
      && u.isActive == Get(row.value, "is_active") && u.lastLogin == Get(row.value, "last_login")
  {
    if row.None? || row.value == map[] {
      return null;
    }
    var r := row.value;
    u := new User(Get(r, "id"), Get(r, "name"), Get(r, "email"), Get(r, "password_hash"),
                  Get(r, "created_at"), Get(r, "updated_at"), Get(r, "is_active"), Get(r, "last_login"));
  }

  /** The password hash never appears in the default dictionary, and asking for it adds that
      key and changes nothing else. */
  lemma DefaultDictHidesPassword(u: User)
    requires u.Valid()
    ensures "password_hash" !in u.ToDict()
    ensures u.ToDict(true) - {"password_hash"} == u.ToDict()
  {
    ToDictKeys(u, false);
  }
}
