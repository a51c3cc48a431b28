/**
  The Python values the server puts into JSON dictionaries: `None`, booleans, integers,
  strings, naive `datetime`s, lists and dictionaries, with Python's truth value, `str()` of
  the scalar ones and `datetime.isoformat()`.
 */
module PyValues {
  import opened Text

  datatype RawDateTime = RawDateTime(year: nat, month: nat, day: nat, hour: nat, minute: nat,
                                     second: nat, microsecond: nat)

  /** The ranges `datetime` enforces on its fields (day is bounded by 31 regardless of month). */
  predicate InRange(d: RawDateTime) {
    && 1 <= d.year <= 9999 && 1 <= d.month <= 12 && 1 <= d.day <= 31
    && d.hour < 24 && d.minute < 60 && d.second < 60 && d.microsecond < 1000000
  }

  type DateTime = d: RawDateTime | InRange(d) witness RawDateTime(1, 1, 1, 0, 0, 0, 0)

  datatype Value =
    | PyNone
    | PyBool(b: bool)
    | PyInt(i: int)
    | PyStr(s: string)
    | PyDateTime(dt: DateTime)
    | PyList(items: seq<Value>)
    | PyDict(entries: map<string, Value>)

  /** `bool(v)`: `None`, `False`, `0` and empty strings, lists and dictionaries are false. */
  predicate Truthy(v: Value) {
    match v
    case PyNone => false
    case PyBool(b) => b
    case PyInt(i) => i != 0
    case PyStr(s) => s != ""
    case PyDateTime(_) => true
    case PyList(items) => items != []
    case PyDict(entries) => entries != map[]
  }

  predicate IsScalar(v: Value) {
    !v.PyList? && !v.PyDict?
  }

  /** `dict.get(key)`: `None` for a missing key. */
  function Get(m: map<string, Value>, key: string): Value {
    if key in m then m[key] else PyNone
  }

  function Pow10(w: nat): nat {
    if w == 0 then 1 else 10 * Pow10(w - 1)
  }

  lemma {:induction false} NatToStringFits(n: nat, w: nat)
    requires 1 <= w && n < Pow10(w)
    ensures |NatToString(n)| <= w
  {
    if n >= 10 {
      NatToStringFits(n / 10, w - 1);
    }
  }

  function Zeros(k: nat): (z: string)
    ensures |z| == k && forall i :: 0 <= i < k ==> z[i] == '0'
  {
    if k == 0 then "" else "0" + Zeros(k - 1)
  }

  /** Leading zeros do not change the value of a digit string. */
  lemma {:induction false} ParseNatZeros(k: nat, s: string)
    requires AllDigits(s)
    ensures AllDigits(Zeros(k) + s) && ParseNat(Zeros(k) + s) == ParseNat(s)
    decreases |s|, k
  {
    var z := Zeros(k) + s;
    if s == [] {
      assert z == Zeros(k);
      if k > 0 {
        ParseNatZeros(k - 1, s);
        assert z[..|z| - 1] == Zeros(k - 1) + s;
      }
    } else {
      var init := s[..|s| - 1];
      ParseNatZeros(k, init);
      assert z[..|z| - 1] == Zeros(k) + init;
    }
  }

  /** `%0{width}d`, for a value that fits in `width` digits. */
  function Pad(n: nat, width: nat): (r: string)
    requires 1 <= width && n < Pow10(width)
    ensures |r| == width && AllDigits(r) && ParseNat(r) == n
  {
    NatToStringFits(n, width);
    ParseNatZeros(width - |NatToString(n)|, NatToString(n));
    ParseNatToString(n);
    Zeros(width - |NatToString(n)|) + NatToString(n)
  }

  /** `YYYY-MM-DD` */
  function DateText(dt: DateTime): (r: string)
    ensures |r| == 10
  {
    Pad(dt.year, 4) + "-" + Pad(dt.month, 2) + "-" + Pad(dt.day, 2)
  }

  /** `HH:MM:SS` */
  function TimeText(dt: DateTime): (r: string)
    ensures |r| == 8
  {
    Pad(dt.hour, 2) + ":" + Pad(dt.minute, 2) + ":" + Pad(dt.second, 2)
  }

  /** `dt.isoformat(sep)`: the date, `sep`, the time, and `.ffffff` only when there are
      microseconds. */
  function IsoFormat(dt: DateTime, sep: char := 'T'): (r: string)
    ensures |r| == if dt.microsecond == 0 then 19 else 26
  {
    DateText(dt) + [sep] + TimeText(dt) + (if dt.microsecond == 0 then "" else "." + Pad(dt.microsecond, 6))
  }

  /** Year, month and day can be read back from their positions in the date. */
  lemma DateFields(dt: DateTime)
    ensures var d := DateText(dt);
      && d[4] == '-' && d[7] == '-'
      && AllDigits(d[0..4]) && ParseNat(d[0..4]) == dt.year
      && AllDigits(d[5..7]) && ParseNat(d[5..7]) == dt.month
      && AllDigits(d[8..10]) && ParseNat(d[8..10]) == dt.day
  {
    var d := DateText(dt);
    assert d[0..4] == Pad(dt.year, 4);
    assert d[5..7] == Pad(dt.month, 2);
    assert d[8..10] == Pad(dt.day, 2);
  }

  /** Hour, minute and second can be read back from their positions in the time. */
  lemma TimeFields(dt: DateTime)
    ensures var t := TimeText(dt);
      && t[2] == ':' && t[5] == ':'
      && AllDigits(t[0..2]) && ParseNat(t[0..2]) == dt.hour
      && AllDigits(t[3..5]) && ParseNat(t[3..5]) == dt.minute
      && AllDigits(t[6..8]) && ParseNat(t[6..8]) == dt.second
  {
    var t := TimeText(dt);
    assert t[0..2] == Pad(dt.hour, 2);
    assert t[3..5] == Pad(dt.minute, 2);
    assert t[6..8] == Pad(dt.second, 2);
  }

  /** The ISO rendering is the date, the separator at index 10, the time, and the six
      microsecond digits after a '.' when there are any; every field reads back. */
  lemma IsoFormatFields(dt: DateTime, sep: char)
    ensures var r := IsoFormat(dt, sep);
      && r[..10] == DateText(dt) && r[10] == sep && r[11..19] == TimeText(dt)
      && (dt.microsecond != 0 ==> r[19] == '.' && AllDigits(r[20..]) && ParseNat(r[20..]) == dt.microsecond)
  {
    DateFields(dt);
    TimeFields(dt);
    var r := IsoFormat(dt, sep);
    if dt.microsecond != 0 {
      assert r[20..] == Pad(dt.microsecond, 6);
    }
  }

  /** `str(v)` for a scalar; `str` of a `datetime` is its ISO form with a space. */
  function Str(v: Value): string
    requires IsScalar(v)
  {
    match v
    case PyNone => "None"
    case PyBool(b) => if b then "True" else "False"
    case PyInt(i) => IntToString(i)
    case PyStr(s) => s
    case PyDateTime(dt) => IsoFormat(dt, ' ')
  }
}
