/**
  `api.js`: the bearer header taken from `localStorage`, the header merge and the error
  message of `apiFetch`, and the client-side expiry check of `isAuthenticated`. The network
  call, `res.json()`, `atob` and `JSON.parse` are inputs: the parsed body, and the decoded
  token payload.
 */
module Api {
  import opened Wrappers
  import opened Text

  /** `window.localStorage`. */
  class LocalStorage {
    var items: map<string, string>

    constructor (items: map<string, string>)
      ensures this.items == items
    {
      this.items := items;
    }

    /** `getItem(key)`: null for a missing key. */
    function GetItem(key: string): Option<string>
      reads this
    {
      if key in items then Some(items[key]) else None
    }

    /** `removeItem(key)`. */
    method RemoveItem(key: string)
      modifies this
      ensures items == old(items) - {key}
    {
      items := items - {key};
    }
  }

  /** The truth value of a stored string: null and "" are false. */
  predicate TruthyText(s: Option<string>) {
    s.Some? && s.value != ""
  }

  /** `getAuthHeaders` for a stored token. */
  function AuthHeaders(token: Option<string>): (h: map<string, string>)
    ensures "Authorization" in h <==> TruthyText(token)
    ensures h.Keys <= {"Authorization"}
    ensures "Authorization" in h ==> h["Authorization"] == "Bearer " + token.value
  {
    if TruthyText(token) then map["Authorization" := "Bearer " + token.value] else map[]
  }

  /** `getAuthHeaders`. */
  function GetAuthHeaders(store: LocalStorage): map<string, string>
    reads store
  {
    AuthHeaders(store.GetItem("token"))
  }

  /** The `headers` object of `apiFetch`: a JSON content type unless the caller gives one, the
      caller's headers, and then the stored bearer token over whatever the caller put there.
      `callerHeaders` is `options.headers`, `None` when absent. */
  method ComposeHeaders(store: LocalStorage, callerHeaders: Option<map<string, string>>)
    returns (headers: map<string, string>)
    ensures var caller := if callerHeaders.Some? then callerHeaders.value else map[];
      && headers.Keys == {"Content-Type"} + caller.Keys + GetAuthHeaders(store).Keys
      && headers["Content-Type"] == (if "Content-Type" in caller then caller["Content-Type"] else "application/json")
      && (forall k :: k in caller && k != "Authorization" ==> headers[k] == caller[k])
      && ("Authorization" in GetAuthHeaders(store) ==> headers["Authorization"] == GetAuthHeaders(store)["Authorization"])
      && ("Authorization" !in GetAuthHeaders(store) && "Authorization" in caller ==> headers["Authorization"] == caller["Authorization"])
  {
    var caller := if callerHeaders.Some? then callerHeaders.value else map[];
    headers := map["Content-Type" := "application/json"] + caller;
    var auth := GetAuthHeaders(store);
    if "Authorization" in auth && auth["Authorization"] != "" {
      headers := headers["Authorization" := auth["Authorization"]];
    }
  }

  /** A parsed JSON value; numbers are integers here. */
  datatype Json =
    | JNull
    | JBool(b: bool)
    | JNumber(n: int)
    | JString(s: string)
    | JArray(items: seq<Json>)
    | JObject(fields: map<string, Json>)

  /** JavaScript truthiness: arrays and objects are always true, even when empty. */
  predicate JsTruthy(v: Json) {
    match v
    case JNull => false
    case JBool(b) => b
    case JNumber(n) => n != 0
    case JString(s) => s != ""
    case JArray(_) => true
    case JObject(_) => true
  }

  /** `String(v)`, which `new Error(v)` applies to its argument. */
  function JsString(v: Json): string
    decreases v, 1
  {
    match v
    case JNull => "null"
    case JBool(b) => if b then "true" else "false"
    case JNumber(n) => IntToString(n)
    case JString(s) => s
    case JArray(items) => JoinElements(items, v)
    case JObject(_) => "[object Object]"
  }

  /** `items.join(",")`, where null elements become "". */
  function JoinElements(items: seq<Json>, whole: Json): string
    requires forall i :: 0 <= i < |items| ==> items[i] < whole
    decreases whole, 0, |items|
  {
    if items == [] then ""
    else
      var first := if items[0].JNull? then "" else JsString(items[0]);
      if |items| == 1 then first else first + "," + JoinElements(items[1..], whole)
  }

  /** `body?.message`, with `undefined` as `None`. */
  function MessageOf(body: Json): Option<Json> {
    if body.JObject? && "message" in body.fields then Some(body.fields["message"]) else None
  }

  const RequestFailed := "Error en la petición"

  /** The message of the error `apiFetch` throws: the body's truthy `message`, or the default. */
  function ErrorMessage(body: Json): (m: string)
    ensures MessageOf(body).None? ==> m == RequestFailed
    ensures (exists s :: s != "" && MessageOf(body) == Some(JString(s))) ==> m == MessageOf(body).value.s
    ensures MessageOf(body).Some? && !JsTruthy(MessageOf(body).value) ==> m == RequestFailed
  {
    var msg := MessageOf(body);
    if msg.Some? && JsTruthy(msg.value) then JsString(msg.value) else RequestFailed
  }

  /** What `apiFetch` ends with. */
  datatype FetchResult =
    | Returned(body: Json)
    | Thrown(message: string, status: int, body: Json)

  /** The body `apiFetch` reads: the parsed JSON when the content type mentions
      `application/json`, else null. */
  function ResponseBody(contentType: Option<string>, parsed: Json): Json {
    var ct := if contentType.Some? then contentType.value else "";
    if Contains(ct, "application/json") then parsed else JNull
  }

  /** The end of `apiFetch` for a response with `ok`, `status` and `content-type`, whose JSON
      parses to `parsed`. */
  function FetchOutcome(ok: bool, status: int, contentType: Option<string>, parsed: Json): (r: FetchResult)
    ensures ok <==> r.Returned?
    ensures r.body == ResponseBody(contentType, parsed)
    ensures r.Thrown? ==> r.status == status && r.message == ErrorMessage(r.body)
  {
    var body := ResponseBody(contentType, parsed);
    if !ok then Thrown(ErrorMessage(body), status, body) else Returned(body)
  }

  /** A failure whose body is not JSON always carries the default message. */
  lemma NonJsonFailureMessage(status: int, contentType: Option<string>, parsed: Json)
    requires contentType.None? || !Contains(contentType.value, "application/json")
    ensures FetchOutcome(false, status, contentType, parsed) == Thrown(RequestFailed, status, JNull)
  {
  }

  /** A failure whose JSON body carries a non-empty string message shows that message. */
  lemma JsonFailureMessage(status: int, message: string, others: map<string, Json>)
    requires message != ""
    ensures var body := JObject(others["message" := JString(message)]);
      FetchOutcome(false, status, Some("application/json; charset=utf-8"), body).message == message
  {
    var ct := "application/json; charset=utf-8";
    assert OccursAt(ct, "application/json", 0) by { assert ct[..16] == "application/json"; }
  }

  /** What `atob` and `JSON.parse` make of the token's payload: either they throw, or the
      payload's `exp` is a number or absent. */
  datatype Decoded = Undecodable | Payload(exp: Option<int>)

  /** The truth value of `exp`: absent and 0 are false. */
  predicate HasExpiry(d: Decoded) {
    d.Payload? && d.exp.Some? && d.exp.value != 0
  }

  /** `Date.now() / 1000 > exp`, with the clock in milliseconds. */
  predicate Expired(d: Decoded, nowMs: int)
    requires HasExpiry(d)
  {
    nowMs > d.exp.value * 1000
  }

  datatype AuthCheck = AuthCheck(authenticated: bool, items: map<string, string>)

  /** `isAuthenticated` as a function of the stored items: an expired token removes both
      `token` and `user`; an undecodable one is rejected but kept; a missing, zero or unexpired
      `exp` passes; without a token nothing is removed. */
  function CheckAuth(items: map<string, string>, decoded: Decoded, nowMs: int): (r: AuthCheck)
    ensures r.items == items || r.items == items - {"token", "user"}
    ensures r.items != items ==> !r.authenticated
    ensures r.authenticated ==> "token" in items && items["token"] != "" && r.items == items
    ensures ("token" !in items || items["token"] == "") ==> r == AuthCheck(false, items)
    ensures "token" in items && items["token"] != "" && decoded.Payload? && !(HasExpiry(decoded) && Expired(decoded, nowMs)) ==>
      r == AuthCheck(true, items)
    ensures decoded.Undecodable? ==> r == AuthCheck(false, items)
    ensures "token" in items && items["token"] != "" && HasExpiry(decoded) && Expired(decoded, nowMs) ==>
      r == AuthCheck(false, items - {"token", "user"})
  {
    if "token" !in items || items["token"] == "" then AuthCheck(false, items)
    else if decoded.Undecodable? then AuthCheck(false, items)
    else if HasExpiry(decoded) && Expired(decoded, nowMs) then AuthCheck(false, items - {"token", "user"})
    else AuthCheck(true, items)
  }

  /** After a purge the next check fails at once and changes nothing more. */
  lemma PurgeIsFinal(items: map<string, string>, decoded: Decoded, nowMs: int, later: Decoded, laterMs: int)
    requires CheckAuth(items, decoded, nowMs).items != items
    ensures var after := CheckAuth(items, decoded, nowMs).items;
      CheckAuth(after, later, laterMs) == AuthCheck(false, after)
  {
  }

  /** A token accepted at some time is accepted at every earlier time. */
  lemma AcceptedEarlier(items: map<string, string>, decoded: Decoded, t1: int, t2: int)
    requires t1 <= t2 && CheckAuth(items, decoded, t2).authenticated
    ensures CheckAuth(items, decoded, t1).authenticated
  {
  }

  /** `isAuthenticated` on the browser's storage. */
  method IsAuthenticated(store: LocalStorage, decoded: Decoded, nowMs: int) returns (authenticated: bool)
    modifies store
    ensures AuthCheck(authenticated, store.items) == CheckAuth(old(store.items), decoded, nowMs)
  {
    var token := store.GetItem("token");
    if !TruthyText(token) {
      return false;
    }
    if decoded.Undecodable? {
      return false;
    }
    if HasExpiry(decoded) && Expired(decoded, nowMs) {
      store.RemoveItem("token");
      store.RemoveItem("user");
      assert store.items == old(store.items) - {"token", "user"};
      return false;
    }
    return true;
  }
}
