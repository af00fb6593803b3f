/**
 * utils/session.go over gorilla/sessions' CookieStore. The store gets one
 * key, hard-coded at utils/session.go:14, so cookies are signed with an HMAC
 * and only base64-encoded, never encrypted: a client can read the username
 * and email in its cookie. The codec is ideal here: a cookie this program
 * wrote comes back with exactly the values it wrote, and any other cookie is
 * rejected. The program does not guarantee that, since anyone who knows the
 * published key can sign a cookie of their own. The user travels as JSON
 * text inside `Values["user"]`.
 */
module Sessions {
  import opened Wrappers
  import opened Models

  /** The key SetUserSession writes and the other two read or delete. */
  const UserKey: string := "user"

  /** session.Options.MaxAge after SetUserSession: 86400 * 7 seconds. */
  const WeekSeconds: int := 86400 * 7

  /** sessions.NewCookieStore's default MaxAge (30 days), which a loaded session starts with. */
  const DefaultMaxAge: int := 86400 * 30

  /** A JSON document; numbers are integers in this model. */
  datatype Json =
    | JNull
    | JBool(b: bool)
    | JNumber(n: int)
    | JString(s: string)
    | JArray(items: seq<Json>)
    | JObject(fields: map<string, Json>)

  /** The bytes of a []byte value: the text of some JSON document, or not JSON at all. */
  datatype JsonText = Text(doc: Json) | Malformed

  /** A value of session.Values: a []byte, or a value of any other Go type. */
  datatype Value = Bytes(text: JsonText) | OtherValue

  /**
   * What the browser sends back: no cookie, a cookie this program's key
   * signed (the ideal codec returns its values), or one that fails decoding
   * (tampered, signed with another key, or expired).
   */
  datatype Cookie = NoCookie | Genuine(values: map<string, Value>) | Rejected

  /** The session that store.Get hands out, and the cookie Save wrote into the response, if any. */
  datatype SessionState = SessionState(values: map<string, Value>, maxAge: int, loadOk: bool, written: Option<Cookie>)

  /** The session's errors: store.Get could not decode the request's cookie. */
  datatype SessionError = ErrDecode

  // ------------------------------------------------------------ JSON and float64

  /** 2^53: every integer of at most this magnitude is a float64. */
  const ExactLimit: int := 0x20_0000_0000_0000

  function Pow2(e: nat): (p: nat)
    ensures p >= 1
  {
    if e == 0 then 1 else 2 * Pow2(e - 1)
  }

  /** How many low bits of `m` a float64 cannot hold. */
  function DroppedBits(m: nat): nat {
    if m < ExactLimit then 0 else 1 + DroppedBits(m / 2)
  }

  /** A magnitude rounded to 53 significant bits, ties to even. */
  function RoundMagnitude(m: nat): int {
    var e := DroppedBits(m);
    if e == 0 then m
    else
      var unit := Pow2(e);
      var q := m / unit;
      var rem := m % unit;
      var half := unit / 2;
      if rem > half || (rem == half && q % 2 == 1) then (q + 1) * unit else q * unit
  }

  /**
   * int(float64(n)): json.Unmarshal into interface{} turns every number into
   * a float64, which GetUserFromSession converts back to int.
   */
  function Float64(n: int): int {
    if n < 0 then -RoundMagnitude(-n) else RoundMagnitude(n)
  }

  /** Ids up to 2^53 in magnitude survive the float64 detour. */
  lemma Float64Exact(n: int)
    requires -ExactLimit < n < ExactLimit
    ensures Float64(n) == n
  {
  }

  /** The first id that does not: 2^53 + 1 comes back as 2^53. */
  lemma Float64LosesId()
    ensures Float64(ExactLimit + 1) == ExactLimit
  {
    assert DroppedBits(ExactLimit / 2) == 0;
    assert DroppedBits(ExactLimit + 1) == 1;
    assert Pow2(1) == 2;
  }

  /** json.Marshal of a document: the ideal encoder writes its text. */
  function Marshal(doc: Json): JsonText {
    Text(doc)
  }

  /**
   * json.Unmarshal into a map[string]interface{}: an object gives its fields,
   * `null` leaves the map nil without an error, anything else is an error.
   */
  function UnmarshalObject(text: JsonText): (r: Option<map<string, Json>>)
    ensures text == Malformed ==> r == None
    ensures forall doc :: text == Marshal(doc) && doc.JObject? ==> r == Some(doc.fields)
  {
    match text
    case Malformed => None
    case Text(JObject(fields)) => Some(fields)
    case Text(JNull) => Some(map[])
    case Text(_) => None
  }

  // ------------------------------------------------------------ the projection

  /** The safeUser map: id, username and email only. */
  function SafeUser(u: User): Json {
    JObject(map["id" := JNumber(u.id), "username" := JString(u.username), "email" := JString(u.email)])
  }

  /** A decoded map on which the three type assertions of GetUserFromSession succeed. */
  predicate ProjectionShaped(fields: map<string, Json>) {
    && "id" in fields && fields["id"].JNumber?
    && "username" in fields && fields["username"].JString?
    && "email" in fields && fields["email"].JString?
  }

  /**
   * Values that GetUserFromSession can read without panicking: the "user"
   * entry, if present, is a []byte, and if it decodes to a map, the map has
   * the three fields with the asserted types.
   */
  predicate WellFormed(values: map<string, Value>) {
    UserKey in values ==>
      && values[UserKey].Bytes?
      && (UnmarshalObject(values[UserKey].text).Some? ==> ProjectionShaped(UnmarshalObject(values[UserKey].text).value))
  }

  predicate CookieWellFormed(c: Cookie) {
    c.Genuine? ==> WellFormed(c.values)
  }

  /** The user a decoded projection stands for: no password, zero timestamps. */
  function ProjectedUser(fields: map<string, Json>): User
    requires ProjectionShaped(fields)
  {
    User(Float64(fields["id"].n), fields["username"].s, fields["email"].s, "", ZeroTime, ZeroTime)
  }

  // ------------------------------------------------------------ the three operations

  /** store.Get: a genuine cookie gives its values, no cookie a new session, a rejected one a new session and an error. */
  function Load(c: Cookie): (s: SessionState)
    ensures s.maxAge == DefaultMaxAge && s.written == None
    ensures s.loadOk <==> !c.Rejected?
    ensures c.Genuine? ==> s.values == c.values
    ensures !c.Genuine? ==> s.values == map[]
  {
    match c
    case Genuine(values) => SessionState(values, DefaultMaxAge, true, None)
    case NoCookie => SessionState(map[], DefaultMaxAge, true, None)
    case Rejected => SessionState(map[], DefaultMaxAge, false, None)
  }

  /** session.Save: a negative MaxAge deletes the cookie; otherwise it carries the values. */
  function Written(values: map<string, Value>, maxAge: int): (c: Cookie)
    ensures maxAge < 0 <==> c == NoCookie
    ensures maxAge >= 0 ==> c == Genuine(values)
  {
    if maxAge < 0 then NoCookie else Genuine(values)
  }

  /** GetUserFromSession: nil on a decode error, a missing key or JSON that is not an object. */
  function GetUserFromSession(s: SessionState): (u: Option<User>)
    requires WellFormed(s.values)
    ensures !s.loadOk ==> u == None
    ensures UserKey !in s.values ==> u == None
    ensures UserKey in s.values && UnmarshalObject(s.values[UserKey].text).None? ==> u == None
    ensures u.Some? ==> u.value.password == "" && u.value.createdAt == ZeroTime && u.value.updatedAt == ZeroTime
  {
    if !s.loadOk || UserKey !in s.values then None
    else match UnmarshalObject(s.values[UserKey].text)
      case None => None
      case Some(fields) => Some(ProjectedUser(fields))
  }

  /** SetUserSession: the projection under "user", a week's MaxAge, and the cookie saved. */
  function SetUser(s: SessionState, u: User): (r: Result<SessionState, SessionError>)
    ensures r.Failure? <==> !s.loadOk
    ensures r.Success? ==> r.value.maxAge == WeekSeconds && r.value.loadOk
    ensures r.Success? ==> r.value.values.Keys == s.values.Keys + {UserKey}
    ensures r.Success? ==> r.value.values[UserKey] == Bytes(Marshal(SafeUser(u)))
    ensures r.Success? ==> forall k :: k in s.values && k != UserKey ==> r.value.values[k] == s.values[k]
    ensures r.Success? ==> r.value.written == Some(Genuine(r.value.values))
  {
    if !s.loadOk then Failure(ErrDecode)
    else
      var values := s.values[UserKey := Bytes(Marshal(SafeUser(u)))];
      Success(SessionState(values, WeekSeconds, true, Some(Written(values, WeekSeconds))))
  }

  /** ClearUserSession: drop "user", MaxAge -1, and the cookie saved as a deletion. */
  function ClearUser(s: SessionState): (r: Result<SessionState, SessionError>)
    ensures r.Failure? <==> !s.loadOk
    ensures r.Success? ==> UserKey !in r.value.values && r.value.maxAge == -1
    ensures r.Success? ==> r.value.values == s.values - {UserKey}
    ensures r.Success? ==> r.value.written == Some(NoCookie)
  {
    if !s.loadOk then Failure(ErrDecode)
    else
      var values := s.values - {UserKey};
      Success(SessionState(values, -1, true, Some(Written(values, -1))))
  }

  // ------------------------------------------------------------ properties

  /** Set then get, in the same request or from the cookie the response carried: same id, username and email. */
  lemma {:induction false} SetThenGet(s: SessionState, u: User)
    requires WellFormed(s.values) && s.loadOk
    requires -ExactLimit < u.id < ExactLimit
    ensures SetUser(s, u).Success?
    ensures var s' := SetUser(s, u).value;
      && WellFormed(s'.values)
      && GetUserFromSession(s') == Some(User(u.id, u.username, u.email, "", ZeroTime, ZeroTime))
      && CookieWellFormed(s'.written.value)
      && GetUserFromSession(Load(s'.written.value)) == GetUserFromSession(s')
  {
    var s' := SetUser(s, u).value;
    assert s'.values[UserKey] == Bytes(Text(SafeUser(u)));
    Float64Exact(u.id);
  }

  /** The stored projection holds no password: two users differing only in password store the same session. */
  lemma PasswordNeverStored(s: SessionState, u: User, otherPassword: string)
    ensures SetUser(s, u) == SetUser(s, u.(password := otherPassword))
    ensures "password" !in SafeUser(u).fields
  {
  }

  /** Clear then get: nothing, in the same request and from the deleted cookie alike. */
  lemma {:induction false} ClearThenGet(s: SessionState)
    requires WellFormed(s.values) && s.loadOk
    ensures ClearUser(s).Success?
    ensures var s' := ClearUser(s).value;
      && WellFormed(s'.values)
      && GetUserFromSession(s') == None
      && GetUserFromSession(Load(s'.written.value)) == None
  {
  }

  /** A cookie that fails decoding yields no identity and makes Set and Clear fail without changes. */
  lemma RejectedCookie(u: User)
    ensures GetUserFromSession(Load(Rejected)) == None
    ensures SetUser(Load(Rejected), u).Failure?
    ensures ClearUser(Load(Rejected)).Failure?
  {
  }

  /**
   * utils/session.go's functions as the handlers use them: each request's
   * session object, loaded from its cookie, whose Values map and MaxAge the
   * setters change in place and whose Save records the response cookie.
   */
  class Session {
    var values: map<string, Value>
    var maxAge: int
    const loadOk: bool
    var written: Option<Cookie>

    function State(): SessionState
      reads this
    {
      SessionState(values, maxAge, loadOk, written)
    }

    /** Only well-shaped projections are ever stored, so the type assertions never panic. */
    ghost predicate Valid()
      reads this
    {
      WellFormed(values)
    }

    /** store.Get(r, "goblog-session") */
    constructor Get(c: Cookie)
      requires CookieWellFormed(c)
      ensures Valid() && State() == Load(c)
    {
      match c {
        case Genuine(v) =>
          values, loadOk := v, true;
        case NoCookie =>
          values, loadOk := map[], true;
        case Rejected =>
          values, loadOk := map[], false;
      }
      maxAge, written := DefaultMaxAge, None;
    }

    /** session.Save: the response's Set-Cookie. */
    method Save()
      modifies this
      ensures written == Some(Written(values, maxAge))
      ensures values == old(values) && maxAge == old(maxAge)
    {
      written := Some(Written(values, maxAge));
    }

    method SetUserSession(u: User) returns (err: Option<SessionError>)
      requires Valid()
      modifies this
      ensures Valid()
      ensures var r := SetUser(old(State()), u);
        && (r.Failure? ==> err == Some(r.error) && State() == old(State()))
        && (r.Success? ==> err == None && State() == r.value)
    {
      if !loadOk {
        return Some(ErrDecode);
      }
      values := values[UserKey := Bytes(Marshal(SafeUser(u)))];
      maxAge := WeekSeconds;
      Save();
      err := None;
    }

    method ClearUserSession() returns (err: Option<SessionError>)
      requires Valid()
      modifies this
      ensures Valid()
      ensures var r := ClearUser(old(State()));
        && (r.Failure? ==> err == Some(r.error) && State() == old(State()))
        && (r.Success? ==> err == None && State() == r.value)
    {
      if !loadOk {
        return Some(ErrDecode);
      }
      values := values - {UserKey};
      maxAge := -1;
      Save();
      err := None;
    }
  }
}
