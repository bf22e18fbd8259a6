/** Session-based authentication (`app/Core/Auth.php`): the session map, the
    CSRF token kept in it, logging in and out, and the reads the pages and
    the front controller make of it. The random bytes behind a new token are
    a parameter of the operations that draw them. */
module Authentication {
  import opened Options
  import opened Strings

  newtype Byte = x: int | 0 <= x < 256

  /** A value stored in `$_SESSION`. */
  datatype SessionValue = Null | Str(s: string) | Int(i: int) | Bool(b: bool)

  /** PHP `empty()` on a session value. */
  predicate ValueEmpty(v: SessionValue) {
    match v
    case Null => true
    case Str(s) => IsEmpty(s)
    case Int(i) => i == 0
    case Bool(b) => !b
  }

  /** A lower-case hexadecimal digit. */
  predicate IsHexChar(c: char) {
    '0' <= c <= '9' || 'a' <= c <= 'f'
  }

  function HexDigit(n: int): (c: char)
    requires 0 <= n < 16
    ensures IsHexChar(c)
  {
    if n < 10 then ('0' as int + n) as char else ('a' as int + n - 10) as char
  }

  /** `bin2hex`: two lower-case hexadecimal digits per byte. */
  function Bin2Hex(bytes: seq<Byte>): (r: string)
    ensures |r| == 2 * |bytes|
    ensures forall i :: 0 <= i < |r| ==> IsHexChar(r[i])
  {
    if |bytes| == 0 then ""
    else [HexDigit(bytes[0] as int / 16), HexDigit(bytes[0] as int % 16)] + Bin2Hex(bytes[1..])
  }

  /** A token from `random_bytes(32)` is 64 characters long, so never PHP-empty. */
  lemma TokenNotEmpty(bytes: seq<Byte>)
    requires |bytes| == 32
    ensures !ValueEmpty(Str(Bin2Hex(bytes)))
  {
  }

  /** The user record `login` receives. */
  datatype User = User(id: int, name: string, email: string)

  /** What `user()` returns for a logged-in session. */
  datatype UserInfo = UserInfo(id: SessionValue, name: SessionValue, email: SessionValue)

  class Session {
    /** `session_status() !== PHP_SESSION_NONE`. */
    var started: bool
    /** `$_SESSION`. */
    var data: map<string, SessionValue>

    /** A request arriving with the session data its cookie names, not yet started. */
    constructor(stored: map<string, SessionValue>)
      ensures !started && data == stored
    {
      started := false;
      data := stored;
    }

    /** `$_SESSION[$key]`, a missing key reading as `null`. */
    function Get(key: string): SessionValue
      reads this
    {
      if key in data then data[key] else Null
    }

    /** `startSession`: starts the session if needed and sets a fresh token
        only when there is none or it is empty; an existing token is kept. */
    method StartSession(bytes: seq<Byte>)
      requires |bytes| == 32
      modifies this
      ensures started
      ensures ValueEmpty(old(Get("csrf_token"))) ==> data == old(data)["csrf_token" := Str(Bin2Hex(bytes))]
      ensures !ValueEmpty(old(Get("csrf_token"))) ==> data == old(data)
      ensures !ValueEmpty(Get("csrf_token"))
    {
      if !started {
        started := true;
      }
      if ValueEmpty(Get("csrf_token")) {
        data := data["csrf_token" := Str(Bin2Hex(bytes))];
      }
    }

    /** `login`: records the user and sets `logged_in` to `true`. */
    method Login(user: User)
      modifies this
      ensures data == old(data)["user_id" := Int(user.id)]["user_name" := Str(user.name)]
                               ["user_email" := Str(user.email)]["logged_in" := Bool(true)]
      ensures started == old(started)
      ensures Check() && User() == Some(UserInfo(Int(user.id), Str(user.name), Str(user.email)))
    {
      data := data["user_id" := Int(user.id)];
      data := data["user_name" := Str(user.name)];
      data := data["user_email" := Str(user.email)];
      data := data["logged_in" := Bool(true)];
    }

    /** `logout`: empties and destroys the session, then starts a new one,
        which receives a fresh token. */
    method Logout(bytes: seq<Byte>)
      requires |bytes| == 32
      modifies this
      ensures started
      ensures data == map["csrf_token" := Str(Bin2Hex(bytes))]
      ensures !Check() && User().None?
      ensures !ValueEmpty(Get("csrf_token"))
    {
      data := map[];
      started := false;
      StartSession(bytes);
    }

    /** `check`: `logged_in` is set and is the boolean `true` itself. */
    predicate Check()
      reads this
    {
      Get("logged_in") == Bool(true)
    }

    /** `user`: the three user entries while logged in, `null` otherwise. */
    function User(): (r: Option<UserInfo>)
      reads this
      ensures r.None? <==> !Check()
    {
      if Check() then Some(UserInfo(Get("user_id"), Get("user_name"), Get("user_email"))) else None
    }

    /** `csrfToken`: the stored token, or `''` when there is none. */
    function CsrfToken(): (t: SessionValue)
      reads this
      ensures Get("csrf_token") == Null ==> t == Str("")
      ensures Get("csrf_token") != Null ==> t == data["csrf_token"]
    {
      if Get("csrf_token") != Null then data["csrf_token"] else Str("")
    }

    /** `verifyCsrfToken`: false without a stored token, else whether the
        stored token equals the one submitted. The model only ever stores a
        string token there. */
    predicate VerifyCsrfToken(token: string)
      reads this
    {
      Get("csrf_token") != Null && Get("csrf_token") == Str(token)
    }
  }

  /** Only the boolean `true` logs a session in: the truthy values `1` and
      `'1'` do not. */
  lemma CheckIsStrict(s: Session)
    ensures s.Get("logged_in") == Int(1) ==> !s.Check()
    ensures s.Get("logged_in") == Str("1") ==> !s.Check()
    ensures s.Check() <==> "logged_in" in s.data && s.data["logged_in"] == Bool(true)
  {
  }

  /** A submitted token is accepted iff the session holds that very token;
      with no token in the session nothing is accepted, not even `''`. */
  lemma VerifyMeansEqual(s: Session, token: string)
    ensures s.VerifyCsrfToken(token) <==> "csrf_token" in s.data && s.data["csrf_token"] == Str(token)
    ensures "csrf_token" !in s.data ==> !s.VerifyCsrfToken(token) && s.CsrfToken() == Str("")
  {
  }
}
