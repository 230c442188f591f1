/**
 * The frontend's authentication state (frontend/src/context/UserContext.tsx):
 * the `user`, `token` and `loading` state of `AuthProvider` and the two
 * `localStorage` entries it keeps in step with them.
 *
 * `jwtDecode`, `JSON.parse` and `Date.now()` are foreign calls; their
 * results are parameters: the decoded `exp` claim of the stored token (or
 * the failure to decode it), the parsed stored user, and the time in
 * milliseconds.
 */
module UserContext {
  import opened Wrappers

  datatype User = User(username: string)

  /** What `jwtDecode` makes of the stored token: a failure, or its `exp` claim if it has one. */
  datatype DecodedToken = Undecodable | Decoded(exp: Option<int>)

  /** What `JSON.parse` makes of the stored user text. */
  datatype ParsedUser = ParseError | ParsedNull | ParsedObject(user: User)

  /** The provider's state together with the contents of `localStorage`. */
  datatype Session = Session(user: Option<User>, token: Option<string>, loading: bool,
                             storage: map<string, string>)

  const UserKey := "user"
  const TokenKey := "token"

  const JsonOpen := "{\"username\":\""
  const JsonClose := "\"}"

  /**
   * `JSON.stringify(userData)` (string escaping is not modelled): never
   * empty, so the stored user is truthy, and it holds the username between a
   * fixed opening and closing.
   */
  function Stringify(u: User): (s: string)
    ensures |s| > 0
    ensures |s| == |JsonOpen| + |u.username| + |JsonClose|
    ensures s[..|JsonOpen|] == JsonOpen && s[|JsonOpen|..|s| - |JsonClose|] == u.username
  {
    JsonOpen + u.username + JsonClose
  }

  /** Two users are stored as the same text only if they are the same user. */
  lemma StringifyInjective(u: User, v: User)
    requires Stringify(u) == Stringify(v)
    ensures u == v
  {
    var s := Stringify(u);
    assert u.username == s[|JsonOpen|..|s| - |JsonClose|] == v.username;
  }

  /** `localStorage.getItem(key)` is truthy: present and not the empty string. */
  predicate Stored(storage: map<string, string>, key: string)
    ensures key !in storage ==> !Stored(storage, key)
    ensures Stored(storage, key) ==> storage[key] != ""
    ensures key in storage && storage[key] != "" ==> Stored(storage, key)
  {
    key in storage && storage[key] != ""
  }

  /**
   * `decoded.exp * 1000 < Date.now()`: `exp` is in seconds, the clock in
   * milliseconds. A token without `exp` gives `NaN < now`, which is false.
   */
  predicate Expired(exp: Option<int>, now: int)
    ensures exp.None? ==> !Expired(exp, now)
    ensures exp.Some? && exp.value * 1000 == now ==> !Expired(exp, now)
    ensures exp.Some? && exp.value * 1000 < now ==> Expired(exp, now)
    ensures Expired(exp, now) ==> exp.Some? && exp.value * 1000 < now
  {
    exp.Some? && exp.value * 1000 < now
  }

  /** `isLoggedIn = !!user`. */
  predicate LoggedIn(s: Session) {
    s.user.Some?
  }

  /** The state when the provider mounts: nobody logged in, still loading. */
  function Mounted(storage: map<string, string>): Session {
    Session(None, None, true, storage)
  }

  /** Reading the stored session back ends on an unexpired token, decoded, whose stored user (if any) parses. */
  predicate Restorable(s: Session, decoded: DecodedToken, parsed: ParsedUser, now: int) {
    decoded.Decoded? && !Expired(decoded.exp, now) && (Stored(s.storage, UserKey) ==> !parsed.ParseError?)
  }

  /**
   * The mount effect exactly as written: the expired-token branch returns
   * before `setLoading(false)`, so `loading` keeps its value there.
   */
  function StartupAsWritten(s: Session, decoded: DecodedToken, parsed: ParsedUser, now: int): (r: Session)
    ensures r.loading <==> s.loading && Stored(s.storage, TokenKey) && decoded.Decoded? && Expired(decoded.exp, now)
  {
    if !Stored(s.storage, TokenKey) then s.(loading := false)
    else match decoded
      case Undecodable => s.(user := None, token := None, loading := false)
      case Decoded(exp) =>
        if Expired(exp, now) then
          s.(user := None, token := None, storage := s.storage - {UserKey, TokenKey})
        else
          var restored := s.(token := Some(s.storage[TokenKey]), loading := false);
          if !Stored(s.storage, UserKey) then restored
          else match parsed
            case ParseError => s.(user := None, token := None, loading := false)
            case ParsedNull => restored.(user := None)
            case ParsedObject(u) => restored.(user := Some(u))
  }

  /**
   * The mount effect with `setLoading(false)` reached on every path, as the
   * protected routes need: they show "Loading..." while `loading` is true.
   */
  function Startup(s: Session, decoded: DecodedToken, parsed: ParsedUser, now: int): (r: Session)
    ensures !r.loading
    ensures r.storage == if Stored(s.storage, TokenKey) && decoded.Decoded? && Expired(decoded.exp, now)
                         then s.storage - {UserKey, TokenKey} else s.storage
    ensures !Stored(s.storage, TokenKey) ==> r.user == s.user && r.token == s.token
    ensures Stored(s.storage, TokenKey) ==>
              (r.token.Some? <==> Restorable(s, decoded, parsed, now)) &&
              (r.token.Some? ==> r.token == Some(s.storage[TokenKey])) &&
              (!Restorable(s, decoded, parsed, now) ==> r.user == None) &&
              (Restorable(s, decoded, parsed, now) && !Stored(s.storage, UserKey) ==> r.user == s.user) &&
              (Stored(s.storage, UserKey) && r.user.Some? ==> parsed == ParsedObject(r.user.value))
    ensures Stored(s.storage, TokenKey) && Restorable(s, decoded, parsed, now) && Stored(s.storage, UserKey) ==>
              r.user == (if parsed.ParsedObject? then Some(parsed.user) else None)
  {
    StartupAsWritten(s, decoded, parsed, now).(loading := false)
  }

  /** `login`: both storage entries written, then both state fields set. */
  function LoginState(s: Session, u: User, t: string): (r: Session)
    ensures LoggedIn(r) && r.user == Some(u) && r.token == Some(t) && r.loading == s.loading
    ensures r.storage.Keys == s.storage.Keys + {UserKey, TokenKey}
    ensures r.storage[TokenKey] == t && r.storage[UserKey] == Stringify(u)
    ensures forall k :: k in s.storage && k != UserKey && k != TokenKey ==> r.storage[k] == s.storage[k]
  {
    s.(user := Some(u), token := Some(t), storage := s.storage[UserKey := Stringify(u)][TokenKey := t])
  }

  /** `logout`: both storage entries removed, both state fields cleared. */
  function LogoutState(s: Session): (r: Session)
    ensures !LoggedIn(r) && r.token == None && r.loading == s.loading
    ensures r.storage.Keys == s.storage.Keys - {UserKey, TokenKey}
    ensures forall k :: k in r.storage ==> r.storage[k] == s.storage[k]
  {
    s.(user := None, token := None, storage := s.storage - {UserKey, TokenKey})
  }

  /** Whether someone is logged in depends on the user alone, never on the token. */
  lemma LoggedInIgnoresToken(s: Session, t: Option<string>)
    ensures LoggedIn(s.(token := t)) == LoggedIn(s)
    ensures LoggedIn(s) <==> s.user.Some?
  {
  }

  /**
   * A page load after `login` restores the same user and token, provided the
   * token is not empty, has not expired, and `JSON.parse` reads back what
   * `JSON.stringify` wrote.
   */
  lemma ReloadAfterLogin(s: Session, u: User, t: string, exp: Option<int>, now: int)
    requires t != "" && !Expired(exp, now)
    ensures var r := Startup(Mounted(LoginState(s, u, t).storage), Decoded(exp), ParsedObject(u), now);
            r.user == Some(u) && r.token == Some(t) && !r.loading && LoggedIn(r)
  {
    var stored := LoginState(s, u, t).storage;
    assert Stored(stored, TokenKey) && Stored(stored, UserKey);
  }

  /** A page load after `logout` restores nobody, whatever the decoder and parser would say. */
  lemma ReloadAfterLogout(s: Session, decoded: DecodedToken, parsed: ParsedUser, now: int)
    ensures var m := Mounted(LogoutState(s).storage);
            Startup(m, decoded, parsed, now) == m.(loading := false)
  {
  }

  /** A token that has expired, or cannot be decoded, never restores a session. */
  lemma StaleTokenRejected(s: Session, decoded: DecodedToken, parsed: ParsedUser, now: int)
    requires Stored(s.storage, TokenKey)
    requires decoded.Undecodable? || Expired(decoded.exp, now)
    ensures var r := Startup(s, decoded, parsed, now);
            r.user == None && r.token == None && !LoggedIn(r)
  {
  }

  /**
   * As written, a page load with an expired stored token leaves `loading`
   * true for good, while the corrected effect finishes loading.
   */
  lemma ExpiredTokenKeepsLoading()
    ensures var m := Mounted(map[TokenKey := "x"]);
            StartupAsWritten(m, Decoded(Some(0)), ParsedNull, 1).loading &&
            !Startup(m, Decoded(Some(0)), ParsedNull, 1).loading
  {
  }

  /** The provider component: its three state variables and `localStorage`. */
  class AuthProvider {
    var user: Option<User>
    var token: Option<string>
    var loading: bool
    var storage: map<string, string>

    function Snapshot(): Session
      reads this
    {
      Session(user, token, loading, storage)
    }

    /** Mounting: `useState(null)`, `useState(null)`, `useState(true)`. */
    constructor(stored: map<string, string>)
      ensures Snapshot() == Mounted(stored)
    {
      user := None;
      token := None;
      loading := true;
      storage := stored;
    }

    /** The mount effect, reaching `setLoading(false)` on every path. */
    method RestoreSession(decoded: DecodedToken, parsed: ParsedUser, now: int)
      modifies this
      ensures Snapshot() == Startup(old(Snapshot()), decoded, parsed, now)
    {
      var storedUser := if UserKey in storage then Some(storage[UserKey]) else None;
      var storedToken := if TokenKey in storage then Some(storage[TokenKey]) else None;
      if storedToken.Some? && storedToken.value != "" {
        if decoded.Undecodable? {
          user := None;
          token := None;
        } else if Expired(decoded.exp, now) {
          storage := storage - {UserKey};
          storage := storage - {TokenKey};
          user := None;
          token := None;
        } else {
          token := storedToken;
          if storedUser.Some? && storedUser.value != "" {
            match parsed {
              case ParseError =>
                user := None;
                token := None;
              case ParsedNull =>
                user := None;
              case ParsedObject(u) =>
                user := Some(u);
            }
          }
        }
      }
      loading := false;
    }

    method Login(u: User, t: string)
      modifies this
      ensures Snapshot() == LoginState(old(Snapshot()), u, t)
    {
      storage := storage[UserKey := Stringify(u)];
      storage := storage[TokenKey := t];
      user := Some(u);
      token := Some(t);
    }

    method Logout()
      modifies this
      ensures Snapshot() == LogoutState(old(Snapshot()))
    {
      storage := storage - {UserKey};
      storage := storage - {TokenKey};
      user := None;
      token := None;
    }

    function IsLoggedIn(): (b: bool)
      reads this
      ensures b <==> LoggedIn(Snapshot())
    {
      user.Some?
    }
  }
}
