/** The session store behind `AuthService`: a key-value storage standing in
    for `localStorage`, plus the current-user cell that the service's
    `BehaviorSubject` publishes. */
module Auth {
  import opened Wrappers
  import opened Http
  import opened Text

  /** The browser's `localStorage`, as a map from keys to string values. */
  type Storage = map<string, string>

  const TokenKey: string := "auth_token"
  const UserKey: string := "current_user"

  /** The user record the server returns on login. */
  datatype User = User(id: int, username: string, email: string, role: Option<string>)

  /** The body of a successful `POST /auth/login`; `token` may be missing or
      empty in a malformed response, which the service tests for. */
  datatype LoginResponse = LoginResponse(token: Option<string>, user: User)

  /** The JSON codec for stored users. `serialize` stands for `JSON.stringify`;
      `parse` for `JSON.parse`, with `None` where parsing throws (or yields no
      user at all). */
  datatype Codec = Codec(serialize: User -> string, parse: string -> Option<User>)

  /** The codec reads back what it wrote, and what it writes is never empty
      (`JSON.stringify` of a record is at least `{}`). */
  ghost predicate RoundTrips(c: Codec) {
    forall u :: c.serialize(u) != "" && c.parse(c.serialize(u)) == Some(u)
  }

  /** The service's whole state: what is in storage and the user the subject
      currently holds. */
  datatype Session = Session(storage: Storage, current: Option<User>)

  /** `localStorage.getItem`. */
  function GetItem(storage: Storage, key: string): Option<string> {
    if key in storage then Some(storage[key]) else None
  }

  /** Every key other than the session's two holds the same value in both stores. */
  ghost predicate OtherKeysUnchanged(before: Storage, after: Storage) {
    forall k :: k != TokenKey && k != UserKey ==> GetItem(after, k) == GetItem(before, k)
  }

  /** `getStoredUser`: the parsed `current_user` entry; none when the entry is
      missing or empty, and none (never a failure) when it does not parse. */
  function StoredUser(storage: Storage, c: Codec): (r: Option<User>)
    ensures r.Some? ==> Truthy(GetItem(storage, UserKey))
    ensures Truthy(GetItem(storage, UserKey)) ==> r == c.parse(storage[UserKey])
  {
    var userStr := GetItem(storage, UserKey);
    if Truthy(userStr) then c.parse(userStr.value) else None
  }

  /** The constructor: storage is only read, and the subject starts out
      holding the stored user, which is none unless `current_user` holds a
      non-empty value. */
  function Init(storage: Storage, c: Codec): (s: Session)
    ensures s.storage == storage
    ensures s.current.Some? ==> Truthy(GetItem(storage, UserKey))
    ensures s.current == StoredUser(storage, c)
  {
    Session(storage, StoredUser(storage, c))
  }

  /** The `token` getter. */
  function Token(s: Session): (r: Option<string>)
    ensures r.Some? <==> TokenKey in s.storage
    ensures r.Some? ==> r.value == s.storage[TokenKey]
  {
    GetItem(s.storage, TokenKey)
  }

  /** The `currentUserValue` getter: the value the subject last published. */
  function CurrentUserValue(s: Session): (r: Option<User>)
    ensures r == s.current
  {
    s.current
  }

  /** `isLoggedIn`: the stored token is present and non-empty. */
  function IsLoggedIn(s: Session): (r: bool)
    ensures r <==> TokenKey in s.storage && s.storage[TokenKey] != ""
  {
    Truthy(Token(s))
  }

  /** The success `tap` of `login`: a response carrying a token stores the
      token and the serialised user and publishes the user; a response
      without one changes nothing. */
  function LoginTap(s: Session, response: LoginResponse, c: Codec): (r: Session)
    ensures Truthy(response.token) ==>
      && GetItem(r.storage, TokenKey) == response.token
      && GetItem(r.storage, UserKey) == Some(c.serialize(response.user))
      && OtherKeysUnchanged(s.storage, r.storage)
      && CurrentUserValue(r) == Some(response.user)
    ensures !Truthy(response.token) ==> r == s
  {
    if Truthy(response.token) then
      var storage := s.storage[TokenKey := response.token.value][UserKey := c.serialize(response.user)];
      Session(storage, Some(response.user))
    else
      s
  }

  /** `login`, once its request has settled: the side effects run only when
      the request succeeded. */
  function Login(s: Session, reply: Reply<LoginResponse>, c: Codec): (r: Session)
    ensures reply.Err? ==> r == s
    ensures reply.Ok? ==> r == LoginTap(s, reply.value, c)
    ensures reply.Ok? && Truthy(reply.value.token) ==> IsLoggedIn(r) && CurrentUserValue(r) == Some(reply.value.user)
  {
    match reply
    case Ok(response) => LoginTap(s, response, c)
    case Err(_) => s
  }

  /** `logout`: both session keys are removed, nothing else in storage
      changes, and the subject publishes no user. */
  function Logout(s: Session): (r: Session)
    ensures TokenKey !in r.storage && UserKey !in r.storage
    ensures OtherKeysUnchanged(s.storage, r.storage)
    ensures CurrentUserValue(r) == None
    ensures !IsLoggedIn(r)
  {
    Session(s.storage - {TokenKey, UserKey}, None)
  }

  lemma LogoutIdempotent(s: Session)
    ensures Logout(Logout(s)) == Logout(s)
  {
  }

  /** Restoring at startup after a login reads back the user that logged in. */
  lemma RestoreAfterLogin(s: Session, response: LoginResponse, c: Codec)
    requires RoundTrips(c)
    requires Truthy(response.token)
    ensures Init(LoginTap(s, response, c).storage, c).current == Some(response.user)
    ensures IsLoggedIn(Init(LoginTap(s, response, c).storage, c))
  {
  }

  /** Restoring after a logout finds nobody. */
  lemma RestoreAfterLogout(s: Session, c: Codec)
    ensures Init(Logout(s).storage, c).current == None
    ensures !IsLoggedIn(Init(Logout(s).storage, c))
  {
  }

  /** A stored user that does not parse is restored as no user; the stored
      token is left alone, so the session can be logged in with no user. */
  lemma CorruptStoredUser(storage: Storage, c: Codec)
    requires UserKey in storage && c.parse(storage[UserKey]).None?
    ensures Init(storage, c).current == None
    ensures IsLoggedIn(Init(storage, c)) <==> Truthy(GetItem(storage, TokenKey))
  {
  }

  /** One call the session can see: a settled login request, or a logout. */
  datatype Event = LoginSettled(reply: Reply<LoginResponse>) | LogoutCalled

  function Apply(s: Session, e: Event, c: Codec): Session {
    match e
    case LoginSettled(reply) => Login(s, reply, c)
    case LogoutCalled => Logout(s)
  }

  /** The session after a sequence of calls, in order. */
  function Run(s: Session, events: seq<Event>, c: Codec): Session
    decreases |events|
  {
    if events == [] then s
    else Apply(Run(s, events[..|events| - 1], c), events[|events| - 1], c)
  }

  /** A call that changes the session: a logout, or a successful login whose
      response carries a token. */
  predicate Effective(e: Event) {
    e.LogoutCalled? || (e.reply.Ok? && Truthy(e.reply.value.token))
  }

  /** The last call in `events` that changed the session, if any. */
  function LastEffective(events: seq<Event>): (r: Option<Event>)
    ensures r.Some? ==> Effective(r.value) && r.value in events
  {
    if events == [] then None
    else if Effective(events[|events| - 1]) then Some(events[|events| - 1])
    else LastEffective(events[..|events| - 1])
  }

  /** After any sequence of calls the session is logged in exactly when the
      last call that changed it was a login (or, when none did, exactly when
      it was logged in to begin with). */
  lemma {:induction false} LoggedInAfterRun(s: Session, events: seq<Event>, c: Codec)
    ensures IsLoggedIn(Run(s, events, c)) <==>
      match LastEffective(events)
      case Some(e) => e.LoginSettled?
      case None => IsLoggedIn(s)
    decreases |events|
  {
    if events != [] {
      LoggedInAfterRun(s, events[..|events| - 1], c);
    }
  }

  /** The stored user and the published user agree. */
  ghost predicate Mirrored(s: Session, c: Codec) {
    StoredUser(s.storage, c) == s.current
  }

  /** The constructor establishes the mirror, and with a codec that reads back
      what it writes every login and logout keeps it: what a restart would
      restore is always the user currently published. */
  lemma {:induction false} MirroredAfterRun(storage: Storage, events: seq<Event>, c: Codec)
    requires RoundTrips(c)
    ensures Mirrored(Run(Init(storage, c), events, c), c)
    decreases |events|
  {
    if events != [] {
      var before := Run(Init(storage, c), events[..|events| - 1], c);
      MirroredAfterRun(storage, events[..|events| - 1], c);
      var e := events[|events| - 1];
      if e.LoginSettled? && e.reply.Ok? && Truthy(e.reply.value.token) {
        var u := e.reply.value.user;
        assert c.serialize(u) != "" && c.parse(c.serialize(u)) == Some(u);
      }
    }
  }

  /** The token and the user are present together. */
  predicate Paired(s: Session) {
    IsLoggedIn(s) <==> s.current.Some?
  }

  /** Logins and logouts keep the token and the user paired once they are. */
  lemma {:induction false} PairedAfterRun(s: Session, events: seq<Event>, c: Codec)
    requires Paired(s)
    ensures Paired(Run(s, events, c))
    decreases |events|
  {
    if events != [] {
      PairedAfterRun(s, events[..|events| - 1], c);
    }
  }
}
