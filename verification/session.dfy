/**
 The session store (src/context/AuthContext.tsx): the signed-in user, the
 bearer token and the loading flag, mirrored into two keys of the browser's
 local storage. The storage is a plain key-to-string map, and the JSON
 rendering of a user record is a parameter.
 */
module Session {
  import opened Js
  import opened Http

  const TokenKey: string := "authToken"
  const UserKey: string := "userData"

  /** A user as the auth endpoints return it. */
  datatype User = User(userId: string, username: string, email: Option<string>)

  /** What `JSON.parse` makes of a stored user text: a user object, `null`, or a thrown `SyntaxError`. */
  datatype Decoded = UserObject(user: User) | NullValue | SyntaxError

  /** `JSON.stringify` and `JSON.parse` on user records. */
  datatype UserCodec = UserCodec(stringify: User -> string, parse: string -> Decoded)

  /** The JSON functions behave as JSON does: the text of a user is never empty
      and parses back to the same user. */
  ghost predicate Faithful(c: UserCodec)
  {
    forall u :: Truthy(c.stringify(u)) && c.parse(c.stringify(u)) == UserObject(u)
  }

  type Storage = map<string, string>

  /** The store's state: user, token, loading flag, and the local storage. */
  datatype Session = Session(user: Option<User>, token: Option<string>, loading: bool, storage: Storage)

  /** A field of a JSON body: left out (`undefined`), `null`, or a value. */
  datatype Field<+T> = Missing | Null | Given(value: T)

  /** The field as the store keeps it in memory, where `null` and `undefined` both mean nobody. */
  function InMemory<T>(f: Field<T>): Option<T>
  {
    match f
    case Given(v) => Some(v)
    case _ => None
  }

  /** The success body of login and signup. */
  datatype AuthData = AuthData(token: Field<string>, user: Field<User>)

  /** How `login` and `signup` settle: resolved, or rejected with the thrown value. */
  datatype Settled = Resolved | RejectedWith(thrown: Thrown)

  /** One login or signup call: the store afterwards and how the call settled. */
  datatype AuthStep = AuthStep(session: Session, settled: Settled)

  /** What the load-time effect does: it restores a session, or `JSON.parse` throws. */
  datatype Load = Loaded(session: Session) | LoadThrew

  /** `localStorage.getItem(key)` is truthy. */
  predicate Stored(st: Storage, key: string)
  {
    key in st && Truthy(st[key])
  }

  /** The store as it starts: nothing in memory, loading. */
  function Initial(st: Storage): Session
  {
    Session(None, None, true, st)
  }

  /** The load-time effect: user and token come back only when both keys hold a
      truthy value; loading ends either way unless parsing the user throws. */
  function RestoreOnLoad(st: Storage, codec: UserCodec): (r: Load)
    ensures r.Loaded? ==> !r.session.loading && r.session.storage == st
    ensures !(Stored(st, TokenKey) && Stored(st, UserKey)) ==> r == Loaded(Session(None, None, false, st))
    ensures Stored(st, TokenKey) && Stored(st, UserKey) ==>
              match codec.parse(st[UserKey])
              case UserObject(u) => r == Loaded(Session(Some(u), Some(st[TokenKey]), false, st))
              case NullValue => r == Loaded(Session(None, Some(st[TokenKey]), false, st))
              case SyntaxError => r == LoadThrew
  {
    var s := Initial(st);
    if Stored(st, TokenKey) && Stored(st, UserKey) then
      match codec.parse(st[UserKey])
      case UserObject(u) => Loaded(s.(token := Some(st[TokenKey]), user := Some(u), loading := false))
      case NullValue => Loaded(s.(token := Some(st[TokenKey]), user := None, loading := false))
      case SyntaxError => LoadThrew
    else
      Loaded(s.(loading := false))
  }

  /** `localStorage.setItem(key, value)` stores `undefined` and `null` as the texts `"undefined"` and `"null"`. */
  function StoredText(value: Field<string>): string
  {
    match value
    case Given(s) => s
    case Null => "null"
    case Missing => "undefined"
  }

  /** `JSON.stringify(user)`: `JSON.stringify(null)` is `"null"`, and `undefined`
      gives `undefined`, stored as `"undefined"`. */
  function StoredUser(codec: UserCodec, user: Field<User>): string
  {
    match user
    case Given(u) => codec.stringify(u)
    case Null => "null"
    case Missing => "undefined"
  }

  /** The common body of `login` and `signup`; `fallback` is `'Login failed'` or `'Signup failed'`. */
  function Authenticate(s: Session, codec: UserCodec, reply: Reply<Read<string>, Read<AuthData>>,
                        fallback: string): (r: AuthStep)
    ensures !r.session.loading
    ensures r.settled.RejectedWith? <==> !(reply.Ok? && reply.payload.Parsed?)
    ensures r.settled.RejectedWith? ==> r.session == s.(loading := false)
    ensures reply.NotOk? && reply.body.Parsed? ==>
              r.settled == RejectedWith(ErrorObject(Or(reply.body.value, fallback)))
    ensures reply.Rejected? ==> r.settled == RejectedWith(reply.thrown)
    ensures reply.NotOk? && reply.body.ReadFailed? ==> r.settled == RejectedWith(reply.body.thrown)
    ensures reply.Ok? && reply.payload.ReadFailed? ==> r.settled == RejectedWith(reply.payload.thrown)
    ensures r.settled.Resolved? ==>
              var data := reply.payload.value;
              && r.session.token == InMemory(data.token) && r.session.user == InMemory(data.user)
              && r.session.storage.Keys == s.storage.Keys + {TokenKey, UserKey}
              && r.session.storage[TokenKey] == StoredText(data.token)
              && r.session.storage[UserKey] == StoredUser(codec, data.user)
              && (forall k :: k in s.storage && k != TokenKey && k != UserKey ==> r.session.storage[k] == s.storage[k])
  {
    match reply
    case Rejected(t) => AuthStep(s.(loading := false), RejectedWith(t))
    case NotOk(_, Parsed(field)) => AuthStep(s.(loading := false), RejectedWith(ErrorObject(Or(field, fallback))))
    case NotOk(_, ReadFailed(t)) => AuthStep(s.(loading := false), RejectedWith(t))
    case Ok(ReadFailed(t)) => AuthStep(s.(loading := false), RejectedWith(t))
    case Ok(Parsed(data)) =>
      var st := s.storage[TokenKey := StoredText(data.token)][UserKey := StoredUser(codec, data.user)];
      AuthStep(Session(InMemory(data.user), InMemory(data.token), false, st), Resolved)
  }

  /** `login(username, password)` */
  function Login(s: Session, codec: UserCodec, reply: Reply<Read<string>, Read<AuthData>>): (r: AuthStep)
    ensures r.settled.Resolved? <==> reply.Ok? && reply.payload.Parsed?
    ensures r.settled.RejectedWith? ==> r.session == s.(loading := false)
    ensures reply.NotOk? && reply.body.Parsed? ==>
              r.settled == RejectedWith(ErrorObject(if reply.body.value != "" then reply.body.value else "Login failed"))
    ensures reply.Rejected? ==> r.settled == RejectedWith(reply.thrown)
    ensures reply.NotOk? && reply.body.ReadFailed? ==> r.settled == RejectedWith(reply.body.thrown)
    ensures reply.Ok? && reply.payload.ReadFailed? ==> r.settled == RejectedWith(reply.payload.thrown)
  {
    Authenticate(s, codec, reply, "Login failed")
  }

  /** `signup(username, password, email)` */
  function Signup(s: Session, codec: UserCodec, reply: Reply<Read<string>, Read<AuthData>>): (r: AuthStep)
    ensures r.settled.Resolved? <==> reply.Ok? && reply.payload.Parsed?
    ensures r.settled.RejectedWith? ==> r.session == s.(loading := false)
    ensures reply.NotOk? && reply.body.Parsed? ==>
              r.settled == RejectedWith(ErrorObject(if reply.body.value != "" then reply.body.value else "Signup failed"))
    ensures reply.Rejected? ==> r.settled == RejectedWith(reply.thrown)
    ensures reply.NotOk? && reply.body.ReadFailed? ==> r.settled == RejectedWith(reply.body.thrown)
    ensures reply.Ok? && reply.payload.ReadFailed? ==> r.settled == RejectedWith(reply.payload.thrown)
  {
    Authenticate(s, codec, reply, "Signup failed")
  }

  /** A refused login or signup rejects with the server's `error` text, or with
      the operation's own fallback when that is missing; either way the message
      is not empty and nothing but the loading flag changes. */
  lemma RefusedAuthChangesNothing(s: Session, codec: UserCodec, status: nat, field: string)
    ensures Login(s, codec, NotOk(status, Parsed(field))) ==
            AuthStep(s.(loading := false), RejectedWith(ErrorObject(if field != "" then field else "Login failed")))
    ensures Signup(s, codec, NotOk(status, Parsed(field))) ==
            AuthStep(s.(loading := false), RejectedWith(ErrorObject(if field != "" then field else "Signup failed")))
  {
  }

  /** `logout()` */
  function Logout(s: Session): (r: Session)
    ensures r.user.None? && r.token.None? && r.loading == s.loading
    ensures TokenKey !in r.storage && UserKey !in r.storage
    ensures forall k :: k in s.storage && k != TokenKey && k != UserKey ==> k in r.storage && r.storage[k] == s.storage[k]
    ensures r.storage.Keys <= s.storage.Keys
  {
    s.(user := None, token := None, storage := s.storage - {TokenKey, UserKey})
  }

  /** Logging out twice is logging out once. */
  lemma LogoutIdempotent(s: Session)
    ensures Logout(Logout(s)) == Logout(s)
  {
  }

  /** A success body carrying a non-empty token and a user. */
  predicate Complete(data: AuthData)
  {
    data.token.Given? && Truthy(data.token.value) && data.user.Given?
  }

  /** Memory and storage agree: a signed-in store holds the stored token and the
      user its stored text parses to; a signed-out store has nothing the load-time
      effect would restore. */
  ghost predicate Agrees(s: Session, codec: UserCodec)
  {
    match (s.user, s.token)
    case (Some(u), Some(t)) =>
      && Stored(s.storage, TokenKey) && s.storage[TokenKey] == t
      && Stored(s.storage, UserKey) && codec.parse(s.storage[UserKey]) == UserObject(u)
    case (None, None) => !(Stored(s.storage, TokenKey) && Stored(s.storage, UserKey))
    case _ => false
  }

  /** User and token are both set or both cleared. */
  predicate BothOrNeither(s: Session)
  {
    s.user.None? <==> s.token.None?
  }

  /** After a successful login or signup with a complete body, the in-memory
      token and user equal what the store wrote to storage. */
  lemma {:induction false} SuccessAgrees(s: Session, codec: UserCodec, data: AuthData, fallback: string)
    requires Faithful(codec) && Complete(data)
    ensures var r := Authenticate(s, codec, Ok(Parsed(data)), fallback);
            r.settled.Resolved? && Agrees(r.session, codec) && BothOrNeither(r.session)
  {
    var u := data.user.value;
    assert Truthy(codec.stringify(u)) && codec.parse(codec.stringify(u)) == UserObject(u);
  }

  /** Every operation keeps memory and storage in agreement, and keeps user and
      token both set or both cleared, when the success body is complete. */
  lemma {:induction false} OperationsKeepAgreement(s: Session, codec: UserCodec,
                                                   reply: Reply<Read<string>, Read<AuthData>>, fallback: string)
    requires Faithful(codec) && Agrees(s, codec)
    requires reply.Ok? && reply.payload.Parsed? ==> Complete(reply.payload.value)
    ensures Agrees(Authenticate(s, codec, reply, fallback).session, codec)
    ensures BothOrNeither(Authenticate(s, codec, reply, fallback).session)
    ensures Agrees(Logout(s), codec) && BothOrNeither(Logout(s))
  {
    if reply.Ok? && reply.payload.Parsed? {
      SuccessAgrees(s, codec, reply.payload.value, fallback);
    }
  }

  /** Reloading the page after a successful login restores exactly the signed-in session. */
  lemma {:induction false} ReloadAfterLogin(s: Session, codec: UserCodec, data: AuthData)
    requires Faithful(codec) && Complete(data)
    ensures var r := Login(s, codec, Ok(Parsed(data))).session;
            RestoreOnLoad(r.storage, codec) == Loaded(r)
  {
    var u := data.user.value;
    assert Truthy(codec.stringify(u)) && codec.parse(codec.stringify(u)) == UserObject(u);
  }

  /** A success body without a user stores the text `"undefined"` under
      `userData`; since `JSON.parse` rejects that text, the next page load throws. */
  lemma ReloadAfterLoginWithoutUser(s: Session, codec: UserCodec, t: string)
    requires Truthy(t) && codec.parse("undefined") == SyntaxError
    ensures var r := Login(s, codec, Ok(Parsed(AuthData(Given(t), Missing)))).session;
            r.token == Some(t) && r.user.None? && RestoreOnLoad(r.storage, codec) == LoadThrew
  {
  }

  /** A success body whose user is `null` stores the text `"null"` under
      `userData`; the next page load parses it back to `null` and restores the
      same token-without-user session. */
  lemma ReloadAfterLoginWithNullUser(s: Session, codec: UserCodec, t: string)
    requires Truthy(t) && codec.parse("null") == NullValue
    ensures var r := Login(s, codec, Ok(Parsed(AuthData(Given(t), Null)))).session;
            r.token == Some(t) && r.user.None? && RestoreOnLoad(r.storage, codec) == Loaded(r)
  {
  }

  /** A success body whose token is `null` leaves no token in memory but stores
      the text `"null"` under `authToken`; that text is truthy, so the next page
      load restores it as the token. */
  lemma ReloadAfterLoginWithNullToken(s: Session, codec: UserCodec, u: User)
    requires Faithful(codec)
    ensures var r := Login(s, codec, Ok(Parsed(AuthData(Null, Given(u))))).session;
            r.token.None? && r.user == Some(u) && RestoreOnLoad(r.storage, codec) == Loaded(r.(token := Some("null")))
  {
    assert Truthy(codec.stringify(u)) && codec.parse(codec.stringify(u)) == UserObject(u);
  }

  /** Reloading the page after logout restores nobody. */
  lemma ReloadAfterLogout(s: Session, codec: UserCodec)
    ensures RestoreOnLoad(Logout(s).storage, codec) == Loaded(Logout(s).(loading := false))
  {
  }

  /** The load-time effect restores a session that agrees with storage, with
      both fields or neither, whenever the stored user text is not `null`. */
  lemma RestoreAgrees(st: Storage, codec: UserCodec)
    requires !(Stored(st, TokenKey) && Stored(st, UserKey)) || !codec.parse(st[UserKey]).NullValue?
    ensures RestoreOnLoad(st, codec).Loaded? ==>
              Agrees(RestoreOnLoad(st, codec).session, codec) && BothOrNeither(RestoreOnLoad(st, codec).session)
  {
  }
}
