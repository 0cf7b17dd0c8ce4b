/** The authentication protocol of backend/app/auth.py: password helpers,
    token issue and validation, identity resolution for protected routes, and
    the `/register`, `/login` and `/me` handlers, as pure functions over an
    immutable user store. The clock, the fresh identifier and the bcrypt salt
    are parameters; HTTP errors are values carrying status and detail. */
module Auth {
  import opened Outcomes
  import Config
  import Uuids
  import Passwords
  import Jose

  type Uuid = Uuids.Uuid

  /** A row of the users table. */
  datatype User = User(id: Uuid, email: string, hashedPassword: string, createdAt: int)

  /** The users table, by primary key. */
  type Store = map<Uuid, User>

  /** Every row sits under its own id, and no two rows share an email. */
  ghost predicate ValidStore(store: Store) {
    && (forall k :: k in store ==> store[k].id == k)
    && (forall a, b :: a in store && b in store && store[a].email == store[b].email ==> a == b)
  }

  /** The `HTTPException`s the handlers raise. */
  datatype HttpError = HttpError(status: nat, detail: string)

  const EmailAlreadyRegistered := HttpError(400, "Email already registered")
  const InvalidCredentials := HttpError(400, "Invalid credentials")
  const InvalidToken := HttpError(401, "Invalid token")
  const UserNotFound := HttpError(401, "User not found")

  /** The `Token` response schema. */
  datatype TokenResponse = TokenResponse(accessToken: string, tokenType: string)

  /** The `UserOut` response schema; the user record has no phone, so it is
      always `None`. */
  datatype UserOut = UserOut(id: Uuid, email: string, phone: Option<string>, createdAt: int)

  /** What resolving a request's identity can end in: a value, an
      `HTTPException`, or an exception the handler does not catch. */
  datatype Resolution<+T> = Resolved(value: T) | Rejected(error: HttpError) | Unhandled(exception: string)

  /** The exception class `uuid.UUID` raises on text that is not an
      identifier (its message depends on which check failed). */
  const BadUuid := "ValueError"

  /** The foreign collaborators and the configuration the module reads. */
  datatype Services = Services(hasher: Passwords.Hasher, codec: Jose.Codec, settings: Config.Settings)

  /** `timedelta(hours=1)` in seconds. */
  const DefaultExpiresDelta: int := 3600

  // ---------------- JWT helpers ----------------

  /** `{"sub": str(id)}`, the claims handed to `create_access_token`. */
  function Subject(id: Uuid): Jose.ClaimSet {
    map["sub" := Jose.Str(Uuids.ToString(id))]
  }

  /** A copy of `data` with `exp` set; `data` itself is a value and stays as it is. */
  function ExpiringClaims(data: Jose.ClaimSet, exp: int): (claims: Jose.ClaimSet)
    ensures claims.Keys == data.Keys + {"exp"}
    ensures claims["exp"] == Jose.NumericDate(exp)
    ensures forall k :: k in data && k != "exp" ==> claims[k] == data[k]
  {
    data["exp" := Jose.NumericDate(exp)]
  }

  /** `create_access_token(data, expires_delta)` called at time `now`. */
  function CreateAccessToken(svc: Services, data: Jose.ClaimSet, now: int, expiresDelta: int): (token: string)
    ensures Jose.Sound(svc.codec) ==>
      && svc.codec.parse(token).Some?
      && svc.codec.parse(token).value.alg == svc.settings.jwtAlgorithm
      && svc.codec.parse(token).value.claims.Keys == data.Keys + {"exp"}
      && svc.codec.parse(token).value.claims["exp"] == Jose.NumericDate(now + expiresDelta)
      && (forall k :: k in data && k != "exp" ==> svc.codec.parse(token).value.claims[k] == data[k])
  {
    Jose.Encode(svc.codec, svc.settings.jwtSecretKey, svc.settings.jwtAlgorithm, ExpiringClaims(data, now + expiresDelta))
  }

  /** The `sub` claim, when present, a string and non-empty (Python's
      `if not user_id` treats "" like a missing claim). */
  predicate HasSubject(claims: Jose.ClaimSet) {
    "sub" in claims && claims["sub"].Str? && claims["sub"].text != ""
  }

  /** `decode_access_token(token)` at time `now`. */
  function DecodeAccessToken(svc: Services, token: string, now: int): (r: Result<string, HttpError>)
    ensures r.Err? ==> r.error == InvalidToken
    ensures r.Ok? ==> r.value != ""
    ensures r.Ok? <==>
      Jose.Decode(svc.codec, svc.settings.jwtSecretKey, [svc.settings.jwtAlgorithm], token, now).Ok? &&
      HasSubject(Jose.Decode(svc.codec, svc.settings.jwtSecretKey, [svc.settings.jwtAlgorithm], token, now).value)
    ensures r.Ok? ==>
      Jose.Decode(svc.codec, svc.settings.jwtSecretKey, [svc.settings.jwtAlgorithm], token, now).value["sub"] == Jose.Str(r.value)
  {
    match Jose.Decode(svc.codec, svc.settings.jwtSecretKey, [svc.settings.jwtAlgorithm], token, now)
    case Err(_) => Err(InvalidToken)
    case Ok(payload) =>
      if HasSubject(payload) then Ok(payload["sub"].text) else Err(InvalidToken)
  }

  // ---------------- Current user ----------------

  /** `get_current_user(token)` at time `now`. The identifier parse sits
      outside the `try`, so a verified subject that is not an identifier
      escapes as an unhandled `ValueError` rather than a 401. */
  function GetCurrentUser(svc: Services, store: Store, token: string, now: int): (r: Resolution<User>)
    ensures r == Rejected(InvalidToken) <==> DecodeAccessToken(svc, token, now).Err?
    ensures r.Unhandled? <==>
      DecodeAccessToken(svc, token, now).Ok? && Uuids.Parse(DecodeAccessToken(svc, token, now).value).None?
    ensures r == Rejected(UserNotFound) <==>
      DecodeAccessToken(svc, token, now).Ok? && Uuids.Parse(DecodeAccessToken(svc, token, now).value).Some? &&
      Uuids.Parse(DecodeAccessToken(svc, token, now).value).value !in store
    ensures r.Rejected? ==> r.error == InvalidToken || r.error == UserNotFound
    ensures r.Resolved? ==> r.value in store.Values
    ensures r.Resolved? && ValidStore(store) ==>
      DecodeAccessToken(svc, token, now).Ok? && Uuids.Parse(DecodeAccessToken(svc, token, now).value) == Some(r.value.id)
  {
    match DecodeAccessToken(svc, token, now)
    case Err(e) => Rejected(e)
    case Ok(userId) =>
      match Uuids.Parse(userId)
      case None => Unhandled(BadUuid)
      case Some(id) => if id in store then Resolved(store[id]) else Rejected(UserNotFound)
  }

  /** The `/me` handler: the current user, projected onto `UserOut` so the
      password hash never reaches the client. */
  function Me(svc: Services, store: Store, token: string, now: int): (r: Resolution<UserOut>)
    ensures r.Resolved? <==> GetCurrentUser(svc, store, token, now).Resolved?
    ensures r.Resolved? ==>
      var u := GetCurrentUser(svc, store, token, now).value;
      r.value == UserOut(u.id, u.email, None, u.createdAt)
    ensures r.Rejected? <==> GetCurrentUser(svc, store, token, now).Rejected?
    ensures r.Rejected? ==> r.error == GetCurrentUser(svc, store, token, now).error
  {
    match GetCurrentUser(svc, store, token, now)
    case Resolved(u) => Resolved(UserOut(u.id, u.email, None, u.createdAt))
    case Rejected(e) => Rejected(e)
    case Unhandled(x) => Unhandled(x)
  }

  // ---------------- Routes ----------------

  /** Some row has this email. */
  predicate EmailTaken(store: Store, email: string) {
    exists k :: k in store && store[k].email == email
  }

  /** `db.query(User).filter(User.email == email).first()`; the query has no
      order, so when several rows match any of them may come back. */
  ghost function FindByEmail(store: Store, email: string): (r: Option<User>)
    ensures r.Some? <==> EmailTaken(store, email)
    ensures r.Some? ==> r.value in store.Values && r.value.email == email
    ensures r.Some? && ValidStore(store) ==> r.value.id in store && store[r.value.id] == r.value
  {
    if EmailTaken(store, email) then
      var k :| k in store && store[k].email == email; Some(store[k])
    else None
  }

  /** What `/register` leaves behind: the table after the request, and the
      response or error. */
  datatype Registration = Registration(store: Store, result: Result<TokenResponse, HttpError>)

  /** The `/register` handler at time `now`; `id` is the `uuid4()` drawn and
      `salt` the randomness bcrypt draws. */
  function Register(svc: Services, store: Store, email: string, password: string,
                    id: Uuid, salt: string, now: int): (out: Registration)
    requires id !in store
    ensures EmailTaken(store, email) ==> out == Registration(store, Err(EmailAlreadyRegistered))
    ensures !EmailTaken(store, email) ==>
      && out.result.Ok?
      && out.store.Keys == store.Keys + {id}
      && (forall k :: k in store ==> out.store[k] == store[k])
      && out.store[id] == User(id, email, Passwords.HashPassword(svc.hasher, password, salt), now)
    ensures out.result.Ok? ==>
      out.result.value == TokenResponse(CreateAccessToken(svc, Subject(id), now, DefaultExpiresDelta), "bearer")
  {
    if EmailTaken(store, email) then
      Registration(store, Err(EmailAlreadyRegistered))
    else
      var user := User(id, email, Passwords.HashPassword(svc.hasher, password, salt), now);
      var token := CreateAccessToken(svc, Subject(user.id), now, DefaultExpiresDelta);
      Registration(store[id := user], Ok(TokenResponse(token, "bearer")))
  }

  /** The `/login` handler at time `now`. It only reads the table. */
  ghost function Login(svc: Services, store: Store, email: string, password: string, now: int)
    : (r: Result<TokenResponse, HttpError>)
    ensures r.Err? ==> r.error == InvalidCredentials
    ensures !EmailTaken(store, email) ==> r == Err(InvalidCredentials)
    ensures r.Ok? ==>
      exists k :: k in store && store[k].email == email &&
                  Passwords.VerifyPassword(svc.hasher, password, store[k].hashedPassword) &&
                  r.value == TokenResponse(CreateAccessToken(svc, Subject(store[k].id), now, DefaultExpiresDelta), "bearer")
  {
    match FindByEmail(store, email)
    case None => Err(InvalidCredentials)
    case Some(user) =>
      if !Passwords.VerifyPassword(svc.hasher, password, user.hashedPassword) then Err(InvalidCredentials)
      else Ok(TokenResponse(CreateAccessToken(svc, Subject(user.id), now, DefaultExpiresDelta), "bearer"))
  }
}
