/** Properties of the authentication protocol that relate several calls:
    the token round trip and its expiry, what registration adds to the
    table, what login accepts, and the end-to-end flow of a new account. */
module AuthProperties {
  import opened Outcomes
  import Uuids
  import Passwords
  import Jose
  import opened Auth

  /** The claims `create_access_token` signs are the caller's plus `exp`,
      set to the issue time plus the validity window. */
  lemma IssuedClaims(svc: Services, data: Jose.ClaimSet, now: int, delta: int)
    requires Jose.Sound(svc.codec)
    ensures svc.codec.parse(CreateAccessToken(svc, data, now, delta)).Some?
    ensures var j := svc.codec.parse(CreateAccessToken(svc, data, now, delta)).value;
      && j.alg == svc.settings.jwtAlgorithm
      && j.claims.Keys == data.Keys + {"exp"}
      && j.claims["exp"] == Jose.NumericDate(now + delta)
      && (forall k :: k in data && k != "exp" ==> j.claims[k] == data[k])
  {
    var claims := ExpiringClaims(data, now + delta);
    var j := Jose.Sign(svc.codec, svc.settings.jwtSecretKey, svc.settings.jwtAlgorithm, claims);
    assert svc.codec.parse(svc.codec.serialize(j)) == Some(j);
  }

  /** A token for a non-empty subject decodes to that subject at every time
      strictly before its expiry, and is an invalid token from then on. */
  lemma TokenRoundTrip(svc: Services, subject: string, now: int, delta: int, t: int)
    requires Jose.Sound(svc.codec) && subject != ""
    ensures var token := CreateAccessToken(svc, map["sub" := Jose.Str(subject)], now, delta);
      && (t < now + delta ==> DecodeAccessToken(svc, token, t) == Ok(subject))
      && (t >= now + delta ==> DecodeAccessToken(svc, token, t) == Err(InvalidToken))
  {
    var data := map["sub" := Jose.Str(subject)];
    var claims := ExpiringClaims(data, now + delta);
    Jose.EncodeDecode(svc.codec, svc.settings.jwtSecretKey, svc.settings.jwtAlgorithm,
                      [svc.settings.jwtAlgorithm], claims, t);
    assert claims["sub"] == Jose.Str(subject);
  }

  /** A token whose claims lack `sub`, or carry it empty, is refused with the
      same error as a token that does not verify, even before it expires. */
  lemma SubjectlessTokenRejected(svc: Services, data: Jose.ClaimSet, now: int, delta: int, t: int)
    requires Jose.Sound(svc.codec)
    requires "sub" !in data || data["sub"] == Jose.Str("")
    ensures DecodeAccessToken(svc, CreateAccessToken(svc, data, now, delta), t) == Err(InvalidToken)
  {
    var claims := ExpiringClaims(data, now + delta);
    Jose.EncodeDecode(svc.codec, svc.settings.jwtSecretKey, svc.settings.jwtAlgorithm,
                      [svc.settings.jwtAlgorithm], claims, t);
    assert !HasSubject(claims);
  }

  /** The source quirk: a genuine, unexpired token whose subject is not an
      identifier does not get the 401 "User not found" but escapes as an
      unhandled error. */
  lemma NonUuidSubjectUnhandled(svc: Services, store: Store, subject: string, now: int, delta: int, t: int)
    requires Jose.Sound(svc.codec) && subject != "" && Uuids.Parse(subject).None? && t < now + delta
    ensures GetCurrentUser(svc, store, CreateAccessToken(svc, map["sub" := Jose.Str(subject)], now, delta), t)
            == Unhandled(BadUuid)
  {
    TokenRoundTrip(svc, subject, now, delta, t);
  }

  /** A resolved user is the one row with that identifier. */
  lemma ResolvedUserUnique(svc: Services, store: Store, token: string, now: int, u: User)
    requires ValidStore(store) && GetCurrentUser(svc, store, token, now).Resolved?
    requires u in store.Values && u.id == GetCurrentUser(svc, store, token, now).value.id
    ensures u == GetCurrentUser(svc, store, token, now).value
  {
  }

  /** Registration keeps every row under its own id and emails unique. */
  lemma RegisterPreservesValid(svc: Services, store: Store, email: string, password: string,
                               id: Uuid, salt: string, now: int)
    requires ValidStore(store) && id !in store
    ensures ValidStore(Register(svc, store, email, password, id, salt, now).store)
  {
  }

  /** A successful registration adds exactly one row. */
  lemma RegisterAddsOneUser(svc: Services, store: Store, email: string, password: string,
                            id: Uuid, salt: string, now: int)
    requires id !in store && Register(svc, store, email, password, id, salt, now).result.Ok?
    ensures |Register(svc, store, email, password, id, salt, now).store| == |store| + 1
  {
    var out := Register(svc, store, email, password, id, salt, now);
    assert out.store.Keys == store.Keys + {id};
  }

  /** Registering the same email twice: the second attempt is refused and
      creates nothing. */
  lemma RegisterTwice(svc: Services, store: Store, email: string, password1: string, password2: string,
                      id1: Uuid, id2: Uuid, salt1: string, salt2: string, now1: int, now2: int)
    requires id1 !in store && id1 != id2 && id2 !in store
    ensures var first := Register(svc, store, email, password1, id1, salt1, now1);
      && id2 !in first.store
      && Register(svc, first.store, email, password2, id2, salt2, now2)
         == Registration(first.store, Err(EmailAlreadyRegistered))
  {
    var first := Register(svc, store, email, password1, id1, salt1, now1);
    if !EmailTaken(store, email) {
      assert first.store[id1].email == email;
    }
  }

  /** The token a registration returns resolves to the new user until it
      expires an hour later, and is an invalid token from then on. */
  lemma RegisterThenResolve(svc: Services, store: Store, email: string, password: string,
                            id: Uuid, salt: string, now: int, t: int)
    requires Jose.Sound(svc.codec) && id !in store
    requires Register(svc, store, email, password, id, salt, now).result.Ok?
    ensures var out := Register(svc, store, email, password, id, salt, now);
      && (t < now + DefaultExpiresDelta ==>
            GetCurrentUser(svc, out.store, out.result.value.accessToken, t) == Resolved(out.store[id]))
      && (t >= now + DefaultExpiresDelta ==>
            GetCurrentUser(svc, out.store, out.result.value.accessToken, t) == Rejected(InvalidToken))
  {
    TokenRoundTrip(svc, Uuids.ToString(id), now, DefaultExpiresDelta, t);
    Uuids.ParseToString(id);
  }

  /** With unique emails, login succeeds exactly when the row with that
      email accepts the password. */
  lemma LoginSucceedsIff(svc: Services, store: Store, email: string, password: string, now: int)
    requires ValidStore(store)
    ensures Login(svc, store, email, password, now).Ok? <==>
      exists k :: k in store && store[k].email == email &&
                  Passwords.VerifyPassword(svc.hasher, password, store[k].hashedPassword)
  {
    if exists k :: k in store && store[k].email == email &&
                   Passwords.VerifyPassword(svc.hasher, password, store[k].hashedPassword) {
      var k :| k in store && store[k].email == email &&
               Passwords.VerifyPassword(svc.hasher, password, store[k].hashedPassword);
      var u := FindByEmail(store, email);
      assert u.value.id == k;
    }
  }

  /** An unknown email and a known email with a wrong password give the
      caller the same answer, so login does not reveal which emails exist. */
  lemma LoginFailuresIndistinguishable(svc: Services, store: Store, unknown: string, known: string,
                                       password1: string, password2: string, now1: int, now2: int)
    requires !EmailTaken(store, unknown)
    requires forall k :: k in store && store[k].email == known ==>
               !Passwords.VerifyPassword(svc.hasher, password2, store[k].hashedPassword)
    ensures Login(svc, store, unknown, password1, now1) == Login(svc, store, known, password2, now2)
  {
    var found := FindByEmail(store, known);
    if found.Some? {
      var k :| k in store && store[k] == found.value;
    }
  }

  /** After registering, logging in with the same password succeeds and
      returns a token for the new user. */
  lemma RegisterThenLogin(svc: Services, store: Store, email: string, password: string,
                          id: Uuid, salt: string, now: int, t: int)
    requires Passwords.Sound(svc.hasher) && id !in store
    requires Register(svc, store, email, password, id, salt, now).result.Ok?
    ensures Login(svc, Register(svc, store, email, password, id, salt, now).store, email, password, t)
            == Ok(TokenResponse(CreateAccessToken(svc, Subject(id), t, DefaultExpiresDelta), "bearer"))
  {
    var out := Register(svc, store, email, password, id, salt, now);
    assert out.store[id].email == email;
    var u := FindByEmail(out.store, email);
    assert u.value.id == id;
  }

  /** A new account end to end: register, resolve the returned token, fail
      to log in with a wrong password, log in with the right one, and
      resolve the second token to the same user. */
  lemma NewAccountScenario(svc: Services, id: Uuid, salt: string, now: int, t: int)
    requires Jose.Sound(svc.codec) && Passwords.Sound(svc.hasher)
    requires !svc.hasher.verify("wrong", svc.hasher.hash("secret123", salt))
    requires now <= t < now + DefaultExpiresDelta
    ensures var reg := Register(svc, map[], "a@x.com", "secret123", id, salt, now);
      && reg.result.Ok?
      && GetCurrentUser(svc, reg.store, reg.result.value.accessToken, t).Resolved?
      && GetCurrentUser(svc, reg.store, reg.result.value.accessToken, t).value.email == "a@x.com"
      && Login(svc, reg.store, "a@x.com", "wrong", t) == Err(InvalidCredentials)
      && Login(svc, reg.store, "a@x.com", "secret123", t).Ok?
      && GetCurrentUser(svc, reg.store, Login(svc, reg.store, "a@x.com", "secret123", t).value.accessToken, t)
         == GetCurrentUser(svc, reg.store, reg.result.value.accessToken, t)
  {
    var empty: Store := map[];
    var reg := Register(svc, empty, "a@x.com", "secret123", id, salt, now);
    RegisterThenResolve(svc, empty, "a@x.com", "secret123", id, salt, now, t);
    RegisterThenLogin(svc, empty, "a@x.com", "secret123", id, salt, now, t);
    RegisterPreservesValid(svc, empty, "a@x.com", "secret123", id, salt, now);
    LoginSucceedsIff(svc, reg.store, "a@x.com", "wrong", t);
    assert reg.store.Keys == {id};
    TokenRoundTrip(svc, Uuids.ToString(id), t, DefaultExpiresDelta, t);
    Uuids.ParseToString(id);
  }
}
