# Authentication and configuration model of portfolio-analyser

A Dafny model of the two parts of the portfolio-analyser backend that carry
decision logic of their own:

- **The authentication protocol** of `backend/app/auth.py`: password hashing
  and checking, issuing and validating bearer tokens (JSON Web Tokens,
  RFC 7519, signed with HS256 as in section 3.2 of RFC 7518), resolving a
  token to the current user, and the `/register`, `/login` and `/me`
  handlers. The users table is an immutable map from identifier to user
  record; each handler is a pure function of the table, the request and the
  current time, returning a success value or an HTTP error value (status and
  detail).
- **Configuration normalisation** of `backend/app/config.py`: the database
  URL (default SQLite file, `postgres://` rewritten to `postgresql://`), the
  JWT secret default and the fixed `HS256` algorithm, as pure functions of
  the optional environment values.

The foreign libraries are parameters, not code: `Passwords.Hasher` stands for
bcrypt (with the salt made an explicit argument) and `Jose.Codec` for the MAC
and the compact serialisation of python-jose. What the model needs of them
is stated as predicates that lemmas take as preconditions:
`Passwords.Sound` (a password verifies against its own hash),
`Passwords.Truncating` (bcrypt reads only the first 72 bytes of the UTF-8
encoded password, so passwords agreeing on those bytes are interchangeable),
`Passwords.Discriminating` (an idealisation: a hash accepts no password whose
first 72 bytes differ; used by `Passwords.VerifyHashed` and
`Passwords.VerifyPassword`), `Jose.Sound` (parsing a serialised token gives
it back) and `Jose.Canonical` (one token, one text; an idealisation, see
below).

Identifiers are modelled concretely (`Uuids`): `str(uuid)` produces the
lower-case 8-4-4-4-12 text a token carries as `sub`, and `uuid.UUID(text)` is
a partial parse. The parse in `get_current_user` (auth.py line 202) sits
outside any error handling, so a correctly signed, unexpired token whose
subject is not an identifier ends in an unhandled `ValueError`, not in the
401 "User not found". `Auth.GetCurrentUser` returns a third outcome,
`Unhandled`, for that case, and `AuthProperties.NonUuidSubjectUnhandled`
states it.

A token without a usable `sub` gets the same 401 "Invalid token" as a token
that fails to verify (auth.py lines 192-196), and a failed login is a 400
(auth.py line 233).

Files: `outcomes.dfy` (Option and Result), `text.dfy` (`startswith`, `find`,
`replace(old, new, 1)`), `config.dfy`, `uuids.dfy`, `passwords.dfy`,
`jose.dfy`, `auth.dfy` (the handlers) and `auth_properties.dfy` (lemmas
relating several calls).

## Model

| member | source | states |
|---|---|---|
| `Text.ReplaceFirst` | backend/app/config.py:15 | the result is the input when the pattern does not occur, and otherwise the input with its first occurrence (and only that one) replaced |
| `Text.ReplaceFirstAtPrefix` | backend/app/config.py:13-15 | when the input starts with the pattern, the replaced occurrence is that prefix |
| `Config.DatabaseUrl` | backend/app/config.py:8-15 | unset or empty gives `sqlite:///./portfolio.db`; a `postgres://` value becomes `postgresql://` followed by the same suffix; any other value is kept; the result is never empty and never starts with `postgres://` |
| `Config.DatabaseUrlIdempotent` | backend/app/config.py:8-15 | normalising a normalised URL changes nothing |
| `Config.PostgresqlUrlUnchanged` | backend/app/config.py:13 | a value already starting with `postgresql://` passes through unchanged |
| `Config.JwtSecretKey` | backend/app/config.py:18-20 | the secret is the environment value when non-empty, else the development default; never empty |
| `Config.Load` | backend/app/config.py:8-23 | the settings combine both normalisations, and the algorithm is `HS256` whatever the environment |
| `Uuids.ToString` | backend/app/auth.py:225 | `str(id)` is 36 characters: hyphens exactly at positions 8, 13, 18 and 23, lower-case hex digits elsewhere |
| `Uuids.Parse` | backend/app/auth.py:202 | the parse succeeds exactly when braces and hyphens removed leave 32 hex digits, and then reads those digits in either case |
| `Uuids.ParseToString` | backend/app/auth.py:202 | parsing the text `str(id)` of an identifier gives back that identifier |
| `Uuids.ToStringInjective` | backend/app/auth.py:225 | distinct identifiers give distinct subject texts |
| `Passwords.HashPassword` | backend/app/auth.py:173-174 | the stored hash accepts the password it was made from, and with bcrypt's truncation every password sharing its first 72 bytes |
| `Passwords.VerifyPassword` | backend/app/auth.py:177-178 | a password is accepted by any hash made from it; with an ideal scheme, an accepted password shares the first 72 bytes of the one hashed |
| `Passwords.VerifyHashed` | backend/app/auth.py:173-178 | for a sound, truncating and otherwise discriminating scheme, a hash accepts exactly the passwords sharing the first 72 UTF-8 bytes of the one it was made from |
| `Passwords.AsciiPrefixCollision` | backend/app/auth.py:173-178 | two passwords agreeing on their first 72 ASCII characters have the same bcrypt key, whatever follows |
| `Jose.Encode` | backend/app/auth.py:185 | with a sound serialisation, the token parses to the algorithm, the claims and the MAC of both under the key |
| `Jose.ValidateClaims` | backend/app/auth.py:190 | claims are accepted exactly when `exp` is a NumericDate strictly after now and `sub`, if present, is a string |
| `Jose.Decode` | backend/app/auth.py:190 | a token decodes only when it parses, uses an accepted algorithm, carries the MAC of its own header and claims under the key, and its claims are acceptable now |
| `Jose.EncodeDecode` | backend/app/auth.py:185-190 | a token signed with the verifier's key decodes to its claims exactly while they are acceptable |
| `Jose.DecodeAcceptsOnlyIssued` | backend/app/auth.py:188-196 | with a canonical serialisation, any text that decodes is exactly the token issued for its claims under the key: tampering is detected |
| `Auth.ExpiringClaims` | backend/app/auth.py:183-184 | the signed claims are the caller's claims plus `exp`, overriding only `exp` |
| `Auth.CreateAccessToken` | backend/app/auth.py:182-185 | the token parses to the configured algorithm and to the caller's claims plus `exp = now + expires_delta`, no other claim changed |
| `Auth.DecodeAccessToken` | backend/app/auth.py:188-196 | the subject is returned exactly when the token decodes and carries a non-empty string `sub`; every failure is the one 401 "Invalid token" |
| `Auth.GetCurrentUser` | backend/app/auth.py:200-205 | four outcomes: "Invalid token" exactly when decoding fails; unhandled exactly when the subject does not parse; "User not found" exactly when it parses to an absent id; otherwise the row with that id |
| `Auth.Me` | backend/app/auth.py:239-241 | `/me` resolves exactly when the current user does, and returns its id, email and creation time with no password hash |
| `Auth.FindByEmail` | backend/app/auth.py:231 | a row is found exactly when some row has the email, and the row found has it |
| `Auth.Register` | backend/app/auth.py:209-226 | a taken email gives 400 "Email already registered" with the table unchanged; otherwise exactly one row is added under the fresh id, holding the email, the hash of the password and the creation time, other rows untouched, and a bearer token for that id is returned |
| `Auth.Login` | backend/app/auth.py:229-236 | every failure is 400 "Invalid credentials"; an unknown email fails; a success names a row with the email whose hash accepts the password and returns a bearer token for that row |
| `AuthProperties.IssuedClaims` | backend/app/auth.py:182-185 | the issued token parses to the configured algorithm and the caller's claims plus `exp = now + delta` |
| `AuthProperties.TokenRoundTrip` | backend/app/auth.py:182-196 | a token for a non-empty subject decodes to it at every time strictly before `exp`, and is "Invalid token" at or after `exp` |
| `AuthProperties.SubjectlessTokenRejected` | backend/app/auth.py:191-193 | a genuine token with no or an empty `sub` is "Invalid token" even before expiry |
| `AuthProperties.NonUuidSubjectUnhandled` | backend/app/auth.py:200-202 | a genuine, unexpired token whose subject is not an identifier ends in an unhandled error |
| `AuthProperties.ResolvedUserUnique` | backend/app/auth.py:202-205 | in a well-formed table the resolved user is the only row with its id |
| `AuthProperties.RegisterPreservesValid` | backend/app/auth.py:210-223 | registration keeps every row under its own id and emails unique |
| `AuthProperties.RegisterAddsOneUser` | backend/app/auth.py:214-222 | a successful registration grows the table by exactly one row |
| `AuthProperties.RegisterTwice` | backend/app/auth.py:211-212 | registering the same email twice: the second attempt is refused and the table stays as the first left it |
| `AuthProperties.RegisterThenResolve` | backend/app/auth.py:225-226 | the registration token resolves to the new user for one hour, then is "Invalid token" |
| `AuthProperties.LoginSucceedsIff` | backend/app/auth.py:231-233 | with unique emails, login succeeds exactly when the row with that email accepts the password |
| `AuthProperties.LoginFailuresIndistinguishable` | backend/app/auth.py:231-233 | an unknown email and a wrong password give the identical answer |
| `AuthProperties.RegisterThenLogin` | backend/app/auth.py:210-236 | after registering, logging in with the same password returns a bearer token for the new user |
| `AuthProperties.NewAccountScenario` | backend/app/auth.py:209-241 | register, resolve, wrong-password login fails (given only that the hash of the right password rejects the wrong one), right-password login succeeds and its token resolves to the same user |

## Left out

- bcrypt (passlib's `CryptContext`) and python-jose's HMAC, base64url and JSON code are foreign libraries: they are the parameters `Passwords.Hasher` and `Jose.Codec`, constrained only by the predicates named above.
- Jose.Decode: the library's code is not part of this model; the expiry check follows section 4.1.4 of RFC 7519 (valid only strictly before `exp`) and a token without `exp` is refused. python-jose's own check accepts a token without `exp` and refuses only when `exp < now`, so the model is stricter than the library at `now == exp` and for tokens lacking `exp` (which the service never issues). The `iat`, `nbf`, `aud`, `iss` and `jti` checks are not modelled because the tokens issued here never carry those claims.
- Jose.DecodeAcceptsOnlyIssued: holds for an idealised codec (`Jose.Canonical`). python-jose decodes the signature segment with a lenient base64url decoder that drops characters outside the alphabet and ignores unused low bits of the last character, so distinct texts can carry the same signature; "tampering is detected" holds only up to such re-encodings.
- Uuids.Parse: `uuid.UUID` removes every occurrence of `urn:` and `uuid:` anywhere in the text, and its `int(text, 16)` accepts a `0x` prefix, underscores, surrounding spaces, a leading `+` and non-ASCII Unicode digits; none of this is modelled, and the model rejects such texts, which the service never issues. The unhandled outcome carries only the exception class `ValueError`, not its message (which differs between a wrong length and a non-hex digit).
- Passwords.Discriminating: collision-freedom of bcrypt beyond the 72-byte truncation is an idealisation; passlib's refusal of passwords containing a NUL character (an exception in both hashing and verifying) is not modelled, and the hasher is total.
- Auth.Register: requires the fresh identifier to be absent from the table; `uuid.uuid4()` is a parameter, and an identifier collision (a failed commit in the source) is not modelled.
- Time is whole seconds: `datetime.utcnow()` is the parameter `now`, and sub-second precision of `created_at` is dropped.
- Auth.Register: uses one `now` for both `created_at` (auth.py line 218) and the token's `exp` (auth.py line 184); the source reads the clock twice, so in whole seconds `exp` can be `created_at + 3601`.
- FastAPI routing, `Depends`, the `OAuth2PasswordBearer` header extraction and success status codes (201 for `/register`): only the error status and detail are kept, as `Auth.HttpError`.
- `get_db` (auth.py lines 139-144) and backend/app/database.py (engine and session set-up) are database plumbing; the table is the map `Auth.Store`, and `/login` cannot change it because it returns no table.
- The users table definition (backend/app/models.py) is not part of this model, so the `phone` field of `UserOut` is always `None` and uniqueness of emails is a stated predicate (`Auth.ValidStore`) rather than a database constraint.
- Concurrent requests: two registrations of one email racing between the check and the insert are not modelled.
- Pydantic validation (`EmailStr`, `from_attributes`): emails are taken as already valid strings.
- `load_dotenv()`, the `os.environ` reads and the warnings printed by config.py: the environment values are function inputs.
- The commented-out earlier version of the handlers (auth.py lines 1-116) is dead code.
