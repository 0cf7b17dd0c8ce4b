/** The JSON Web Token codec of python-jose, reduced to what the service
    relies on (RFC 7519, signed as a JWS with HS256, section 3.2 of RFC 7518).
    The MAC and the base64url/JSON serialisation are foreign code and
    therefore parameters; what they must satisfy is stated as predicates
    that lemmas take as preconditions. */
module Jose {
  import opened Outcomes

  /** A claim value: a string, or a NumericDate in whole seconds since the
      epoch (section 2 of RFC 7519). */
  datatype ClaimValue = Str(text: string) | NumericDate(seconds: int)

  /** The JWT claims set: claim names to values. */
  type ClaimSet = map<string, ClaimValue>

  /** A token after parsing: the header's `alg`, the claims, the signature. */
  datatype Jws = Jws(alg: string, claims: ClaimSet, signature: string)

  /** `mac(key, alg, claims)` is the signature over header and payload;
      `serialize` and `parse` convert between a token and its compact
      serialisation. */
  datatype Codec = Codec(
    mac: (string, string, ClaimSet) -> string,
    serialize: Jws -> string,
    parse: string -> Option<Jws>)

  /** Parsing a serialised token gives back its parts. */
  ghost predicate Sound(c: Codec) {
    forall j :: c.parse(c.serialize(j)) == Some(j)
  }

  /** Every text that parses is the serialisation of what it parses to: one
      token, one text. With this, the only texts that verify are the ones
      that were issued (see `DecodeAcceptsOnlyIssued`). */
  ghost predicate Canonical(c: Codec) {
    forall t :: c.parse(t).Some? ==> c.serialize(c.parse(t).value) == t
  }

  /** The reasons a token is refused (python-jose's `JWTError` family). */
  datatype JoseError =
    | Malformed            // not a parsable compact serialisation
    | DisallowedAlgorithm  // header `alg` not among the accepted ones
    | BadSignature         // the MAC does not match header and payload
    | MissingExpiry        // no `exp` claim
    | Expired              // section 4.1.4 of RFC 7519: not before `exp`
    | InvalidClaims        // `exp` not a NumericDate, or `sub` not a string

  function Sign(c: Codec, key: string, alg: string, claims: ClaimSet): (j: Jws)
    ensures j.alg == alg && j.claims == claims
  {
    Jws(alg, claims, c.mac(key, alg, claims))
  }

  /** `jwt.encode(claims, key, algorithm=alg)`. */
  function Encode(c: Codec, key: string, alg: string, claims: ClaimSet): (token: string)
    ensures Sound(c) ==> c.parse(token) == Some(Jws(alg, claims, c.mac(key, alg, claims)))
  {
    c.serialize(Sign(c, key, alg, claims))
  }

  /** What the claim checks accept at time `now`: an `exp` NumericDate
      strictly after `now` (section 4.1.4 of RFC 7519) and, when present, a
      string `sub` (section 4.1.2). */
  predicate ClaimsAcceptable(claims: ClaimSet, now: int) {
    && "exp" in claims && claims["exp"].NumericDate? && now < claims["exp"].seconds
    && ("sub" in claims ==> claims["sub"].Str?)
  }

  function ValidateClaims(claims: ClaimSet, now: int): (r: Result<ClaimSet, JoseError>)
    ensures r.Ok? <==> ClaimsAcceptable(claims, now)
    ensures r.Ok? ==> r.value == claims
  {
    if "exp" !in claims then Err(MissingExpiry)
    else if !claims["exp"].NumericDate? then Err(InvalidClaims)
    else if now >= claims["exp"].seconds then Err(Expired)
    else if "sub" in claims && !claims["sub"].Str? then Err(InvalidClaims)
    else Ok(claims)
  }

  /** `jwt.decode(token, key, algorithms=algorithms)` at time `now`. */
  function Decode(c: Codec, key: string, algorithms: seq<string>, token: string, now: int)
    : (r: Result<ClaimSet, JoseError>)
    ensures r.Ok? ==> c.parse(token).Some? && c.parse(token).value.alg in algorithms
    ensures r.Ok? ==> c.parse(token).value == Sign(c, key, c.parse(token).value.alg, r.value)
    ensures r.Ok? ==> ClaimsAcceptable(r.value, now)
  {
    match c.parse(token)
    case None => Err(Malformed)
    case Some(j) =>
      if j.alg !in algorithms then Err(DisallowedAlgorithm)
      else if j.signature != c.mac(key, j.alg, j.claims) then Err(BadSignature)
      else ValidateClaims(j.claims, now)
  }

  /** A token signed with the verifier's key and an accepted algorithm
      decodes to its claims exactly while the claims are acceptable, in
      particular strictly before `exp`. */
  lemma EncodeDecode(c: Codec, key: string, alg: string, algorithms: seq<string>, claims: ClaimSet, now: int)
    requires Sound(c) && alg in algorithms
    ensures Decode(c, key, algorithms, Encode(c, key, alg, claims), now).Ok? <==> ClaimsAcceptable(claims, now)
    ensures ClaimsAcceptable(claims, now) ==> Decode(c, key, algorithms, Encode(c, key, alg, claims), now) == Ok(claims)
  {
    assert c.parse(c.serialize(Sign(c, key, alg, claims))) == Some(Sign(c, key, alg, claims));
  }

  /** Under a canonical serialisation, a text that verifies is exactly the
      token issued for its claims under the verifier's key: changing any
      part of an issued token without the key is detected. */
  lemma DecodeAcceptsOnlyIssued(c: Codec, key: string, algorithms: seq<string>, token: string, now: int)
    requires Canonical(c) && Decode(c, key, algorithms, token, now).Ok?
    ensures exists alg :: alg in algorithms && token == Encode(c, key, alg, Decode(c, key, algorithms, token, now).value)
  {
    var j := c.parse(token).value;
    assert token == Encode(c, key, j.alg, j.claims);
  }
}
