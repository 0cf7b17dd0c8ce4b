/** Process configuration (backend/app/config.py): the database URL, the JWT
    signing secret and the JWT algorithm, as pure functions of the
    environment variables. Reading `.env` and `os.environ`, and the warnings
    printed for missing values, are left to the caller: an unset variable is
    `None`. */
module Config {
  import opened Outcomes
  import opened Text

  /** The development database used when `DATABASE_URL` is unset or empty. */
  const SqliteDefault := "sqlite:///./portfolio.db"
  /** The scheme some hosts put in `DATABASE_URL`, which SQLAlchemy rejects. */
  const PostgresScheme := "postgres://"
  /** The scheme SQLAlchemy accepts for PostgreSQL. */
  const PostgresqlScheme := "postgresql://"
  /** The insecure development secret used when `JWT_SECRET_KEY` is unset or empty. */
  const DevSecretKey := "dev-secret-key-change-in-production"
  /** HMAC with SHA-256, section 3.2 of RFC 7518. */
  const JwtAlgorithm := "HS256"

  /** The values of the environment variables the module reads. */
  datatype Environment = Environment(databaseUrl: Option<string>, jwtSecretKey: Option<string>)

  /** The module-level constants config.py exports. */
  datatype Settings = Settings(databaseUrl: string, jwtSecretKey: string, jwtAlgorithm: string)

  /** Python's truthiness for an optional string: unset and "" are both false. */
  predicate IsSet(v: Option<string>) {
    v.Some? && v.value != ""
  }

  /** `DATABASE_URL` after defaulting and the `postgres://` rewrite. */
  function DatabaseUrl(env: Option<string>): (url: string)
    ensures !IsSet(env) ==> url == SqliteDefault
    ensures IsSet(env) && StartsWith(env.value, PostgresScheme) ==>
              url == PostgresqlScheme + env.value[|PostgresScheme|..]
    ensures IsSet(env) && !StartsWith(env.value, PostgresScheme) ==> url == env.value
    ensures url != "" && !StartsWith(url, PostgresScheme)
  {
    assert SqliteDefault[0] != PostgresScheme[0];
    match env
    case None => SqliteDefault
    case Some(v) =>
      if v == "" then SqliteDefault
      else if StartsWith(v, PostgresScheme) then
        ReplaceFirstAtPrefix(v, PostgresScheme, PostgresqlScheme);
        assert (PostgresqlScheme + v[|PostgresScheme|..])[8] != PostgresScheme[8];
        ReplaceFirst(v, PostgresScheme, PostgresqlScheme)
      else v
  }

  /** `JWT_SECRET_KEY` after defaulting. */
  function JwtSecretKey(env: Option<string>): (key: string)
    ensures IsSet(env) ==> key == env.value
    ensures !IsSet(env) ==> key == DevSecretKey
    ensures key != ""
  {
    if IsSet(env) then env.value else DevSecretKey
  }

  /** All three settings; the algorithm does not depend on the environment. */
  function Load(env: Environment): (s: Settings)
    ensures s.databaseUrl == DatabaseUrl(env.databaseUrl)
    ensures s.jwtSecretKey == JwtSecretKey(env.jwtSecretKey)
    ensures s.jwtSecretKey != "" && s.jwtAlgorithm == "HS256"
  {
    Settings(DatabaseUrl(env.databaseUrl), JwtSecretKey(env.jwtSecretKey), JwtAlgorithm)
  }

  /** Normalising an already normalised URL changes nothing. */
  lemma DatabaseUrlIdempotent(env: Option<string>)
    ensures DatabaseUrl(Some(DatabaseUrl(env))) == DatabaseUrl(env)
  {
  }

  /** A URL that already uses `postgresql://` passes through unchanged: the
      prefix test does not mistake it for `postgres://`. */
  lemma PostgresqlUrlUnchanged(v: string)
    requires StartsWith(v, PostgresqlScheme)
    ensures DatabaseUrl(Some(v)) == v
  {
    assert v[8] == PostgresqlScheme[8] != PostgresScheme[8];
  }
}
