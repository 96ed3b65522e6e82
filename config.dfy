/**
 * Start-up configuration (config.go): the process environment is a map
 * from variable names to values, an unset variable reading as "". Loading
 * the .env file and the start-up log line are not modelled.
 */
module Config {
  import opened Models
  import Text

  type Env = map<string, string>

  /** os.Getenv: an unset variable reads as the empty string. */
  function Lookup(env: Env, key: string): string
  {
    if key in env then env[key] else ""
  }

  /** getenv: the variable when it is non-empty, the default otherwise (blanks are kept). */
  function Getenv(env: Env, key: string, def: string): (v: string)
    ensures v == def <==> Lookup(env, key) == "" || Lookup(env, key) == def
    ensures v != def ==> v == Lookup(env, key) && v != ""
  {
    var v := Lookup(env, key);
    if v != "" then v else def
  }

  function MissingMsg(key: string): string
  {
    "required environment variable " + key + " is not set"
  }

  /** requireEnv: the trimmed variable, which must not be empty. */
  function RequireEnv(env: Env, key: string): (r: Result<string>)
    ensures r.Ok? <==> Text.TrimSpace(Lookup(env, key)) != ""
    ensures r.Ok? ==> r.value == Text.TrimSpace(Lookup(env, key))
    ensures r.Err? ==> r.msg == MissingMsg(key)
  {
    var v := Text.TrimSpace(Lookup(env, key));
    if v == "" then Err(MissingMsg(key)) else Ok(v)
  }

  datatype Configuration = Configuration(
    port: string,
    jwtSecret: string,
    adminEmail: string,
    adminPassword: string,
    baseUrl: string,
    frontendUrl: string,
    storeBackend: string,
    mySqlDsn: string,
    postgresDsn: string,
    midtransServerKey: string,
    midtransIsProduction: bool,
    smtpFrom: string,
    smtpPassword: string,
    smtpHost: string,
    smtpPort: string,
    googleClientId: string,
    googleClientSecret: string,
    googleRedirectUrl: string)

  const ErrMySqlDsn := "MYSQL_DSN is required when STORE_BACKEND=mysql"
  const ErrPostgresDsn := "POSTGRES_DSN is required when STORE_BACKEND=postgres"
  const ErrSmtp := "SMTP_FROM and SMTP_PASSWORD must be set together"
  const ErrGoogle := "GOOGLE_CLIENT_ID, GOOGLE_CLIENT_SECRET, and GOOGLE_REDIRECT_URL must be set together"

  /** The backend named in double quotes, as %q prints a name without special characters. */
  function UnknownBackendMsg(backend: string): string
  {
    "unknown STORE_BACKEND \"" + backend + "\""
  }

  predicate KnownBackend(b: string)
  {
    b == "memory" || b == "mysql" || b == "postgres"
  }

  /** Trimmed variable. */
  function Trimmed(env: Env, key: string): string
  {
    Text.TrimSpace(Lookup(env, key))
  }

  /** The record before validation: defaults filled in, secrets not yet read. */
  function Defaults(env: Env): Configuration
  {
    Configuration(
      Getenv(env, "PORT", "8080"), "", "", "",
      Getenv(env, "BASE_URL", "http://localhost:8080"),
      Getenv(env, "FRONTEND_URL", "http://localhost:4321"),
      Getenv(env, "STORE_BACKEND", "mysql"),
      Trimmed(env, "MYSQL_DSN"), Trimmed(env, "POSTGRES_DSN"),
      Trimmed(env, "MIDTRANS_SERVER_KEY"),
      Getenv(env, "MIDTRANS_IS_PRODUCTION", "false") == "true",
      Trimmed(env, "SMTP_FROM"), Trimmed(env, "SMTP_PASSWORD"),
      Getenv(env, "SMTP_HOST", "smtp.gmail.com"), Getenv(env, "SMTP_PORT", "587"),
      Trimmed(env, "GOOGLE_CLIENT_ID"), Trimmed(env, "GOOGLE_CLIENT_SECRET"), Trimmed(env, "GOOGLE_REDIRECT_URL"))
  }

  /** The checks after the three secrets, in the source's order. */
  function Validate(c: Configuration): Result<Configuration>
  {
    if !KnownBackend(c.storeBackend) then Err(UnknownBackendMsg(c.storeBackend))
    else if c.storeBackend == "mysql" && c.mySqlDsn == "" then Err(ErrMySqlDsn)
    else if c.storeBackend == "postgres" && c.postgresDsn == "" then Err(ErrPostgresDsn)
    else if (c.smtpFrom == "") != (c.smtpPassword == "") then Err(ErrSmtp)
    else if (c.googleClientId == "") != (c.googleClientSecret == "")
         || (c.googleClientId == "") != (c.googleRedirectUrl == "") then Err(ErrGoogle)
    else Ok(c)
  }

  /** Load: JWT_SECRET, ADMIN_EMAIL and ADMIN_PASSWORD are read first, then the rest is validated. */
  function Load(env: Env): Result<Configuration>
  {
    var base := Defaults(env);
    match RequireEnv(env, "JWT_SECRET")
    case Err(m) => Err(m)
    case Ok(secret) =>
      match RequireEnv(env, "ADMIN_EMAIL")
      case Err(m) => Err(m)
      case Ok(email) =>
        match RequireEnv(env, "ADMIN_PASSWORD")
        case Err(m) => Err(m)
        case Ok(password) =>
          Validate(base.(jwtSecret := secret, adminEmail := email, adminPassword := password))
  }

  /** The rules after the secrets: a known backend with its DSN, SMTP and Google each all set or all empty. */
  predicate Settled(c: Configuration)
  {
    KnownBackend(c.storeBackend)
    && (c.storeBackend == "mysql" ==> c.mySqlDsn != "")
    && (c.storeBackend == "postgres" ==> c.postgresDsn != "")
    && ((c.smtpFrom == "") <==> (c.smtpPassword == ""))
    && ((c.googleClientId == "") <==> (c.googleClientSecret == ""))
    && ((c.googleClientId == "") <==> (c.googleRedirectUrl == ""))
  }

  /** Every rule the loaded configuration satisfies. */
  predicate WellFormed(c: Configuration)
  {
    c.jwtSecret != "" && c.adminEmail != "" && c.adminPassword != "" && Settled(c)
  }

  /**
   * Loading succeeds exactly when the three secrets are set, the backend is
   * known and has its DSN, and the SMTP and Google settings are each all set
   * or all empty; what is loaded then satisfies every rule and carries the
   * trimmed secrets.
   */
  lemma LoadOkIff(env: Env)
    ensures Load(env).Ok? <==>
      Trimmed(env, "JWT_SECRET") != "" && Trimmed(env, "ADMIN_EMAIL") != "" && Trimmed(env, "ADMIN_PASSWORD") != ""
      && Settled(Defaults(env))
    ensures Load(env).Ok? ==>
      WellFormed(Load(env).value)
      && Load(env).value == Defaults(env).(jwtSecret := Trimmed(env, "JWT_SECRET"),
                                           adminEmail := Trimmed(env, "ADMIN_EMAIL"),
                                           adminPassword := Trimmed(env, "ADMIN_PASSWORD"))
  {
  }

  /**
   * The secrets are checked first and in order: a missing JWT_SECRET is
   * reported whatever else is wrong, and a missing ADMIN_EMAIL before a
   * missing ADMIN_PASSWORD or any backend problem.
   */
  lemma SecretsFirst(env: Env)
    ensures Trimmed(env, "JWT_SECRET") == "" ==> Load(env) == Err(MissingMsg("JWT_SECRET"))
    ensures Trimmed(env, "JWT_SECRET") != "" && Trimmed(env, "ADMIN_EMAIL") == "" ==>
      Load(env) == Err(MissingMsg("ADMIN_EMAIL"))
    ensures (Trimmed(env, "JWT_SECRET") != "" && Trimmed(env, "ADMIN_EMAIL") != ""
             && Trimmed(env, "ADMIN_PASSWORD") == "") ==> Load(env) == Err(MissingMsg("ADMIN_PASSWORD"))
  {
  }

  /** With STORE_BACKEND unset the backend is "mysql", which then needs MYSQL_DSN. */
  lemma DefaultBackendNeedsDsn(env: Env)
    requires Trimmed(env, "JWT_SECRET") != "" && Trimmed(env, "ADMIN_EMAIL") != ""
    requires Trimmed(env, "ADMIN_PASSWORD") != ""
    requires Lookup(env, "STORE_BACKEND") == "" && Trimmed(env, "MYSQL_DSN") == ""
    ensures Load(env) == Err(ErrMySqlDsn)
  {
    assert Defaults(env).storeBackend == "mysql";
  }

  /** Any other backend name is refused as written; it is not trimmed, so " memory" is unknown too. */
  lemma UnknownBackend(env: Env)
    requires Trimmed(env, "JWT_SECRET") != "" && Trimmed(env, "ADMIN_EMAIL") != ""
    requires Trimmed(env, "ADMIN_PASSWORD") != ""
    requires Lookup(env, "STORE_BACKEND") != "" && !KnownBackend(Lookup(env, "STORE_BACKEND"))
    ensures Load(env) == Err(UnknownBackendMsg(Lookup(env, "STORE_BACKEND")))
    ensures !KnownBackend(" memory")
  {
    assert Defaults(env).storeBackend == Lookup(env, "STORE_BACKEND");
  }

  /** Production mode is on exactly when MIDTRANS_IS_PRODUCTION is the text "true". */
  lemma ProductionFlag(env: Env)
    requires Load(env).Ok?
    ensures Load(env).value.midtransIsProduction <==> Lookup(env, "MIDTRANS_IS_PRODUCTION") == "true"
  {
  }

  /** With nothing set, loading stops at the first secret. */
  lemma EmptyEnvironment()
    ensures Load(map[]) == Err(MissingMsg("JWT_SECRET"))
  {
    Text.TrimSpaceEmpty("");
  }
}
