/**
 * The front end's cookie session (session.ts): three cookies carry the
 * back end's token, the account's role and its email. The cookie jar is a
 * map from cookie names to values.
 */
module Session {
  import opened Models

  type Jar = map<string, string>

  const CookieToken := "mancafe_token"
  const CookieRole := "mancafe_role"
  const CookieEmail := "mancafe_email"

  /** `cookies.get(name)?.value`: absent when the cookie is not sent. */
  function Cookie(jar: Jar, name: string): Option<string>
  {
    if name in jar then Some(jar[name]) else None
  }

  /** JavaScript's truthiness of an optional string: present and non-empty. */
  predicate Truthy(v: Option<string>)
  {
    v.Some? && v.value != ""
  }

  /** `v || def`. */
  function OrDefault(v: Option<string>, def: string): string
  {
    if Truthy(v) then v.value else def
  }

  datatype SessionData = SessionData(token: string, role: string, email: string)

  /** readSession: no session without a token; role and email fall back to "user" and "". */
  function ReadSession(jar: Jar): Option<SessionData>
  {
    var token := Cookie(jar, CookieToken);
    if !Truthy(token) then None
    else Some(SessionData(token.value, OrDefault(Cookie(jar, CookieRole), "user"), OrDefault(Cookie(jar, CookieEmail), "")))
  }

  /**
   * A session exists exactly when the token cookie is non-empty; it carries
   * that token, the role cookie or "user", and the email cookie or "".
   */
  lemma ReadSessionCases(jar: Jar)
    ensures ReadSession(jar).None? <==> CookieToken !in jar || jar[CookieToken] == ""
    ensures ReadSession(jar).Some? ==>
      var d := ReadSession(jar).value;
      d.token == jar[CookieToken] && d.token != ""
      && d.role == (if CookieRole in jar && jar[CookieRole] != "" then jar[CookieRole] else "user")
      && d.email == (if CookieEmail in jar && jar[CookieEmail] != "" then jar[CookieEmail] else "")
      && d.role != ""
  {
  }

  datatype SameSite = Lax | Strict | NoRestriction

  datatype CookieOptions = CookieOptions(path: string, httpOnly: bool, sameSite: SameSite, secure: bool, maxAge: int)

  /** cookieOptions: `production` is the build's PROD flag. */
  function Options(production: bool): CookieOptions
  {
    CookieOptions("/", true, Lax, production, 60 * 60 * 24)
  }

  /**
   * The cookies are site-wide, hidden from scripts, lax, secure exactly in
   * production, and live one day (86400 seconds).
   */
  lemma OptionsFacts(production: bool)
    ensures var o := Options(production);
      o.path == "/" && o.httpOnly && o.sameSite == Lax && (o.secure <==> production)
      && o.maxAge == 86400
  {
  }
}
