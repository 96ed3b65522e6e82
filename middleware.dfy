/**
 * The front end's route gate (middleware.ts): pages and API routes under
 * the shopper prefixes need a token cookie, those under the admin prefixes
 * a token and the "admin" role cookie. Prefixes are raw string prefixes.
 */
module Middleware {
  import opened Models
  import Text
  import Session
  import UriComponent

  const UserPrefixes: seq<string> := ["/cart", "/checkout", "/orders", "/api/cart", "/api/checkout"]
  const AdminPrefixes: seq<string> := ["/admin", "/api/admin"]

  /** `prefixes.some((prefix) => path.startsWith(prefix))`. */
  predicate Under(path: string, prefixes: seq<string>)
  {
    exists i :: 0 <= i < |prefixes| && Text.HasPrefix(path, prefixes[i])
  }

  datatype Decision = Next | Redirect(location: string)

  const AdminRefused := "/auth/login?error=admin"

  function LoginWithNext(path: string): string
    requires UriComponent.IsAscii(path)
  {
    "/auth/login?next=" + UriComponent.Encode(path)
  }

  /**
   * onRequest: a protected path without a token goes to the login page with
   * the path as `next`; an admin path whose role cookie is not "admin" goes
   * to the login page with `error=admin`; anything else passes. A missing
   * role cookie is not "admin".
   */
  function OnRequest(path: string, jar: Session.Jar): Decision
    requires UriComponent.IsAscii(path)
  {
    var token := Session.Cookie(jar, Session.CookieToken);
    var role := Session.Cookie(jar, Session.CookieRole);
    var needsUser := Under(path, UserPrefixes);
    var needsAdmin := Under(path, AdminPrefixes);
    if (needsUser || needsAdmin) && !Session.Truthy(token) then Redirect(LoginWithNext(path))
    else if needsAdmin && role != Some("admin") then Redirect(AdminRefused)
    else Next
  }

  /**
   * The three outcomes: sent to log in exactly for a protected path without
   * a session; refused as admin exactly for an admin path with a session but
   * without the admin role; passed otherwise. The token is looked at before
   * the role.
   */
  lemma Outcomes(path: string, jar: Session.Jar)
    requires UriComponent.IsAscii(path)
    ensures var protected := Under(path, UserPrefixes) || Under(path, AdminPrefixes);
      OnRequest(path, jar) == Redirect(LoginWithNext(path)) <==> protected && Session.ReadSession(jar).None?
    ensures OnRequest(path, jar) == Redirect(AdminRefused) <==>
      Under(path, AdminPrefixes) && Session.ReadSession(jar).Some?
      && Session.ReadSession(jar).value.role != "admin"
    ensures OnRequest(path, jar) == Next <==>
      (!Under(path, UserPrefixes) && !Under(path, AdminPrefixes))
      || (Session.ReadSession(jar).Some? && (Under(path, AdminPrefixes) ==> Session.ReadSession(jar).value.role == "admin"))
  {
    var token, role := Session.Cookie(jar, Session.CookieToken), Session.Cookie(jar, Session.CookieRole);
    assert LoginWithNext(path) != AdminRefused by {
      assert LoginWithNext(path)[12] == 'n' && AdminRefused[12] == 'e';
    }
    Session.ReadSessionCases(jar);
  }

  /** Matching is by raw prefix: "/cartx" and "/administrator" are gated, "/products" is not. */
  lemma RawPrefixes()
    ensures Under("/cartx", UserPrefixes) && Under("/administrator", AdminPrefixes)
    ensures !Under("/products", UserPrefixes) && !Under("/products", AdminPrefixes)
  {
    assert Text.HasPrefix("/cartx", UserPrefixes[0]);
    assert Text.HasPrefix("/administrator", AdminPrefixes[0]);
    assert "/products"[1] == 'p';
    forall i | 0 <= i < |UserPrefixes|
      ensures !Text.HasPrefix("/products", UserPrefixes[i])
    {
      assert UserPrefixes[i][1] != 'p';
    }
    forall i | 0 <= i < |AdminPrefixes|
      ensures !Text.HasPrefix("/products", AdminPrefixes[i])
    {
      assert AdminPrefixes[i][1] != 'p';
    }
  }

  /** The `next` parameter decodes back to the requested path and carries no "&" or "#". */
  lemma NextRoundTrip(path: string)
    requires UriComponent.IsAscii(path)
    ensures var e := UriComponent.Encode(path);
      UriComponent.Decode(e) == Some(path) && (forall i :: 0 <= i < |e| ==> e[i] != '&' && e[i] != '#')
  {
    UriComponent.DecodeEncode(path);
    UriComponent.EncodeIsSafe(path);
  }
}
