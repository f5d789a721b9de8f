/**
 * The authentication guard: it finds the caller's token (the Authorization
 * header, then the x-session-token header, then the session cookie), maps
 * the three demo tokens to fixed users, asks the auth service to resolve any
 * other token, refuses accounts that are not active, and attaches the user
 * and the session to the request. The auth service is a parameter: absent,
 * or a function from the token to a session (or nothing).
 */
module AuthGuard {
  import opened Wrappers
  import opened Json
  import JsString
  import Seqs
  import AuditLogs

  const BearerPrefix := "Bearer "
  const SessionCookieName := "session_token"
  const DemoCookieName := "demo_token"
  const InvalidCredentials :=
    "Missing or invalid credentials. Provide a Bearer JWT from the OAuth login flow or an allowed demo token."
  const NotActive := "Account is not active yet. Contact an administrator for access."

  /** A raw header as Node delivers it: a string, a list of items (`None` for an item that is not a string), or anything else. */
  datatype HeaderValue = HString(s: string) | HList(items: seq<Option<string>>) | HOther

  datatype AuthUser = AuthUser(id: string, primaryEmail: Option<string>, roles: Json, profile: Option<Json>, status: Option<string>)
  datatype Session = Session(token: Option<string>)
  /** What the auth service resolves a token to. */
  datatype AuthResult = AuthResult(user: AuthUser, session: Session)

  /** What the guard attaches to `request.user`. */
  datatype RequestUser = RequestUser(id: string, email: Option<string>, roles: Json, profile: Option<Json>, token: Option<string>)

  datatype AuthError = Unauthorized(message: string) | Forbidden(message: string)

  /** `resolveAuthBearer` of the auth service, when there is one. */
  type Resolver = Option<Option<string> -> Option<AuthResult>>

  // ---------------------------------------------------------------------------
  // Headers and cookies
  // ---------------------------------------------------------------------------

  predicate IsString(o: Option<string>)
  {
    o.Some?
  }

  /** `normaliseHeader`: a string as it is, the first string item of a list, nothing otherwise. */
  function NormaliseHeader(h: HeaderValue): (r: Option<string>)
    ensures h.HString? ==> r == Some(h.s)
    ensures h.HList? ==> (r.None? <==> forall k :: 0 <= k < |h.items| ==> h.items[k].None?)
    ensures h.HList? && r.Some? ==> exists k :: 0 <= k < |h.items| && h.items[k] == r
                                      && forall j :: 0 <= j < k ==> h.items[j].None?
    ensures h.HOther? ==> r.None?
  {
    match h
    case HString(s) => Some(s)
    case HList(items) =>
      var i := Seqs.FirstIndex(items, IsString);
      if i.Some? then items[i.value] else None
    case HOther => None
  }

  /** `coerceBearerToken`: the text after a leading "Bearer ", or the whole header, trimmed; nothing for an absent or empty header. */
  function CoerceBearerToken(header: Option<string>): (r: Option<string>)
    ensures r.None? <==> !AuditLogs.Truthy(header)
    ensures r.Some? && JsString.StartsWith(header.value, BearerPrefix) ==> r.value == JsString.Trim(header.value[|BearerPrefix|..])
    ensures r.Some? && !JsString.StartsWith(header.value, BearerPrefix) ==> r.value == JsString.Trim(header.value)
    ensures r.Some? ==> JsString.IsTrimmed(r.value)
  {
    if !AuditLogs.Truthy(header) then None
    else if JsString.StartsWith(header.value, BearerPrefix) then Some(JsString.Trim(header.value[|BearerPrefix|..]))
    else Some(JsString.Trim(header.value))
  }

  /** `cookie.trim().split('=')`: the name and the rest. */
  function CookieParts(cookie: string): seq<string>
  {
    JsString.Split(JsString.Trim(cookie), '=')
  }

  function CookieName(cookie: string): string
  {
    CookieParts(cookie)[0]
  }

  /** `rest.join('=').trim()`: everything after the first '=', trimmed. */
  function CookieValue(cookie: string): string
  {
    JsString.Trim(JsString.Join(CookieParts(cookie)[1..], '='))
  }

  /** The cookies the guard takes a token from. */
  predicate IsTokenCookie(cookie: string)
  {
    CookieName(cookie) == SessionCookieName || CookieName(cookie) == DemoCookieName
  }

  /** The value of the first token cookie, scanning left to right. */
  function CookieToken(cookies: seq<string>): Option<string>
  {
    var i := Seqs.FirstIndex(cookies, IsTokenCookie);
    if i.Some? then Some(CookieValue(cookies[i.value])) else None
  }

  /** A cookie `name=value` with no '=' in the name: its name, and its value is everything after the first '=' (trimmed). */
  lemma CookieNameValue(cookie: string, name: string, value: string)
    requires JsString.Trim(cookie) == name + "=" + value && '=' !in name
    ensures CookieName(cookie) == name
    ensures CookieValue(cookie) == JsString.Trim(value)
  {
    JsString.SplitAround(name, value, '=');
    JsString.JoinSplit(value, '=');
    assert name + "=" + value == name + ['='] + value;
    assert ([name] + JsString.Split(value, '='))[1..] == JsString.Split(value, '=');
  }

  /** `extractCookieToken`: splits the Cookie header on ';' and returns the first token cookie's value. */
  method ExtractCookieToken(cookieHeader: Option<string>) returns (token: Option<string>)
    ensures !AuditLogs.Truthy(cookieHeader) ==> token.None?
    ensures AuditLogs.Truthy(cookieHeader) ==> token == CookieToken(JsString.Split(cookieHeader.value, ';'))
  {
    if !AuditLogs.Truthy(cookieHeader) {
      return None;
    }
    token := ScanCookies(JsString.Split(cookieHeader.value, ';'));
  }

  /** The `for (const cookie of cookies)` loop of `extractCookieToken`. */
  method ScanCookies(cookies: seq<string>) returns (token: Option<string>)
    ensures token == CookieToken(cookies)
  {
    var i := 0;
    while i < |cookies|
      invariant 0 <= i <= |cookies|
      invariant forall j :: 0 <= j < i ==> !IsTokenCookie(cookies[j])
    {
      var found := ReadCookie(cookies[i]);
      if found.Some? {
        FirstTokenCookie(cookies, i, found);
        return found;
      }
      i := i + 1;
    }
    NoTokenCookie(cookies);
    return None;
  }

  /** One turn of that loop: the value of a session or demo cookie, nothing for any other cookie. */
  method ReadCookie(cookie: string) returns (found: Option<string>)
    ensures found.Some? <==> IsTokenCookie(cookie)
    ensures found.Some? ==> found.value == CookieValue(cookie)
  {
    var name := CookieName(cookie);
    if name == SessionCookieName {
      return Some(CookieValue(cookie));
    }
    if name == DemoCookieName {
      return Some(CookieValue(cookie));
    }
    return None;
  }

  /** The first token cookie gives the token. */
  lemma FirstTokenCookie(cookies: seq<string>, i: nat, found: Option<string>)
    requires i < |cookies| && IsTokenCookie(cookies[i])
    requires forall j :: 0 <= j < i ==> !IsTokenCookie(cookies[j])
    requires found == Some(CookieValue(cookies[i]))
    ensures CookieToken(cookies) == found
  {
    Seqs.FirstIndexAt(cookies, IsTokenCookie, i);
  }

  /** Without a token cookie there is no token. */
  lemma NoTokenCookie(cookies: seq<string>)
    requires forall j :: 0 <= j < |cookies| ==> !IsTokenCookie(cookies[j])
    ensures CookieToken(cookies).None?
  {
  }

  // ---------------------------------------------------------------------------
  // canActivate
  // ---------------------------------------------------------------------------

  /** The headers and parsed cookies of a request. */
  datatype Credentials = Credentials(
    authorization: HeaderValue, xSessionToken: HeaderValue, cookie: HeaderValue,
    cookies: Option<map<string, string>>)

  /** `request.cookies?.[SESSION_COOKIE_NAME]`. */
  function ParsedSessionCookie(c: Credentials): Option<string>
  {
    if c.cookies.Some? && SessionCookieName in c.cookies.value then Some(c.cookies.value[SessionCookieName]) else None
  }

  /** `headerToken ?? xSessionToken ?? cookieToken`, where the cookie token prefers the parsed cookie to the Cookie header. */
  function TokenOf(c: Credentials): Option<string>
  {
    var headerToken := CoerceBearerToken(NormaliseHeader(c.authorization));
    var xSessionToken := NormaliseHeader(c.xSessionToken);
    var cookieHeader := NormaliseHeader(c.cookie);
    var cookieToken :=
      if ParsedSessionCookie(c).Some? then ParsedSessionCookie(c)
      else if AuditLogs.Truthy(cookieHeader) then CookieToken(JsString.Split(cookieHeader.value, ';'))
      else None;
    if headerToken.Some? then headerToken else if xSessionToken.Some? then xSessionToken else cookieToken
  }

  /** A non-empty Authorization header decides the token; the other sources are consulted only in order. */
  lemma TokenPrecedence(c: Credentials)
    ensures AuditLogs.Truthy(NormaliseHeader(c.authorization)) ==> TokenOf(c) == CoerceBearerToken(NormaliseHeader(c.authorization))
    ensures !AuditLogs.Truthy(NormaliseHeader(c.authorization)) && NormaliseHeader(c.xSessionToken).Some? ==>
              TokenOf(c) == NormaliseHeader(c.xSessionToken)
    ensures (!AuditLogs.Truthy(NormaliseHeader(c.authorization)) && NormaliseHeader(c.xSessionToken).None?
             && ParsedSessionCookie(c).Some?) ==> TokenOf(c) == ParsedSessionCookie(c)
    ensures (!AuditLogs.Truthy(NormaliseHeader(c.authorization)) && NormaliseHeader(c.xSessionToken).None?
             && ParsedSessionCookie(c).None? && NormaliseHeader(c.cookie).None?) ==> TokenOf(c).None?
  {
  }

  /** The fixed session of a demo token, if `token` is one. */
  function DemoResult(token: Option<string>): (r: Option<AuthResult>)
    ensures r.Some? <==> token in {Some("demo-admin"), Some("demo-member"), Some("demo-leader")}
    ensures r.Some? ==> r.value.session == Session(token) && r.value.user.status.None?
  {
    if token == Some("demo-admin") then Some(DemoUser("demo-admin", "Admin"))
    else if token == Some("demo-member") then Some(DemoUser("demo-member", "Member"))
    else if token == Some("demo-leader") then Some(DemoUser("demo-leader", "Leader"))
    else None
  }

  function DemoUser(token: string, role: string): AuthResult
  {
    AuthResult(
      AuthUser(token + "-user", Some(token + "@local"), JArray([JObject(map["role" := JString(role)])]), None, None),
      Session(Some(token)))
  }

  /** The user attached to the request. */
  function Attached(result: AuthResult): RequestUser
  {
    RequestUser(result.user.id, result.user.primaryEmail, result.user.roles, result.user.profile, result.session.token)
  }

  /** `canActivate`: the user and session to attach, or the exception. */
  function Authenticate(c: Credentials, resolver: Resolver): Result<(RequestUser, Session), AuthError>
  {
    var token := TokenOf(c);
    var result :=
      if DemoResult(token).Some? then Ok(DemoResult(token).value)
      else if resolver.None? then Err(Unauthorized(InvalidCredentials))
      else if resolver.value(token).None? then Err(Unauthorized(InvalidCredentials))
      else Ok(resolver.value(token).value);
    if result.Err? then Err(result.error)
    else if AuditLogs.Truthy(result.value.user.status) && result.value.user.status.value != "active" then Err(Forbidden(NotActive))
    else Ok((Attached(result.value), result.value.session))
  }

  /** A demo token is accepted without the auth service, as a fixed user with the matching role. */
  lemma DemoTokensBypassResolver(c: Credentials, resolver: Resolver, other: Resolver)
    requires TokenOf(c) in {Some("demo-admin"), Some("demo-member"), Some("demo-leader")}
    ensures Authenticate(c, resolver) == Authenticate(c, other)
    ensures Authenticate(c, resolver).Ok?
    ensures Authenticate(c, resolver).value.0.id == TokenOf(c).value + "-user"
    ensures Authenticate(c, resolver).value.0.token == TokenOf(c)
  {
  }

  /** Any other token is refused as unauthorized when there is no auth service or it resolves nothing. */
  lemma UnresolvedIsUnauthorized(c: Credentials, resolver: Resolver)
    requires DemoResult(TokenOf(c)).None?
    requires resolver.None? || resolver.value(TokenOf(c)).None?
    ensures Authenticate(c, resolver) == Err(Unauthorized(InvalidCredentials))
  {
  }

  /**
   * A resolved session is accepted exactly when the user's status is absent,
   * empty or 'active'; then the request carries the resolved user's id, email,
   * roles and profile and the session's token.
   */
  lemma ResolvedStatusGate(c: Credentials, resolver: Resolver)
    requires DemoResult(TokenOf(c)).None? && resolver.Some? && resolver.value(TokenOf(c)).Some?
    ensures var result := resolver.value(TokenOf(c)).value;
            && (Authenticate(c, resolver).Ok? <==> !AuditLogs.Truthy(result.user.status) || result.user.status.value == "active")
            && (Authenticate(c, resolver).Err? ==> Authenticate(c, resolver).error == Forbidden(NotActive))
            && (Authenticate(c, resolver).Ok? ==>
                  Authenticate(c, resolver).value == (RequestUser(result.user.id, result.user.primaryEmail, result.user.roles,
                                                                  result.user.profile, result.session.token), result.session))
  {
  }

  /** The token `canActivate` reads: the bearer header, then `x-session-token`, then the session cookie. */
  method ReadToken(c: Credentials) returns (token: Option<string>)
    ensures token == TokenOf(c)
  {
    var headerToken := CoerceBearerToken(NormaliseHeader(c.authorization));
    var xSessionToken := NormaliseHeader(c.xSessionToken);
    var cookieHeader := NormaliseHeader(c.cookie);
    var cookieToken := ParsedSessionCookie(c);
    if cookieToken.None? {
      cookieToken := ExtractCookieToken(cookieHeader);
    }
    token := if headerToken.Some? then headerToken else if xSessionToken.Some? then xSessionToken else cookieToken;
  }

  /** A request: its credentials, and what the guard attaches to it. */
  class Request {
    const credentials: Credentials
    var user: Option<RequestUser>
    var session: Option<Session>

    constructor (credentials: Credentials)
      ensures this.credentials == credentials && user.None? && session.None?
    {
      this.credentials := credentials;
      user, session := None, None;
    }
  }

  class Guard {
    const resolver: Resolver

    constructor (resolver: Resolver)
      ensures this.resolver == resolver
    {
      this.resolver := resolver;
    }

    /** `canActivate`: attaches the user and the session and answers true, or throws and changes nothing. */
    method CanActivate(request: Request) returns (r: Result<bool, AuthError>)
      modifies request`user, request`session
      ensures Authenticate(request.credentials, resolver).Ok? ==>
                && r == Ok(true)
                && request.user == Some(Authenticate(request.credentials, resolver).value.0)
                && request.session == Some(Authenticate(request.credentials, resolver).value.1)
      ensures Authenticate(request.credentials, resolver).Err? ==>
                && r == Err(Authenticate(request.credentials, resolver).error)
                && request.user == old(request.user) && request.session == old(request.session)
    {
      var token := ReadToken(request.credentials);
      var result: Option<AuthResult>;
      if DemoResult(token).Some? {
        result := DemoResult(token);
      } else if resolver.None? {
        return Err(Unauthorized(InvalidCredentials));
      } else {
        result := resolver.value(token);
      }
      if result.None? {
        return Err(Unauthorized(InvalidCredentials));
      }
      if AuditLogs.Truthy(result.value.user.status) && result.value.user.status.value != "active" {
        return Err(Forbidden(NotActive));
      }
      request.user := Some(Attached(result.value));
      request.session := Some(result.value.session);
      return Ok(true);
    }
  }
}
