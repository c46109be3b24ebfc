/**
 * The authentication middleware: public paths pass untouched; every other
 * request needs a session token with an email, else it is redirected to the
 * home page; an authenticated request goes on with a set of security headers,
 * two more of them in production.
 */
module Middleware {
  import opened Wrappers
  import opened Text

  /** The session token, `{ email? }`. */
  datatype Token = Token(email: Option<string>)

  /** The outcome of `getToken`: a token, none, or a thrown error. */
  datatype TokenLookup = Found(token: Option<Token>) | LookupFailed

  /** What the middleware answers: go on with these headers set, or redirect. */
  datatype Outcome = Next(headers: map<string, string>) | Redirect(location: string)

  /** The paths that skip the token check. */
  predicate IsPublicPath(path: string) {
    || StartsWith(path, "/_next")
    || StartsWith(path, "/api/auth")
    || path == "/"
    || path == "/favicon.ico"
  }

  const StrictTransportSecurity := "max-age=31536000; includeSubDomains; preload"
  const ContentSecurityPolicy :=
    "default-src 'self'; script-src 'self' 'unsafe-inline' 'unsafe-eval'; style-src 'self' 'unsafe-inline'; img-src 'self' data: https:; font-src 'self' data:;"

  /** The headers every authenticated response carries. */
  const BaseHeaders: map<string, string> := map[
    "X-Content-Type-Options" := "nosniff",
    "X-Frame-Options" := "DENY",
    "Referrer-Policy" := "origin-when-cross-origin",
    "Permissions-Policy" := "camera=(), microphone=(), geolocation=()"]

  /** The security headers of an authenticated response. */
  function SecurityHeaders(production: bool): (r: map<string, string>)
    ensures BaseHeaders.Keys <= r.Keys
    ensures forall name :: name in BaseHeaders ==> r[name] == BaseHeaders[name]
    ensures "Strict-Transport-Security" in r <==> production
    ensures "Content-Security-Policy" in r <==> production
    ensures production ==> r["Strict-Transport-Security"] == StrictTransportSecurity
    ensures production ==> r["Content-Security-Policy"] == ContentSecurityPolicy
    ensures r.Keys == BaseHeaders.Keys + (if production then {"Strict-Transport-Security", "Content-Security-Policy"} else {})
  {
    if production then
      BaseHeaders["Strict-Transport-Security" := StrictTransportSecurity]["Content-Security-Policy" := ContentSecurityPolicy]
    else BaseHeaders
  }

  /** Four headers outside production, six in it. */
  lemma SecurityHeaderCount(production: bool)
    ensures |SecurityHeaders(production).Keys| == if production then 6 else 4
  {
    var base := BaseHeaders.Keys;
    assert base == {"X-Content-Type-Options", "X-Frame-Options", "Referrer-Policy", "Permissions-Policy"};
    if production {
      var extra := {"Strict-Transport-Security", "Content-Security-Policy"};
      assert |extra| == 2;
      assert base * extra == {};
      assert SecurityHeaders(production).Keys == base + extra;
    }
  }

  /** `response.headers` of the response the middleware passes on. */
  class ResponseHeaders {
    var entries: map<string, string>

    /** `NextResponse.next()`: no headers yet. */
    constructor()
      ensures entries == map[]
    {
      entries := map[];
    }

    /** `headers.set(name, value)`: adds the header, or replaces its value. */
    method Set(name: string, value: string)
      modifies this
      ensures entries == old(entries)[name := value]
    {
      entries := entries[name := value];
    }
  }

  /** The four base headers set one after another on any header map. */
  lemma BaseHeadersUnion(m: map<string, string>)
    ensures m["X-Content-Type-Options" := "nosniff"]["X-Frame-Options" := "DENY"]
             ["Referrer-Policy" := "origin-when-cross-origin"]
             ["Permissions-Policy" := "camera=(), microphone=(), geolocation=()"] == m + BaseHeaders
  {
  }

  /** The two production headers set after the base ones. */
  lemma ProductionHeadersUnion(m: map<string, string>)
    ensures (m + BaseHeaders)["Strict-Transport-Security" := StrictTransportSecurity]
              ["Content-Security-Policy" := ContentSecurityPolicy] == m + SecurityHeaders(true)
  {
  }

  /** The header block at the end of the middleware. */
  method AddSecurityHeaders(response: ResponseHeaders, nodeEnv: string)
    modifies response
    ensures response.entries == old(response.entries) + SecurityHeaders(nodeEnv == "production")
  {
    ghost var before := response.entries;
    response.Set("X-Content-Type-Options", "nosniff");
    response.Set("X-Frame-Options", "DENY");
    response.Set("Referrer-Policy", "origin-when-cross-origin");
    response.Set("Permissions-Policy", "camera=(), microphone=(), geolocation=()");
    BaseHeadersUnion(before);
    if nodeEnv == "production" {
      response.Set("Strict-Transport-Security", StrictTransportSecurity);
      response.Set("Content-Security-Policy", ContentSecurityPolicy);
      ProductionHeadersUnion(before);
    }
  }

  predicate TruthyEmail(token: Token) {
    token.email.Some? && token.email.value != ""
  }

  /** The lookup found a token with a non-empty email. */
  predicate Authenticated(lookup: TokenLookup) {
    lookup.Found? && lookup.token.Some? && TruthyEmail(lookup.token.value)
  }

  /**
   * The decision the middleware takes.  A public path goes on with no headers
   * added.  Any other path goes on only with a token that has an email, and
   * then with the security headers; otherwise a failed lookup, a missing token
   * and a token without an email each redirect to the home page, the first
   * and the last with an error code.
   */
  function Decide(path: string, lookup: TokenLookup, nodeEnv: string): (outcome: Outcome)
    ensures outcome.Next? <==> IsPublicPath(path) || Authenticated(lookup)
    ensures IsPublicPath(path) ==> outcome == Next(map[])
    ensures !IsPublicPath(path) && Authenticated(lookup) ==> outcome == Next(SecurityHeaders(nodeEnv == "production"))
    ensures !IsPublicPath(path) && lookup.LookupFailed? ==> outcome == Redirect("/?error=auth_error")
    ensures !IsPublicPath(path) && lookup.Found? && lookup.token.None? ==> outcome == Redirect("/")
    ensures !IsPublicPath(path) && lookup.Found? && lookup.token.Some? && !TruthyEmail(lookup.token.value) ==>
      outcome == Redirect("/?error=invalid_token")
  {
    if IsPublicPath(path) then Next(map[])
    else if lookup.LookupFailed? then Redirect("/?error=auth_error")
    else if lookup.token.None? then Redirect("/")
    else if !TruthyEmail(lookup.token.value) then Redirect("/?error=invalid_token")
    else Next(SecurityHeaders(nodeEnv == "production"))
  }

  /** `middleware`, with the token lookup and `NODE_ENV` as inputs. */
  method HandleRequest(path: string, lookup: TokenLookup, nodeEnv: string) returns (outcome: Outcome)
    ensures outcome == Decide(path, lookup, nodeEnv)
  {
    if IsPublicPath(path) {
      return Next(map[]);
    }
    match lookup
    case LookupFailed =>
      return Redirect("/?error=auth_error");
    case Found(token) =>
      if token.None? {
        return Redirect("/");
      }
      if !TruthyEmail(token.value) {
        return Redirect("/?error=invalid_token");
      }
    var response := new ResponseHeaders();
    AddSecurityHeaders(response, nodeEnv);
    assert map[] + SecurityHeaders(nodeEnv == "production") == SecurityHeaders(nodeEnv == "production");
    outcome := Next(response.entries);
  }
}
