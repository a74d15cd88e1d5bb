/**
 * The backend's CORS middleware, run in front of every `/api` route.
 */
module CorsMiddleware {
  import opened Wrappers
  import opened Strings

  type Headers = map<string, string>

  const LocalOrigin: string := "http://localhost:3000"
  const ProductionOrigin: string := "https://yachtvault.vercel.app"
  const AllowMethods: string := "GET, POST, PUT, DELETE, OPTIONS"
  const AllowHeaders: string := "Content-Type, Authorization"
  const MaxAge: string := "86400"

  /** The development and production origins, and the deployment's own `https://` origin when `VERCEL_URL` is set (non-empty). */
  function AllowedOrigins(vercelUrl: Option<string>): (allowed: seq<string>)
    ensures |allowed| >= 2 && allowed[0] == LocalOrigin && allowed[1] == ProductionOrigin
    ensures vercelUrl.Some? && vercelUrl.value != "" ==> allowed == [LocalOrigin, ProductionOrigin, "https://" + vercelUrl.value]
    ensures vercelUrl.None? || vercelUrl.value == "" ==> |allowed| == 2
  {
    var base := [LocalOrigin, ProductionOrigin];
    if vercelUrl.Some? && vercelUrl.value != "" then base + ["https://" + vercelUrl.value] else base
  }

  /** `origin && allowedOrigins.some(allowed => origin.endsWith(allowed))`: a present, non-empty origin that ends with one of the allowed origins, such as any allowed origin itself. */
  function OriginAllowed(origin: Option<string>, allowed: seq<string>): (ok: bool)
    ensures ok ==> origin.Some? && origin.value != ""
    ensures origin.Some? && origin.value != "" && origin.value in allowed ==> ok
    ensures origin.None? || origin.value == "" || allowed == [] ==> !ok
  {
    origin.Some? && origin.value != "" &&
    assert EndsWith(origin.value, origin.value) by { assert origin.value[0..] == origin.value; }
    exists a :: a in allowed && EndsWith(origin.value, a)
  }

  datatype Response =
    | Preflight(status: nat, headers: Headers)
    | Continue(forwardedHeaders: Headers, headers: Headers)

  /**
   * An `OPTIONS` request is answered at once with 204 and the CORS headers;
   * any other request goes on to its route with its headers as they were.
   * Either way the allow-origin header is present exactly when the origin is
   * allowed, and then echoes that origin.
   */
  method HandleRequest(httpMethod: string, requestHeaders: Headers, allowed: seq<string>) returns (response: Response)
    ensures var origin := if "origin" in requestHeaders then Some(requestHeaders["origin"]) else None;
      && (httpMethod == "OPTIONS" <==> response.Preflight?)
      && ("Access-Control-Allow-Origin" in response.headers <==> OriginAllowed(origin, allowed))
      && (OriginAllowed(origin, allowed) ==> response.headers["Access-Control-Allow-Origin"] == origin.value)
    ensures response.Preflight? ==>
      && response.status == 204
      && response.headers.Keys - {"Access-Control-Allow-Origin"} == {"Access-Control-Allow-Methods", "Access-Control-Allow-Headers", "Access-Control-Max-Age"}
      && response.headers["Access-Control-Allow-Methods"] == AllowMethods
      && response.headers["Access-Control-Allow-Headers"] == AllowHeaders
      && response.headers["Access-Control-Max-Age"] == MaxAge
    ensures response.Continue? ==>
      && response.forwardedHeaders == requestHeaders
      && response.headers.Keys <= {"Access-Control-Allow-Origin"}
  {
    var origin := if "origin" in requestHeaders then Some(requestHeaders["origin"]) else None;
    var headers: Headers := map[];
    if httpMethod == "OPTIONS" {
      if OriginAllowed(origin, allowed) {
        headers := headers["Access-Control-Allow-Origin" := origin.value];
      }
      headers := headers["Access-Control-Allow-Methods" := AllowMethods];
      headers := headers["Access-Control-Allow-Headers" := AllowHeaders];
      headers := headers["Access-Control-Max-Age" := MaxAge];
      return Preflight(204, headers);
    }
    if OriginAllowed(origin, allowed) {
      headers := headers["Access-Control-Allow-Origin" := origin.value];
    }
    response := Continue(requestHeaders, headers);
  }

  /** Each allowed origin, sent exactly, is accepted. */
  lemma ExactOriginsAccepted(vercelUrl: Option<string>, origin: string)
    requires origin in AllowedOrigins(vercelUrl)
    ensures OriginAllowed(Some(origin), AllowedOrigins(vercelUrl))
  {
    assert origin[|origin| - |origin|..] == origin;
    assert EndsWith(origin, origin);
  }

  /** An origin as a browser sends it: `http://` or `https://` followed by a host (and port) with no `/`. */
  predicate WellFormed(scheme: string, host: string) {
    (scheme == "http" || scheme == "https") && '/' !in host
  }

  /** The only slashes of a well-formed origin are the two after its scheme. */
  lemma SlashPositions(scheme: string, host: string, j: int)
    requires WellFormed(scheme, host)
    requires 0 <= j < |scheme + "://" + host| && (scheme + "://" + host)[j] == '/'
    ensures j == |scheme| + 1 || j == |scheme| + 2
  {
  }

  /**
   * Between well-formed origins the suffix test is equality: no other site's
   * origin ends with an allowed one.
   */
  lemma SuffixMatchIsExact(scheme: string, host: string, scheme2: string, host2: string)
    requires WellFormed(scheme, host) && WellFormed(scheme2, host2)
    requires EndsWith(scheme + "://" + host, scheme2 + "://" + host2)
    ensures scheme == scheme2 && host == host2
  {
    var o := scheme + "://" + host;
    var a := scheme2 + "://" + host2;
    var d := |o| - |a|;
    assert o[d..] == a;
    var i := |scheme2| + 1;
    assert o[d + i] == a[i] == '/';
    assert o[d + i + 1] == a[i + 1] == '/';
    SlashPositions(scheme, host, d + i);
    SlashPositions(scheme, host, d + i + 1);
    assert d == |scheme| - |scheme2|;
    // The suffix starts with its scheme's `h`, which is not the `t` of `https`.
    assert o[d] == a[0] == 'h';
    assert |scheme| == |scheme2|;
    assert host == o[|scheme| + 3..] == a[|scheme2| + 3..] == host2;
  }

  /** The two fixed origins, split into scheme and host. */
  lemma FixedOriginsWellFormed()
    ensures WellFormed("http", "localhost:3000") && LocalOrigin == "http" + "://" + "localhost:3000"
    ensures WellFormed("https", "yachtvault.vercel.app") && ProductionOrigin == "https" + "://" + "yachtvault.vercel.app"
  {
  }

  /** An allowed origin that a well-formed origin ends with is that origin. */
  lemma ListedSuffixIsExact(scheme: string, host: string, vercelUrl: Option<string>, a: string)
    requires WellFormed(scheme, host)
    requires vercelUrl.Some? ==> '/' !in vercelUrl.value
    requires a in AllowedOrigins(vercelUrl) && EndsWith(scheme + "://" + host, a)
    ensures scheme + "://" + host == a
  {
    FixedOriginsWellFormed();
    var scheme2 := if a == ProductionOrigin || a !in [LocalOrigin, ProductionOrigin] then "https" else "http";
    var host2 := if a == LocalOrigin then "localhost:3000" else if a == ProductionOrigin then "yachtvault.vercel.app" else vercelUrl.value;
    assert WellFormed(scheme2, host2) && a == scheme2 + "://" + host2;
    SuffixMatchIsExact(scheme, host, scheme2, host2);
  }

  /**
   * The middleware's conclusion: when the deployment URL holds no `/`, a
   * well-formed origin gets the allow-origin header exactly when it is one of
   * the allowed origins.
   */
  lemma OnlyListedOriginsAllowed(scheme: string, host: string, vercelUrl: Option<string>)
    requires WellFormed(scheme, host)
    requires vercelUrl.Some? ==> '/' !in vercelUrl.value
    ensures OriginAllowed(Some(scheme + "://" + host), AllowedOrigins(vercelUrl)) <==>
      scheme + "://" + host in AllowedOrigins(vercelUrl)
  {
    var o := scheme + "://" + host;
    var allowed := AllowedOrigins(vercelUrl);
    if OriginAllowed(Some(o), allowed) {
      var a :| a in allowed && EndsWith(o, a);
      ListedSuffixIsExact(scheme, host, vercelUrl, a);
    }
  }
}
