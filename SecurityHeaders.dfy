/**
 * The baseline security headers every HTTP response leaves with: five
 * fixed headers, a restrictive Content-Security-Policy when configured,
 * and Strict-Transport-Security (RFC 6797) when configured and the request
 * reached the server over HTTPS. Every write is a `setdefault`, so a value
 * the application already set is never replaced.
 */
module SecurityHeaders {
  import opened Py
  import Responses

  /** The configuration fields the middleware reads. */
  datatype SecurityConfig = SecurityConfig(cspEnabled: bool, hstsEnabled: bool)

  const ContentSecurityPolicy: string := "default-src 'none'; frame-ancestors 'none'; base-uri 'none'"
  /** Six months, subdomains included, no preload. */
  const StrictTransportSecurity: string := "max-age=15552000; includeSubDomains"

  /** The five headers written on every response, with their values. */
  const Baseline: map<string, string> :=
    map["X-Content-Type-Options" := "nosniff",
        "X-Frame-Options" := "DENY",
        "Referrer-Policy" := "no-referrer",
        "Permissions-Policy" := "camera=(); microphone=(); geolocation=()",
        "Cache-Control" := "no-store"]

  /** The seven names the middleware may write. */
  const Written: set<string> := Baseline.Keys + {"Content-Security-Policy", "Strict-Transport-Security"}

  /** The defaults `_apply` offers: the baseline, then CSP and HSTS when they apply. */
  function Defaults(cspEnabled: bool, hsts: bool): map<string, string>
  {
    var d := if cspEnabled then Baseline["Content-Security-Policy" := ContentSecurityPolicy] else Baseline;
    if hsts then d["Strict-Transport-Security" := StrictTransportSecurity] else d
  }

  /**
   * The defaults are the baseline five with their fixed values, CSP exactly
   * when enabled and HSTS exactly when it applies, and nothing else.
   */
  lemma DefaultsContent(cspEnabled: bool, hsts: bool)
    ensures var d := Defaults(cspEnabled, hsts);
      && d.Keys <= Written
      && Baseline.Keys <= d.Keys && (forall k :: k in Baseline ==> d[k] == Baseline[k])
      && ("Content-Security-Policy" in d <==> cspEnabled)
      && ("Strict-Transport-Security" in d <==> hsts)
      && (cspEnabled ==> d["Content-Security-Policy"] == ContentSecurityPolicy)
      && (hsts ==> d["Strict-Transport-Security"] == StrictTransportSecurity)
  {
  }

  /** The five unconditional `setdefault` calls of `_apply`. */
  method ApplyBaseline(response: Responses.Response)
    modifies response
    ensures response.headers == Baseline + old(response.headers)
    ensures response.status == old(response.status)
  {
    ghost var original := response.headers;
    ghost var d: map<string, string> := map[];
    assert response.headers == d + original;
    response.SetDefault("X-Content-Type-Options", "nosniff");
    SetDefaultExtends(d, original, "X-Content-Type-Options", "nosniff");
    d := d["X-Content-Type-Options" := "nosniff"];
    assert response.headers == d + original;
    response.SetDefault("X-Frame-Options", "DENY");
    SetDefaultExtends(d, original, "X-Frame-Options", "DENY");
    d := d["X-Frame-Options" := "DENY"];
    assert response.headers == d + original;
    response.SetDefault("Referrer-Policy", "no-referrer");
    SetDefaultExtends(d, original, "Referrer-Policy", "no-referrer");
    d := d["Referrer-Policy" := "no-referrer"];
    assert response.headers == d + original;
    response.SetDefault("Permissions-Policy", "camera=(); microphone=(); geolocation=()");
    SetDefaultExtends(d, original, "Permissions-Policy", "camera=(); microphone=(); geolocation=()");
    d := d["Permissions-Policy" := "camera=(); microphone=(); geolocation=()"];
    assert response.headers == d + original;
    response.SetDefault("Cache-Control", "no-store");
    SetDefaultExtends(d, original, "Cache-Control", "no-store");
    d := d["Cache-Control" := "no-store"];
    assert response.headers == d + original;
    assert d == Baseline;
    assert original == old(response.headers);
  }

  /**
   * `SecurityHeadersMiddleware._apply(response, request)`. `https` is what
   * `is_https_request` answers for the request; it is consulted only when
   * HSTS is enabled, and when it raises the exception leaves `_apply` after
   * the baseline and CSP writes.
   */
  method Apply(response: Responses.Response, cfg: SecurityConfig, https: Result<bool>) returns (raised: bool)
    modifies response
    ensures raised <==> cfg.hstsEnabled && https.Err?
    ensures response.headers ==
            Defaults(cfg.cspEnabled, cfg.hstsEnabled && https == Ok(true)) + old(response.headers)
    ensures response.status == old(response.status)
  {
    ghost var original := response.headers;
    ApplyBaseline(response);
    ghost var d := Baseline;
    if cfg.cspEnabled {
      response.SetDefault("Content-Security-Policy", ContentSecurityPolicy);
      SetDefaultExtends(d, original, "Content-Security-Policy", ContentSecurityPolicy);
      d := d["Content-Security-Policy" := ContentSecurityPolicy];
    }
    assert d == Defaults(cfg.cspEnabled, false);
    if cfg.hstsEnabled {
      if https.Err? {
        return true;
      }
      if https.value {
        response.SetDefault("Strict-Transport-Security", StrictTransportSecurity);
        SetDefaultExtends(d, original, "Strict-Transport-Security", StrictTransportSecurity);
      }
    }
    return false;
  }

  /** A `setdefault` on `d + original` offers one more default, `d[name := value] + original`. */
  lemma SetDefaultExtends(d: map<string, string>, original: map<string, string>, name: string, value: string)
    requires name !in d
    ensures var h := d + original;
      (if name in h then h else h[name := value]) == d[name := value] + original
  {
  }

  /**
   * What the application set is kept: every header it set is still there
   * with its value, so nothing is removed or overwritten, and every header
   * the middleware writes is one of the seven it knows.
   */
  lemma ExistingKept(headers: map<string, string>, cspEnabled: bool, hsts: bool)
    ensures var h := Defaults(cspEnabled, hsts) + headers;
      && headers.Keys <= h.Keys
      && (forall k :: k in headers ==> h[k] == headers[k])
      && (forall k :: k in h && k !in headers ==> k in Written)
  {
  }

  /**
   * The baseline five are always present afterwards, with the fixed value
   * unless the application set its own; CSP is present only when enabled or
   * already set, HSTS only when it applies or was already set.
   */
  lemma HeadersPresent(headers: map<string, string>, cspEnabled: bool, hsts: bool)
    ensures var h := Defaults(cspEnabled, hsts) + headers;
      && Baseline.Keys <= h.Keys
      && (forall k :: k in Baseline && k !in headers ==> h[k] == Baseline[k])
      && ("Content-Security-Policy" in h <==> cspEnabled || "Content-Security-Policy" in headers)
      && ("Strict-Transport-Security" in h <==> hsts || "Strict-Transport-Security" in headers)
  {
  }

  /** Applying the defaults a second time changes nothing. */
  lemma ApplyIdempotent(headers: map<string, string>, cspEnabled: bool, hsts: bool)
    ensures var h := Defaults(cspEnabled, hsts) + headers;
      Defaults(cspEnabled, hsts) + h == h
  {
  }
}
