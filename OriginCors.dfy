/**
 * The Origin allowlist and CORS handling of the HTTP transport
 * (deny by default). A request with an `Origin` header is refused with 403
 * unless the origin parses and matches an allowed spec; an allowed
 * preflight is answered directly; any other allowed request gets the CORS
 * headers on its response. A request without `Origin` is untouched.
 *
 * Parsing an origin (`_normalize_origin`) and matching it against a spec
 * (`OriginSpec.matches`) live in configuration code that is not part of
 * this model; both are parameters.
 */
module OriginCors {
  import opened Wrappers
  import opened Text
  import Responses

  /** An origin: scheme, host and port; in an allowlist, no port matches any port. */
  datatype OriginSpec = OriginSpec(scheme: string, host: string, port: Option<int>)

  /** The configuration fields the middleware reads. */
  datatype CorsConfig = CorsConfig(path: string, enableSse: bool, allowedHeaders: seq<string>,
                                   exposedHeaders: seq<string>, allowCredentials: bool, corsMaxAge: int,
                                   devAllowLocalhost: bool, allowedOrigins: seq<OriginSpec>)

  /**
   * `dev_localhost_allowlist(cfg)`: nothing unless local development is
   * allowed; then `http` and `https` on `localhost` and `127.0.0.1`, any port.
   */
  function DevLocalhostAllowlist(devAllowLocalhost: bool): (r: seq<OriginSpec>)
    ensures !devAllowLocalhost ==> r == []
    ensures devAllowLocalhost ==> |r| == 4
    ensures devAllowLocalhost ==>
              forall scheme, host :: (scheme in {"http", "https"} && host in {"localhost", "127.0.0.1"}) ==> OriginSpec(scheme, host, None) in r
    ensures forall s :: s in r ==> s.scheme in {"http", "https"} && s.host in {"localhost", "127.0.0.1"} && s.port.None?
  {
    if !devAllowLocalhost then []
    else [OriginSpec("http", "localhost", None), OriginSpec("http", "127.0.0.1", None),
          OriginSpec("https", "localhost", None), OriginSpec("https", "127.0.0.1", None)]
  }

  // ---- Vary ----

  /** Some token already kept has the same lower-case form as `norm`. */
  predicate SeenFold(seen: seq<string>, norm: string)
  {
    exists v :: v in seen && Lower(v) == Lower(norm)
  }

  /** The tokens `_build_vary` keeps, grown one item at a time as its loop does. */
  function Dedup(items: seq<string>): seq<string>
  {
    if items == [] then []
    else
      var seen := Dedup(items[..|items| - 1]);
      var norm := Strip(items[|items| - 1]);
      if norm != "" && !SeenFold(seen, norm) then seen + [norm] else seen
  }

  /**
   * `_build_vary(value_list)`: each item trimmed, empties and
   * case-insensitive repeats dropped, the rest joined with `", "`.
   */
  method BuildVary(items: seq<string>) returns (r: string)
    ensures r == Join(Dedup(items), ", ")
  {
    var seen: seq<string> := [];
    var i := 0;
    while i < |items|
      invariant 0 <= i <= |items|
      invariant seen == Dedup(items[..i])
    {
      assert items[..i + 1][..i] == items[..i];
      var norm := Strip(items[i]);
      if norm != "" && !SeenFold(seen, norm) {
        seen := seen + [norm];
      }
      i := i + 1;
    }
    assert items[..i] == items;
    r := Join(seen, ", ");
  }

  /** Item `k` is the first non-empty item of its lower-case form. */
  predicate IsFirst(items: seq<string>, k: nat)
    requires k < |items|
  {
    Strip(items[k]) != "" && forall j :: 0 <= j < k ==> Lower(Strip(items[j])) != Lower(Strip(items[k]))
  }

  /** The reference: the trimmed first spellings of the first `n` items, in item order. */
  function FirstSpellings(items: seq<string>, n: nat): seq<string>
    requires n <= |items|
  {
    if n == 0 then []
    else FirstSpellings(items, n - 1) + (if IsFirst(items, n - 1) then [Strip(items[n - 1])] else [])
  }

  /** Some non-empty trimmed item has the lower-case form of `x`. */
  predicate Covers(items: seq<string>, x: string)
  {
    exists j :: 0 <= j < |items| && Strip(items[j]) != "" && Lower(Strip(items[j])) == Lower(x)
  }

  lemma CoversSnoc(items: seq<string>, x: string)
    requires items != []
    ensures Covers(items, x) <==>
              (Covers(items[..|items| - 1], x) || (Strip(items[|items| - 1]) != "" && Lower(Strip(items[|items| - 1])) == Lower(x)))
  {
    var front := items[..|items| - 1];
    assert forall j :: 0 <= j < |front| ==> front[j] == items[j];
    if Covers(items, x) {
      var j :| 0 <= j < |items| && Strip(items[j]) != "" && Lower(Strip(items[j])) == Lower(x);
      if j < |front| {
        assert Strip(front[j]) != "" && Lower(Strip(front[j])) == Lower(x);
      }
    }
  }

  lemma SeenFoldSnoc(seen: seq<string>, norm: string, x: string)
    ensures SeenFold(seen + [norm], x) <==> SeenFold(seen, x) || Lower(norm) == Lower(x)
  {
    if SeenFold(seen + [norm], x) {
      var v :| v in seen + [norm] && Lower(v) == Lower(x);
    }
    assert norm in seen + [norm];
    assert forall v :: v in seen ==> v in seen + [norm];
  }

  /** The kept tokens cover the lower-case form of every non-empty item, and nothing else. */
  lemma {:induction false} DedupCovers(items: seq<string>)
    ensures forall x :: SeenFold(Dedup(items), x) <==> Covers(items, x)
  {
    if items != [] {
      var front := items[..|items| - 1];
      DedupCovers(front);
      var seen := Dedup(front);
      var norm := Strip(items[|items| - 1]);
      forall x
        ensures SeenFold(Dedup(items), x) <==> Covers(items, x)
      {
        CoversSnoc(items, x);
        if norm != "" && !SeenFold(seen, norm) {
          SeenFoldSnoc(seen, norm, x);
        } else if norm != "" && Lower(norm) == Lower(x) {
          var v :| v in seen && Lower(v) == Lower(norm);
        }
      }
    }
  }

  /** Item `n - 1` is a first spelling exactly when it is non-empty and not yet covered. */
  lemma IsFirstUncovered(items: seq<string>, n: nat)
    requires 0 < n <= |items|
    ensures IsFirst(items, n - 1) <==> Strip(items[n - 1]) != "" && !Covers(items[..n - 1], Strip(items[n - 1]))
  {
    var norm := Strip(items[n - 1]);
    var front := items[..n - 1];
    assert forall j :: 0 <= j < n - 1 ==> front[j] == items[j];
    if norm != "" && Covers(front, norm) {
      var j :| 0 <= j < |front| && Strip(front[j]) != "" && Lower(Strip(front[j])) == Lower(norm);
      assert Lower(Strip(items[j])) == Lower(Strip(items[n - 1]));
    }
    if norm != "" && !IsFirst(items, n - 1) {
      var j :| 0 <= j < n - 1 && Lower(Strip(items[j])) == Lower(norm);
      assert |Strip(items[j])| == |norm|;
      assert Strip(front[j]) != "" && Lower(Strip(front[j])) == Lower(norm);
    }
  }

  /**
   * `_build_vary` keeps exactly the first spelling of each lower-case form,
   * trimmed, in the order of the items: the loop computes the reference.
   */
  lemma {:induction false} DedupIsFirstSpellings(items: seq<string>, n: nat)
    requires n <= |items|
    ensures Dedup(items[..n]) == FirstSpellings(items, n)
  {
    if n > 0 {
      DedupIsFirstSpellings(items, n - 1);
      var p := items[..n];
      assert p[..|p| - 1] == items[..n - 1];
      assert p[|p| - 1] == items[n - 1];
      DedupCovers(items[..n - 1]);
      IsFirstUncovered(items, n);
    }
  }

  /** The kept tokens are non-empty, trimmed, comma-free when the items are, and pairwise distinct ignoring case. */
  lemma {:induction false} DedupTokens(items: seq<string>)
    ensures forall t :: t in Dedup(items) ==> t != "" && Strip(t) == t
    ensures (forall i :: 0 <= i < |items| ==> ',' !in items[i]) ==> forall t :: t in Dedup(items) ==> ',' !in t
    ensures Distinct(Dedup(items))
  {
    if items != [] {
      var front := items[..|items| - 1];
      DedupTokens(front);
      var norm := Strip(items[|items| - 1]);
      if norm != "" {
        StripIdempotent(items[|items| - 1]);
        StripKeepsChar(items[|items| - 1], ',');
      }
      if (forall i :: 0 <= i < |items| ==> ',' !in items[i]) {
        assert forall i :: 0 <= i < |front| ==> front[i] == items[i];
      }
    }
  }

  /** No two tokens have the same lower-case form. */
  predicate Distinct(ts: seq<string>)
  {
    forall i, j :: 0 <= i < j < |ts| ==> Lower(ts[i]) != Lower(ts[j])
  }

  /** Trimmed, non-empty, pairwise distinct tokens are kept as they are. */
  lemma {:induction false} DedupOfDistinct(ts: seq<string>)
    requires forall t :: t in ts ==> t != "" && Strip(t) == t
    requires Distinct(ts)
    ensures Dedup(ts) == ts
  {
    if ts != [] {
      var front := ts[..|ts| - 1];
      assert forall i :: 0 <= i < |front| ==> front[i] == ts[i];
      assert forall t :: t in front ==> t in ts;
      DedupOfDistinct(front);
      var last := ts[|ts| - 1];
      forall v | v in front
        ensures Lower(v) != Lower(last)
      {
        var i :| 0 <= i < |front| && front[i] == v;
        assert ts[i] == v;
      }
      assert ts == front + [last];
    }
  }

  /** `Dedup` sees only the trimmed items. */
  lemma {:induction false} DedupSeesStripped(a: seq<string>, b: seq<string>)
    requires |a| == |b| && forall i :: 0 <= i < |a| ==> Strip(a[i]) == Strip(b[i])
    ensures Dedup(a) == Dedup(b)
  {
    if a != [] {
      DedupSeesStripped(a[..|a| - 1], b[..|b| - 1]);
    }
  }

  /** Splitting `", "`-joined comma-free tokens on `,` gives the tokens back, all but the first behind a space. */
  lemma {:induction false} SplitJoined(ts: seq<string>)
    requires |ts| > 0 && forall t :: t in ts ==> ',' !in t
    ensures |Split(Join(ts, ", "), ',')| == |ts|
    ensures Split(Join(ts, ", "), ',')[0] == ts[0]
    ensures forall i :: 1 <= i < |ts| ==> Split(Join(ts, ", "), ',')[i] == " " + ts[i]
  {
    if |ts| == 1 {
      SplitNoSep(ts[0], ',');
    } else {
      var rest := ts[1..];
      assert forall t :: t in rest ==> t in ts;
      SplitJoined(rest);
      var tail := Join(rest, ", ");
      assert Join(ts, ", ") == ts[0] + [','] + (" " + tail);
      SplitAppendSep(ts[0], ',', " " + tail);
      SplitNoSep(ts[0], ',');
      var st := Split(tail, ',');
      assert Split(" " + tail, ',') == [" " + st[0]] + st[1..] by {
        assert (" " + tail)[0] == ' ';
        assert (" " + tail)[1..] == tail;
      }
    }
  }

  /** A trimmed non-empty token keeps its form after a leading space is stripped. */
  lemma StripSpaced(t: string)
    requires t != "" && Strip(t) == t
    ensures Strip(" " + t) == t
  {
    assert (" " + t)[1..] == t;
    StripTrimmed(t);
  }

  /**
   * `_build_vary` is idempotent on its own output: splitting the header on
   * `,` and building it again gives the same string, when no item holds a
   * comma of its own.
   */
  lemma VaryIdempotent(items: seq<string>)
    requires forall i :: 0 <= i < |items| ==> ',' !in items[i]
    ensures Join(Dedup(Split(Join(Dedup(items), ", "), ',')), ", ") == Join(Dedup(items), ", ")
  {
    var ts := Dedup(items);
    DedupTokens(items);
    if ts == [] {
      assert Split("", ',') == [""];
      assert Dedup([""]) == [] by {
        assert [""][..0] == [];
      }
    } else {
      SplitJoined(ts);
      var parts := Split(Join(ts, ", "), ',');
      forall i | 0 <= i < |ts|
        ensures Strip(parts[i]) == Strip(ts[i])
      {
        assert ts[i] in ts;
        if i > 0 {
          StripSpaced(ts[i]);
        }
      }
      DedupSeesStripped(parts, ts);
      DedupOfDistinct(ts);
    }
  }

  // ---- origins ----

  /** `str(port)`: the port's digits, or `None` when there is none. */
  function PortText(port: Option<int>): string
  {
    if port.None? then "None" else IntToString(port.value)
  }

  /** The scheme's default port is elided. */
  predicate DefaultPort(o: OriginSpec)
  {
    (o.scheme == "http" && o.port == Some(80)) || (o.scheme == "https" && o.port == Some(443))
  }

  /** `_origin_to_header(origin)`: `scheme://host`, then `:port` unless the port is the scheme's default. */
  function OriginToHeader(o: OriginSpec): string
  {
    o.scheme + "://" + o.host + (if DefaultPort(o) then "" else ":" + PortText(o.port))
  }

  /**
   * The serialised origin (section 6.2 of RFC 6454) is the bare
   * `scheme://host` exactly for http on 80 and https on 443; any other port
   * follows a colon.
   */
  lemma DefaultPortElided(o: OriginSpec)
    ensures OriginToHeader(o) == o.scheme + "://" + o.host <==> DefaultPort(o)
    ensures !DefaultPort(o) ==> OriginToHeader(o) == o.scheme + "://" + o.host + ":" + PortText(o.port)
  {
    if !DefaultPort(o) {
      assert |OriginToHeader(o)| > |o.scheme + "://" + o.host|;
    }
  }

  // ---- responses ----

  /** What `_error_response` builds. */
  datatype ErrorResponse = ErrorResponse(status: int, body: map<string, string>, headers: map<string, string>)

  /** `_error_response(status, code, message, vary, request_id)`. */
  function ErrorResponseOf(status: int, code: string, message: string, vary: Option<string>,
                           requestId: string): (r: ErrorResponse)
    ensures r.body.Keys == {"error", "message"} + (if requestId != "" then {"request_id"} else {})
    ensures r.status == status && r.body["error"] == code && r.body["message"] == message
    ensures "content-type" in r.headers && r.headers["content-type"] == "application/json"
    ensures ("vary" in r.headers <==> vary.Some? && vary.value != "") && ("X-Request-Id" in r.headers <==> requestId != "")
  {
    var body := map["error" := code, "message" := message];
    var headers := map["content-type" := "application/json"];
    var headers := if vary.Some? && vary.value != "" then headers["vary" := vary.value] else headers;
    ErrorResponse(status,
                  if requestId != "" then body["request_id" := requestId] else body,
                  if requestId != "" then headers["X-Request-Id" := requestId] else headers)
  }

  /** The header names a preflight answer varies on, as `_build_vary` receives them. */
  const PreflightVaryNames: seq<string> := ["Origin", "Access-Control-Request-Method", "Access-Control-Request-Headers"]

  /** Three trimmed names of different lengths come out of `_build_vary` as they went in, in order. */
  lemma VaryOfThree(a: string, b: string, c: string)
    requires a != "" && b != "" && c != "" && Strip(a) == a && Strip(b) == b && Strip(c) == c
    requires |a| != |b| && |b| != |c| && |a| != |c|
    ensures Dedup([a, b, c]) == [a, b, c]
  {
    DistinctByLength([a, b, c]);
    DedupOfDistinct([a, b, c]);
  }

  /** Tokens of pairwise different lengths are distinct ignoring case. */
  lemma DistinctByLength(ts: seq<string>)
    requires forall i, j :: 0 <= i < j < |ts| ==> |ts[i]| != |ts[j]|
    ensures Distinct(ts)
  {
    forall i, j | 0 <= i < j < |ts|
      ensures Lower(ts[i]) != Lower(ts[j])
    {
      assert |Lower(ts[i])| == |ts[i]|;
    }
  }

  /** The headers of `_preflight_response`, one field each; the two optional ones are `None` when not sent. */
  datatype PreflightAnswer = PreflightAnswer(allowOrigin: string, allowMethods: string, allowHeaders: string,
                                             exposeHeaders: string, vary: string,
                                             allowCredentials: Option<string>, maxAge: Option<string>)

  /** `_preflight_response(request, origin)`, answered with status 204. */
  function PreflightHeaders(cfg: CorsConfig, o: OriginSpec): (h: PreflightAnswer)
    ensures h.allowOrigin == OriginToHeader(o)
    ensures h.allowMethods == "POST" + ", " + "OPTIONS" + (if cfg.enableSse then ", " + "GET" else "")
    ensures h.allowCredentials.Some? <==> cfg.allowCredentials
    ensures h.allowCredentials.Some? ==> h.allowCredentials.value == "true"
    ensures h.maxAge.Some? <==> cfg.corsMaxAge > 0
    ensures h.maxAge.Some? ==> h.maxAge.value == IntToString(cfg.corsMaxAge)
  {
    var methods := ["POST", "OPTIONS"] + (if cfg.enableSse then ["GET"] else []);
    assert Join(methods, ", ") == "POST" + ", " + "OPTIONS" + (if cfg.enableSse then ", " + "GET" else "") by {
      assert methods[1..][1..] == if cfg.enableSse then ["GET"] else [];
      if cfg.enableSse {
        assert Join(methods[1..], ", ") == "OPTIONS" + ", " + "GET";
      } else {
        assert Join(methods[1..], ", ") == "OPTIONS";
      }
    }
    PreflightAnswer(OriginToHeader(o), Join(methods, ", "), Join(cfg.allowedHeaders, ", "),
                    Join(cfg.exposedHeaders, ", "), Join(Dedup(PreflightVaryNames), ", "),
                    if cfg.allowCredentials then Some("true") else None,
                    if cfg.corsMaxAge > 0 then Some(IntToString(cfg.corsMaxAge)) else None)
  }

  /** The preflight varies on `Origin` and both `Access-Control-Request-*` headers, each once, in that order. */
  lemma PreflightVary(cfg: CorsConfig, o: OriginSpec)
    ensures PreflightHeaders(cfg, o).vary == Join(["Origin", "Access-Control-Request-Method", "Access-Control-Request-Headers"], ", ")
  {
    var a, b, c := PreflightVaryNames[0], PreflightVaryNames[1], PreflightVaryNames[2];
    StripTrimmed(a);
    StripTrimmed(b);
    StripTrimmed(c);
    assert PreflightVaryNames == [a, b, c];
    VaryOfThree(a, b, c);
  }

  /** Some comma-separated token of the Vary value is `Origin`, ignoring case and spaces. */
  predicate VaryHasOrigin(vary: string)
  {
    exists t :: t in Split(vary, ',') && Lower(Strip(t)) == "origin"
  }

  /** The trimmed comma-separated tokens of a header value. */
  function Tokens(value: string): seq<string>
  {
    var parts := Split(value, ',');
    seq(|parts|, i requires 0 <= i < |parts| => Strip(parts[i]))
  }

  /** The headers `_apply_cors_headers` may write. */
  const CorsHeaderNames: set<string> :=
    {"Access-Control-Allow-Origin", "Vary", "Access-Control-Allow-Credentials", "Access-Control-Expose-Headers"}

  /** A Vary value with `Origin` merged in by `_build_vary`, unless some trimmed token already is `Origin`. */
  function MergedVary(vary: string): string
  {
    if "Origin" in Tokens(vary) then vary else Join(Dedup([vary, "Origin"]), ", ")
  }

  /** The header map `_apply_cors_headers` leaves. */
  function CorsHeaders(headers: map<string, string>, o: OriginSpec, cfg: CorsConfig): map<string, string>
  {
    var h := headers["Access-Control-Allow-Origin" := OriginToHeader(o)];
    var h := if "Vary" in h then h else h["Vary" := "Origin"];
    var h := h["Vary" := MergedVary(h["Vary"])];
    var h := if cfg.allowCredentials then h["Access-Control-Allow-Credentials" := "true"] else h;
    h["Access-Control-Expose-Headers" := Join(cfg.exposedHeaders, ", ")]
  }

  /** `_apply_cors_headers(response, origin)`, updating the response's headers in place. */
  method ApplyCorsHeaders(response: Responses.Response, o: OriginSpec, cfg: CorsConfig)
    modifies response
    ensures response.headers == CorsHeaders(old(response.headers), o, cfg)
    ensures response.status == old(response.status)
  {
    response.Set("Access-Control-Allow-Origin", OriginToHeader(o));
    response.SetDefault("Vary", "Origin");
    var vary := response.headers["Vary"];
    ghost var before := response.headers;
    if "Origin" !in Tokens(vary) {
      var merged := BuildVary([vary, "Origin"]);
      response.Set("Vary", merged);
    } else {
      assert before == before["Vary" := MergedVary(vary)];
    }
    assert response.headers == before["Vary" := MergedVary(vary)];
    if cfg.allowCredentials {
      response.Set("Access-Control-Allow-Credentials", "true");
    }
    response.Set("Access-Control-Expose-Headers", Join(cfg.exposedHeaders, ", "));
  }

  /** `_build_vary([vary, name])` keeps the trimmed value, then the name unless the value already spells it. */
  lemma DedupPair(vary: string, name: string)
    requires name != "" && Strip(name) == name
    ensures var s := Strip(vary);
      Dedup([vary, name]) == if s == "" then [name] else if Lower(s) == Lower(name) then [s] else [s, name]
  {
    var s := Strip(vary);
    var front := Dedup([vary]);
    assert front == (if s != "" then [s] else []) by {
      assert [vary][..0] == [];
      assert Dedup([]) == [];
      assert !SeenFold([], s);
    }
    assert Dedup([vary, name]) == (if !SeenFold(front, name) then front + [name] else front) by {
      assert [vary, name][..1] == [vary];
    }
    if s != "" {
      assert SeenFold([s], name) <==> Lower(s) == Lower(name) by {
        assert forall v :: v in [s] <==> v == s;
      }
    } else {
      assert !SeenFold([], name);
    }
  }

  /** A trimmed value spelling the name ignoring case has no comma and is its own one token. */
  lemma SameSpellingToken(s: string, vary: string, name: string)
    requires s == Strip(vary) && s != "" && Lower(s) == Lower(name) && ',' !in name
    ensures exists t :: t in Split(s, ',') && Lower(Strip(t)) == Lower(name)
  {
    LowerAt(s);
    LowerAt(name);
    forall i | 0 <= i < |s|
      ensures s[i] != ','
    {
      assert name[i] in name;
      assert LowerChar(s[i]) == LowerChar(name[i]) != ',';
    }
    SplitNoSep(s, ',');
    StripIdempotent(vary);
    assert s in Split(s, ',');
  }

  /** Joining a value and a trimmed comma-free name leaves the name as the last token. */
  lemma AppendedNameToken(s: string, name: string)
    requires name != "" && Strip(name) == name && ',' !in name
    ensures exists t :: t in Split(Join([s, name], ", "), ',') && Lower(Strip(t)) == Lower(name)
  {
    var tail := " " + name;
    var joined := s + [','] + tail;
    assert Join([s, name], ", ") == joined by {
      assert [s, name][1..] == [name];
      assert s + ", " + name == s + [','] + tail;
    }
    SplitAppendSep(s, ',', tail);
    assert ',' !in tail;
    SplitNoSep(tail, ',');
    assert tail in Split(joined, ',') by {
      assert Split(joined, ',')[|Split(s, ',')|] == tail;
    }
    StripSpaced(name);
  }

  /** Merging a trimmed comma-free name into a Vary value leaves a token with that name's lower-case form. */
  lemma MergedVaryHasName(vary: string, name: string)
    requires name != "" && Strip(name) == name && ',' !in name
    ensures exists t :: t in Split(Join(Dedup([vary, name]), ", "), ',') && Lower(Strip(t)) == Lower(name)
  {
    var s := Strip(vary);
    DedupPair(vary, name);
    if s == "" {
      assert Join([name], ", ") == name;
      SplitNoSep(name, ',');
      assert name in Split(name, ',');
    } else if Lower(s) == Lower(name) {
      assert Join([s], ", ") == s;
      SameSpellingToken(s, vary, name);
    } else {
      AppendedNameToken(s, name);
    }
  }

  /**
   * After `_apply_cors_headers`: Allow-Origin is the serialised origin,
   * Expose-Headers is the configured list, Allow-Credentials is set when
   * configured, a Vary header is present, no header is removed and every
   * header the method does not write keeps its value.
   */
  lemma CorsHeadersProps(headers: map<string, string>, o: OriginSpec, cfg: CorsConfig)
    ensures var h := CorsHeaders(headers, o, cfg);
      && h["Access-Control-Allow-Origin"] == OriginToHeader(o)
      && h["Access-Control-Expose-Headers"] == Join(cfg.exposedHeaders, ", ")
      && (cfg.allowCredentials ==> h["Access-Control-Allow-Credentials"] == "true")
      && "Vary" in h
      && headers.Keys <= h.Keys
      && (forall k :: (k in headers && k !in CorsHeaderNames) ==> h[k] == headers[k])
  {
  }

  /** Merging always leaves some Vary token that is `Origin`, ignoring case and spaces. */
  lemma MergedVaryHasOrigin(vary: string)
    ensures VaryHasOrigin(MergedVary(vary))
  {
    assert Lower("Origin") == "origin";
    if "Origin" in Tokens(vary) {
      var parts := Split(vary, ',');
      var i :| 0 <= i < |parts| && Strip(parts[i]) == "Origin";
      assert parts[i] in parts;
    } else {
      StripTrimmed("Origin");
      MergedVaryHasName(vary, "Origin");
    }
  }

  /** After `_apply_cors_headers` some Vary token is `Origin`, whatever Vary held before. */
  lemma CorsVaryHasOrigin(headers: map<string, string>, o: OriginSpec, cfg: CorsConfig)
    ensures VaryHasOrigin(CorsHeaders(headers, o, cfg)["Vary"])
  {
    var h1 := headers["Access-Control-Allow-Origin" := OriginToHeader(o)];
    var h2 := if "Vary" in h1 then h1 else h1["Vary" := "Origin"];
    MergedVaryHasOrigin(h2["Vary"]);
  }

  // ---- dispatch ----

  /** What `_normalize_origin` makes of a raw `Origin` value: a spec, or the message of its ValueError. */
  datatype ParsedOrigin = Parsed(origin: OriginSpec) | Unparseable(message: string)

  /** The allowlist: the configured origins, then the development ones. */
  function AllowedOrigins(cfg: CorsConfig): seq<OriginSpec>
  {
    cfg.allowedOrigins + DevLocalhostAllowlist(cfg.devAllowLocalhost)
  }

  /** `_origin_allowed(origin)`: some allowed spec matches. */
  predicate OriginAllowed(cfg: CorsConfig, matches: (OriginSpec, OriginSpec) -> bool, o: OriginSpec)
  {
    exists a :: a in AllowedOrigins(cfg) && matches(a, o)
  }

  /** What `dispatch` does with a request. */
  datatype Outcome =
    | PassThrough                              // no Origin: no CORS headers at all
    | Denied(response: ErrorResponse)          // 403 origin_denied
    | Preflight(status: int, headers: PreflightAnswer)
    | WithCors(origin: OriginSpec)             // handed on; `ApplyCorsHeaders` runs on its response

  /** `OriginCorsMiddleware.dispatch`. */
  function Dispatch(cfg: CorsConfig, verb: string, path: string, originHeader: Option<string>,
                    parse: string -> ParsedOrigin, matches: (OriginSpec, OriginSpec) -> bool,
                    requestId: string): Outcome
  {
    if originHeader.None? || originHeader.value == "" then PassThrough
    else
      match parse(originHeader.value)
      case Unparseable(message) => Denied(ErrorResponseOf(403, "origin_denied", message, None, requestId))
      case Parsed(o) =>
        if !OriginAllowed(cfg, matches, o) then
          Denied(ErrorResponseOf(403, "origin_denied", "Origin not allowed", None, requestId))
        else if Upper(verb) == "OPTIONS" && path in {cfg.path, "/mcp-sse"} then
          Preflight(204, PreflightHeaders(cfg, o))
        else WithCors(o)
  }

  /**
   * Deny by default: without an Origin header the request passes with no
   * CORS headers; with one it is refused with 403 `origin_denied` exactly
   * when the origin does not parse or matches no allowed spec; only an
   * allowed OPTIONS to the MCP path or `/mcp-sse` is answered as a preflight.
   */
  lemma DispatchCases(cfg: CorsConfig, verb: string, path: string, originHeader: Option<string>,
                      parse: string -> ParsedOrigin, matches: (OriginSpec, OriginSpec) -> bool, requestId: string)
    ensures var r := Dispatch(cfg, verb, path, originHeader, parse, matches, requestId);
      && (r == PassThrough <==> originHeader.None? || originHeader.value == "")
      && (r.Denied? <==> (originHeader.Some? && originHeader.value != "" &&
                           (parse(originHeader.value).Unparseable? || !OriginAllowed(cfg, matches, parse(originHeader.value).origin))))
      && (r.Denied? ==> r.response.status == 403 && r.response.body["error"] == "origin_denied")
      && (r.Preflight? ==> r.status == 204 && Upper(verb) == "OPTIONS" && (path == cfg.path || path == "/mcp-sse"))
      && (r.WithCors? ==> parse(originHeader.value) == Parsed(r.origin) && OriginAllowed(cfg, matches, r.origin))
  {
  }
}
