/**
 * The Accept screen of the HTTP transport (section 12.5.1 of RFC 9110,
 * reduced to what a JSON-first server with SSE disabled needs): `GET /mcp`
 * is refused with 405, a request that accepts the event stream but not JSON
 * with 406, and everything else is handed on.
 */
module AcceptMiddleware {
  import opened Wrappers
  import opened Text
  import opened Lists

  /** A comma part trimmed and cut at its first `;`, so its parameters (q-values included) are gone. */
  function MediaRange(part: string): string
  {
    var m := Strip(part);
    if ';' in m then Strip(Split(m, ';')[0]) else m
  }

  /** The ranges that make JSON acceptable: the two wildcards, `application/json` and the `application` wildcard. */
  predicate SetsJson(part: string)
  {
    MediaRange(part) in {"*", "*/*", "application/json", "application/*"}
  }

  /** The ranges that make the event stream acceptable: the wildcards and `text/event-stream`. */
  predicate SetsSse(part: string)
  {
    MediaRange(part) in {"*", "*/*", "text/event-stream"}
  }

  /** A missing or blank header. */
  predicate Blank(header: Option<string>)
  {
    header.None? || Strip(header.value) == ""
  }

  /**
   * The flags `(has_json, has_sse)` of a header: JSON only when the header
   * is missing or blank, otherwise whether some comma part names each.
   */
  function Flags(header: Option<string>): (bool, bool)
  {
    if Blank(header) then (true, false)
    else
      var parts := Split(header.value, ',');
      (Any(parts, SetsJson), Any(parts, SetsSse))
  }

  /**
   * `_parse_accept(header_value)`: the scan over the comma parts, skipping
   * empty ones, dropping parameters and raising the flags it matches.
   */
  method ParseAccept(header: Option<string>) returns (hasJson: bool, hasSse: bool)
    ensures (hasJson, hasSse) == Flags(header)
    ensures Blank(header) ==> hasJson && !hasSse
  {
    if header.None? || Strip(header.value) == "" {
      return true, false;
    }
    hasJson, hasSse := false, false;
    var parts := Split(header.value, ',');
    var i := 0;
    while i < |parts|
      invariant 0 <= i <= |parts|
      invariant hasJson == Any(parts[..i], SetsJson)
      invariant hasSse == Any(parts[..i], SetsSse)
    {
      AnySnocAt(parts, i, SetsJson);
      AnySnocAt(parts, i, SetsSse);
      var mediaRange := Strip(parts[i]);
      if mediaRange != "" {
        if ';' in mediaRange {
          mediaRange := Strip(Split(mediaRange, ';')[0]);
        }
        if mediaRange == "*" || mediaRange == "*/*" {
          hasJson, hasSse := true, true;
        } else if mediaRange == "application/json" || mediaRange == "application/*" {
          hasJson := true;
        } else if mediaRange == "text/event-stream" {
          hasSse := true;
        }
      }
      i := i + 1;
    }
    assert parts[..i] == parts;
  }

  /**
   * Parameters are ignored: a range followed by `;` and anything at all
   * (`q=0` included) matches exactly as the bare range does.
   */
  lemma ParametersIgnored(range: string, params: string)
    requires ';' !in range
    ensures MediaRange(range + ";" + params) == MediaRange(range)
  {
    var t := TrimStart(range, IsSpace);
    TrimStartAppend(range, ";" + params, IsSpace);
    assert range + ";" + params == range + (";" + params);
    assert TrimStart(range + ";" + params, IsSpace) == t + ";" + params;
    TrimStartSuffix(range, IsSpace);
    assert ';' !in t;
    TrimEndAppend(t + ";", params, IsSpace);
    var m := Strip(range + ";" + params);
    assert m == t + ";" + TrimEnd(params, IsSpace);
    assert ';' in m by { assert m[|t|] == ';'; }
    SplitNoSep(t, ';');
    SplitAppendSep(t, ';', TrimEnd(params, IsSpace));
    assert Split(m, ';')[0] == t;
    TrimStartIdempotent(range, IsSpace);
    StripKeepsChar(range, ';');
  }

  /** Adding media ranges to a non-blank header never clears a flag. */
  lemma MoreRangesKeepFlags(header: string, extra: string)
    requires !Blank(Some(header))
    ensures var before := Flags(Some(header));
            var after := Flags(Some(header + "," + extra));
      (before.0 ==> after.0) && (before.1 ==> after.1)
  {
    StripEmptyIffAllSpace(header);
    var k :| 0 <= k < |header| && !IsSpace(header[k]);
    var longer := header + "," + extra;
    assert longer[k] == header[k];
    StripEmptyIffAllSpace(longer);
    assert longer == header + [','] + extra;
    SplitAppendSep(header, ',', extra);
    var parts := Split(header, ',');
    var all := Split(longer, ',');
    assert forall i :: 0 <= i < |parts| ==> all[i] == parts[i];
  }

  /** What the middleware sends back when it refuses a request. */
  datatype Refusal = Refusal(status: int, error: string, message: string, requestId: string,
                             headers: map<string, string>)

  /** Pass the request on, or refuse it. */
  datatype Decision = Pass | Refuse(refusal: Refusal)

  /** `X-Request-Id` is sent only when there is a request id. */
  function RequestIdHeader(requestId: string): (h: map<string, string>)
    ensures "X-Request-Id" in h <==> requestId != ""
    ensures h.Keys <= {"X-Request-Id"}
    ensures requestId != "" ==> h["X-Request-Id"] == requestId
  {
    if requestId != "" then map["X-Request-Id" := requestId] else map[]
  }

  /** `AcceptMiddleware.dispatch`. */
  function Decide(verb: string, path: string, accept: Option<string>, requestId: string): Decision
  {
    if Upper(verb) == "GET" && path == "/mcp" then
      Refuse(Refusal(405, "method_not_allowed", "SSE is disabled; GET /mcp not supported.",
                     requestId, RequestIdHeader(requestId)))
    else
      var (hasJson, hasSse) := Flags(accept);
      if !hasJson && hasSse then
        Refuse(Refusal(406, "not_acceptable", "SSE is disabled; use Accept: application/json.",
                       requestId, RequestIdHeader(requestId)))
      else Pass
  }

  /**
   * `GET /mcp` gets 405 whatever it accepts; otherwise 406 exactly when the
   * event stream is acceptable and JSON is not; every other request passes.
   */
  lemma DecisionCases(verb: string, path: string, accept: Option<string>, requestId: string)
    ensures var d := Decide(verb, path, accept, requestId);
            var getMcp := Upper(verb) == "GET" && path == "/mcp";
      && (getMcp ==> d.Refuse? && d.refusal.status == 405)
      && (d.Refuse? && d.refusal.status == 406 <==> !getMcp && !Flags(accept).0 && Flags(accept).1)
      && (d == Pass <==> !getMcp && (Flags(accept).0 || !Flags(accept).1))
  {
  }

  /** A non-blank header none of whose parts names a known range passes: neither flag is raised. */
  lemma UnknownRangesPass(verb: string, path: string, header: string, requestId: string)
    requires !(Upper(verb) == "GET" && path == "/mcp") && !Blank(Some(header))
    requires forall part :: part in Split(header, ',') ==> !SetsJson(part) && !SetsSse(part)
    ensures Flags(Some(header)) == (false, false)
    ensures Decide(verb, path, Some(header), requestId) == Pass
  {
    var parts := Split(header, ',');
    assert forall i :: 0 <= i < |parts| ==> parts[i] in parts;
  }

  /** Only the event stream, with parameters or not, is refused with 406. */
  lemma EventStreamOnlyRefused(verb: string, path: string, params: string, requestId: string)
    requires !(Upper(verb) == "GET" && path == "/mcp")
    requires ',' !in params
    ensures Decide(verb, path, Some("text/event-stream;" + params), requestId).Refuse?
    ensures Decide(verb, path, Some("text/event-stream;" + params), requestId).refusal.status == 406
  {
    var h := "text/event-stream;" + params;
    assert MediaRange(h) == "text/event-stream" by {
      assert h == "text/event-stream" + ";" + params;
      ParametersIgnored("text/event-stream", params);
      StripTrimmed("text/event-stream");
    }
    assert !SetsJson(h) && SetsSse(h);
    assert Split(h, ',') == [h] by {
      assert ',' !in h;
      SplitNoSep(h, ',');
    }
    assert !Blank(Some(h)) by {
      assert h[0] == 't';
      StripEmptyIffAllSpace(h);
    }
    assert Flags(Some(h)) == (false, true) by {
      assert [h][0] == h;
    }
  }
}
