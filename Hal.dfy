/**
 * The JSON HAL conventions (draft-kelly-json-hal, sections 4.1.1 and 4.1.2):
 * links under `_links`, embedded resources under `_embedded`, ids taken from
 * the last segment of a resource href.
 */
module Hal {
  import opened Wrappers
  import opened Text
  import opened Py

  predicate IsSlash(c: char) { c == '/' }

  /**
   * `get_link`: `None` for a payload without `_links`, else
   * `_links.get(rel)`; a `_links` value that is not a dict raises.
   */
  function GetLink(payload: map<string, Json>, rel: string): (r: Result<Json>)
    ensures "_links" !in payload ==> r == Ok(JNull)
    ensures "_links" in payload ==> (r.Ok? <==> payload["_links"].JDict?)
    ensures "_links" in payload && payload["_links"].JDict? ==>
              (rel in payload["_links"].fields ==> r == Ok(payload["_links"].fields[rel])) &&
              (rel !in payload["_links"].fields ==> r == Ok(JNull))
  {
    if |payload| == 0 || "_links" !in payload then Ok(JNull)
    else Get(payload["_links"], rel, JNull)
  }

  /** `link.get(attr) if link else None` on the link of `rel`. */
  function LinkAttr(payload: map<string, Json>, rel: string, attr: string): Result<Json>
  {
    var link :- GetLink(payload, rel);
    if Truthy(link) then Get(link, attr, JNull) else Ok(JNull)
  }

  /** `get_link_href`. */
  function GetLinkHref(payload: map<string, Json>, rel: string): Result<Json>
  {
    LinkAttr(payload, rel, "href")
  }

  /** `get_link_title`. */
  function GetLinkTitle(payload: map<string, Json>, rel: string): Result<Json>
  {
    LinkAttr(payload, rel, "title")
  }

  /** `get_embedded`: `None` without `_embedded`, else `_embedded.get(rel)`. */
  function GetEmbedded(payload: map<string, Json>, rel: string): (r: Result<Json>)
    ensures "_embedded" !in payload ==> r == Ok(JNull)
    ensures "_embedded" in payload ==> (r.Ok? <==> payload["_embedded"].JDict?)
    ensures "_embedded" in payload && payload["_embedded"].JDict? ==>
              r == Ok(DictGet(payload["_embedded"].fields, rel, JNull))
  {
    if |payload| == 0 || "_embedded" !in payload then Ok(JNull)
    else Get(payload["_embedded"], rel, JNull)
  }

  /** The payload with `_links[rel]` set to the link object `link`. */
  function WithLink(payload: map<string, Json>, rel: string, link: map<string, Json>): map<string, Json>
    requires "_links" in payload ==> payload["_links"].JDict?
  {
    var links := if "_links" in payload then payload["_links"].fields else map[];
    payload["_links" := JDict(links[rel := JDict(link)])]
  }

  /** Reading back a link that was just put gives its href; other relations are unaffected. */
  lemma LinkPutGet(payload: map<string, Json>, rel: string, other: string, href: string, title: Json)
    requires "_links" in payload ==> payload["_links"].JDict?
    requires other != rel
    ensures GetLinkHref(WithLink(payload, rel, map["href" := JStr(href), "title" := title]), rel) == Ok(JStr(href))
    ensures GetLinkTitle(WithLink(payload, rel, map["href" := JStr(href), "title" := title]), rel) == Ok(title)
    ensures GetLink(WithLink(payload, rel, map["href" := JStr(href), "title" := title]), other) == GetLink(payload, other)
  {
  }

  /**
   * `parse_id_from_href`: `None` for `None` or "", else the last
   * '/'-segment of the href stripped of '/' at both ends, read as an integer
   * (`None` when it is not one).
   */
  function ParseIdFromHref(href: Option<string>): (r: Option<int>)
    ensures href == None || href == Some("") ==> r == None
  {
    match href
    case None => None
    case Some(h) =>
      if h == "" then None else ParseInt(LastSegmentOf(h))
  }

  /** An href whose last segment holds no digit, such as `/api/v3/users/me`, gives `None`. */
  lemma NonNumericSegmentNone(h: string)
    requires forall i :: 0 <= i < |LastSegmentOf(h)| ==> !IsDigit(LastSegmentOf(h)[i])
    ensures ParseIdFromHref(Some(h)) == None
  {
    ParseIntNeedsDigit(LastSegmentOf(h));
  }

  /**
   * `parse_id_from_href` on a JSON value: a falsy value gives `None`, a
   * string is parsed, and any other value raises (`.strip` on a non-string).
   */
  function HrefId(href: Json): (r: Result<Option<int>>)
    ensures !Truthy(href) ==> r == Ok(None)
    ensures r.Err? <==> Truthy(href) && !href.JStr?
  {
    if !Truthy(href) then Ok(None)
    else if href.JStr? then Ok(ParseIdFromHref(Some(href.s)))
    else Err(TypeErr)
  }

  /** `href.strip("/").split("/")[-1]`. */
  function LastSegmentOf(h: string): string
  {
    FinalSegment(StripSlashes(h))
  }

  /** `href.strip("/")`. */
  function StripSlashes(h: string): string
  {
    TrimEnd(TrimStart(h, IsSlash), IsSlash)
  }

  /** `s.split("/")[-1]`. */
  function FinalSegment(s: string): string
  {
    var segments := Split(s, '/');
    segments[|segments| - 1]
  }

  lemma {:induction false} TrimStartAppend(a: string, d: string, drop: char -> bool)
    requires |d| > 0 && !drop(d[0])
    ensures TrimStart(a + d, drop) == TrimStart(a, drop) + d
  {
    if |a| > 0 && drop(a[0]) {
      assert (a + d)[1..] == a[1..] + d;
      TrimStartAppend(a[1..], d, drop);
    } else if |a| == 0 {
      assert a + d == d;
    }
  }

  /** The last segment of `u + digits` where `u` is empty or ends in '/'. */
  lemma LastSegment(u: string, digits: string)
    requires u == [] || u[|u| - 1] == '/'
    requires '/' !in digits
    ensures FinalSegment(u + digits) == digits
  {
    SplitNoSep(digits, '/');
    if u == [] {
      assert u + digits == digits;
    } else {
      var u' := u[..|u| - 1];
      assert u + digits == u' + ['/'] + digits;
      SplitAppendSep(u', '/', digits);
    }
  }

  lemma DigitsHaveNoSlash(s: string)
    requires AllDigits(s)
    ensures '/' !in s
  {
  }

  lemma TrimEndKeepsDigitEnd(v: string, d: string)
    requires IsDigits(d)
    ensures TrimEnd(v + d, IsSlash) == v + d
  {
    assert (v + d)[|v + d| - 1] == d[|d| - 1];
  }

  lemma TrimEndOneSlash(v: string, d: string)
    requires IsDigits(d)
    ensures TrimEnd(v + d + "/", IsSlash) == v + d
  {
    assert (v + d + "/")[..|v + d|] == v + d;
    TrimEndKeepsDigitEnd(v, d);
  }

  lemma TrimStartAfterSlash(prefix: string, x: string)
    requires |x| > 0 && x[0] != '/'
    ensures TrimStart(prefix + "/" + x, IsSlash) == TrimStart(prefix + "/", IsSlash) + x
  {
    assert prefix + "/" + x == (prefix + "/") + x;
    TrimStartAppend(prefix + "/", x, IsSlash);
  }

  lemma TrimStartEndsInSlash(prefix: string)
    ensures var u := TrimStart(prefix + "/", IsSlash); u == [] || u[|u| - 1] == '/'
  {
    TrimStartSuffix(prefix + "/", IsSlash);
  }

  /** Stripping '/' from `prefix/digits` leaves `u + digits`, `u` empty or ending in '/'. */
  lemma StripNoTail(prefix: string, d: string)
    requires IsDigits(d)
    ensures TrimEnd(TrimStart(prefix + "/" + d, IsSlash), IsSlash) == TrimStart(prefix + "/", IsSlash) + d
  {
    TrimStartAfterSlash(prefix, d);
    TrimEndKeepsDigitEnd(TrimStart(prefix + "/", IsSlash), d);
  }

  /** The same for `prefix/digits/`. */
  lemma StripTail(prefix: string, d: string)
    requires IsDigits(d)
    ensures TrimEnd(TrimStart(prefix + "/" + d + "/", IsSlash), IsSlash) == TrimStart(prefix + "/", IsSlash) + d
  {
    var u := TrimStart(prefix + "/", IsSlash);
    assert TrimStart(prefix + "/" + d + "/", IsSlash) == u + d + "/" by {
      assert prefix + "/" + d + "/" == prefix + "/" + (d + "/");
      TrimStartAfterSlash(prefix, d + "/");
      assert u + (d + "/") == u + d + "/";
    }
    TrimEndOneSlash(u, d);
  }

  /** Round trip: an href ending in the decimal form of `n` yields `n`. */
  lemma HrefRoundTrip(prefix: string, n: nat)
    ensures ParseIdFromHref(Some(prefix + "/" + NatToString(n))) == Some(n)
  {
    var d := NatToString(n);
    var h := prefix + "/" + d;
    var u := TrimStart(prefix + "/", IsSlash);
    assert StripSlashes(h) == u + d by { StripNoTail(prefix, d); }
    TrimStartEndsInSlash(prefix);
    DigitsHaveNoSlash(d);
    LastSegment(u, d);
    assert ParseInt(d) == Some(n) by { ParseIntOfNat(n); }
  }

  /** The same with a trailing '/'. */
  lemma HrefRoundTripTrailingSlash(prefix: string, n: nat)
    ensures ParseIdFromHref(Some(prefix + "/" + NatToString(n) + "/")) == Some(n)
  {
    var d := NatToString(n);
    var h := prefix + "/" + d + "/";
    var u := TrimStart(prefix + "/", IsSlash);
    assert StripSlashes(h) == u + d by { StripTail(prefix, d); }
    TrimStartEndsInSlash(prefix);
    DigitsHaveNoSlash(d);
    LastSegment(u, d);
    assert ParseInt(d) == Some(n) by { ParseIntOfNat(n); }
  }

  /**
   * `resolve_property`: a root key that is present wins whatever its value;
   * otherwise a truthy link title; otherwise the embedded resource or `None`.
   */
  function ResolveProperty(payload: map<string, Json>, name: string): (r: Result<Json>)
    ensures name in payload ==> r == Ok(payload[name])
    ensures name !in payload && "_links" in payload && payload["_links"].JDict?
            && name in payload["_links"].fields && payload["_links"].fields[name].JDict?
            && "title" in payload["_links"].fields[name].fields
            && Truthy(payload["_links"].fields[name].fields["title"])
            ==> r == Ok(payload["_links"].fields[name].fields["title"])
    ensures name !in payload && "_links" !in payload && "_embedded" !in payload ==> r == Ok(JNull)
    ensures name !in payload && "_links" !in payload && "_embedded" in payload && payload["_embedded"].JDict?
            ==> r == Ok(DictGet(payload["_embedded"].fields, name, JNull))
  {
    if name in payload then Ok(payload[name])
    else
      var title :- GetLinkTitle(payload, name);
      if Truthy(title) then Ok(title) else GetEmbedded(payload, name)
  }
}
