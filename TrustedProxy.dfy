/**
 * `is_https_request`: whether a request reached the server over HTTPS,
 * either directly or, when proxy headers are trusted and the peer is one
 * of the trusted proxies, as the `Forwarded` (RFC 7239) or
 * `X-Forwarded-Proto` header reports it.
 *
 * The standard library's `ipaddress` module is a parameter: `validIp`
 * says whether `ip_address` accepts the peer address (it raises
 * `ValueError` otherwise) and `contains(ip, cidr)` is
 * `ip_address(ip) in ip_network(cidr, strict=False)`, or the `ValueError`
 * that parsing the network raises.
 */
module TrustedProxy {
  import opened Wrappers
  import opened Py
  import opened Text
  import opened Lists

  /** What the decision reads from a request: the URL scheme, the peer's host and the two proxy headers. */
  datatype HttpRequest = HttpRequest(scheme: string, clientIp: Option<string>,
                                     forwarded: Option<string>, xForwardedProto: Option<string>)

  /** The configuration fields the decision reads. */
  datatype ProxyConfig = ProxyConfig(trustProxyHeaders: bool, trustedProxies: seq<string>)

  /** The address facts `ipaddress` supplies. */
  datatype IpLib = IpLib(validIp: string -> bool, contains: (string, string) -> Result<bool>)

  /** The search of `_ip_in_trusted` past the address parse: the first network that holds the address, or the first that raises. */
  function TrustedSearch(ip: string, cidrs: seq<string>, lib: IpLib): (r: Result<bool>)
  {
    if cidrs == [] then Ok(false)
    else
      match lib.contains(ip, cidrs[0])
      case Err(e) => Err(e)
      case Ok(inside) => if inside then Ok(true) else TrustedSearch(ip, cidrs[1..], lib)
  }

  /** `_ip_in_trusted(ip, trusted_cidrs)`: the address is parsed before any network is looked at. */
  function IpInTrusted(ip: string, cidrs: seq<string>, lib: IpLib): (r: Result<bool>)
    ensures !lib.validIp(ip) ==> r.Err?
    ensures r == Ok(true) ==> exists i :: 0 <= i < |cidrs| && lib.contains(ip, cidrs[i]) == Ok(true)
  {
    if !lib.validIp(ip) then Err(ValueErr("invalid IP address"))
    else
      TrustedSearchFound(ip, cidrs, lib);
      TrustedSearch(ip, cidrs, lib)
  }

  /** A search that answers true has met a network holding the address. */
  lemma {:induction false} TrustedSearchFound(ip: string, cidrs: seq<string>, lib: IpLib)
    ensures TrustedSearch(ip, cidrs, lib) == Ok(true) ==>
              exists i :: 0 <= i < |cidrs| && lib.contains(ip, cidrs[i]) == Ok(true)
  {
    if cidrs != [] && lib.contains(ip, cidrs[0]) == Ok(false) {
      TrustedSearchFound(ip, cidrs[1..], lib);
      if TrustedSearch(ip, cidrs[1..], lib) == Ok(true) {
        var i :| 0 <= i < |cidrs[1..]| && lib.contains(ip, cidrs[1..][i]) == Ok(true);
        assert cidrs[i + 1] == cidrs[1..][i];
      }
    }
  }

  /**
   * When every network parses, the search answers exactly whether some
   * network holds the address: the order of the list only decides which
   * network is found first.
   */
  lemma {:induction false} TrustedSearchIsAny(ip: string, cidrs: seq<string>, lib: IpLib)
    requires forall i :: 0 <= i < |cidrs| ==> lib.contains(ip, cidrs[i]).Ok?
    ensures TrustedSearch(ip, cidrs, lib) ==
            Ok(exists i :: 0 <= i < |cidrs| && lib.contains(ip, cidrs[i]) == Ok(true))
  {
    if cidrs != [] {
      var rest := cidrs[1..];
      assert forall i :: 0 <= i < |rest| ==> rest[i] == cidrs[i + 1];
      TrustedSearchIsAny(ip, rest, lib);
      if lib.contains(ip, cidrs[0]) == Ok(false) {
        if exists i :: 0 <= i < |cidrs| && lib.contains(ip, cidrs[i]) == Ok(true) {
          var i :| 0 <= i < |cidrs| && lib.contains(ip, cidrs[i]) == Ok(true);
          assert i > 0 && rest[i - 1] == cidrs[i];
        }
      }
    }
  }

  /** Some `;`-separated part of a `Forwarded` value, trimmed and lower-cased, is `proto=https`. */
  predicate ForwardedSaysHttps(forwarded: string)
  {
    Any(Split(forwarded, ';'), (part: string) => Lower(Strip(part)) == "proto=https")
  }

  /** The first comma-separated value of `X-Forwarded-Proto`, trimmed and lower-cased, is `https`. */
  predicate ForwardedProtoSaysHttps(xfp: string)
  {
    Lower(Strip(Split(xfp, ',')[0])) == "https"
  }

  /** A header that is present and not empty (Python's truthiness of `headers.get(...)`). */
  predicate Present(header: Option<string>)
  {
    header.Some? && header.value != ""
  }

  /** `is_https_request(request, cfg)`; an address that does not parse raises. */
  function IsHttpsRequest(req: HttpRequest, cfg: ProxyConfig, lib: IpLib): Result<bool>
  {
    if Lower(req.scheme) == "https" then Ok(true)
    else if !cfg.trustProxyHeaders then Ok(false)
    else if !Present(req.clientIp) then Ok(false)
    else
      match IpInTrusted(req.clientIp.value, cfg.trustedProxies, lib)
      case Err(e) => Err(e)
      case Ok(trusted) =>
        if !trusted then Ok(false)
        else if Present(req.forwarded) && ForwardedSaysHttps(req.forwarded.value) then Ok(true)
        else if Present(req.xForwardedProto) && ForwardedProtoSaysHttps(req.xForwardedProto.value) then Ok(true)
        else Ok(false)
  }

  /** The peer is a trusted proxy: proxy headers are trusted, its address is known and some trusted network holds it. */
  predicate FromTrustedProxy(req: HttpRequest, cfg: ProxyConfig, lib: IpLib)
  {
    cfg.trustProxyHeaders && Present(req.clientIp) &&
    IpInTrusted(req.clientIp.value, cfg.trustedProxies, lib) == Ok(true)
  }

  /**
   * The request counts as HTTPS exactly when its own scheme is `https`
   * (in any case), or it came from a trusted proxy whose `Forwarded` or
   * `X-Forwarded-Proto` header says so; it raises only when the scheme is
   * not HTTPS, proxy headers are trusted and the peer address or a network
   * does not parse.
   */
  lemma HttpsCases(req: HttpRequest, cfg: ProxyConfig, lib: IpLib)
    ensures var r := IsHttpsRequest(req, cfg, lib);
      && (r == Ok(true) <==>
            (|| Lower(req.scheme) == "https"
             || (&& FromTrustedProxy(req, cfg, lib)
                 && (|| (Present(req.forwarded) && ForwardedSaysHttps(req.forwarded.value))
                     || (Present(req.xForwardedProto) && ForwardedProtoSaysHttps(req.xForwardedProto.value))))))
      && (r.Err? <==>
            (&& Lower(req.scheme) != "https" && cfg.trustProxyHeaders && Present(req.clientIp)
             && IpInTrusted(req.clientIp.value, cfg.trustedProxies, lib).Err?))
  {
  }

  /**
   * Spoofed proxy headers are ignored: unless the peer is a trusted proxy,
   * the answer is the same with the `Forwarded` and `X-Forwarded-Proto`
   * headers removed, so only the request's own scheme decides.
   */
  lemma UntrustedHeadersIgnored(req: HttpRequest, cfg: ProxyConfig, lib: IpLib)
    requires !FromTrustedProxy(req, cfg, lib)
    ensures IsHttpsRequest(req, cfg, lib) ==
            IsHttpsRequest(req.(forwarded := None, xForwardedProto := None), cfg, lib)
    ensures IsHttpsRequest(req, cfg, lib).Ok? ==> IsHttpsRequest(req, cfg, lib) == Ok(Lower(req.scheme) == "https")
  {
  }

  /** A direct HTTPS request is HTTPS whatever the configuration and headers. */
  lemma DirectHttps(req: HttpRequest, cfg: ProxyConfig, lib: IpLib)
    requires Lower(req.scheme) == "https"
    ensures IsHttpsRequest(req, cfg, lib) == Ok(true)
  {
  }

  /** A `proto=https` part, in any case and spacing, counts wherever it stands among the `;` parts of `Forwarded`. */
  lemma {:induction false} ForwardedPartAnywhere(before: string, part: string, after: string)
    requires ';' !in part && Lower(Strip(part)) == "proto=https"
    ensures ForwardedSaysHttps(before + ";" + part + ";" + after)
  {
    var s := before + ";" + part + ";" + after;
    assert s == before + [';'] + (part + [';'] + after);
    SplitAppendSep(before, ';', part + [';'] + after);
    SplitAppendSep(part, ';', after);
    SplitNoSep(part, ';');
    var parts := Split(s, ';');
    assert parts[|Split(before, ';')|] == part;
  }

  /** Only the first `X-Forwarded-Proto` value counts: what follows its first comma is never read. */
  lemma {:induction false} FirstForwardedProtoOnly(first: string, rest: string)
    requires ',' !in first
    ensures ForwardedProtoSaysHttps(first + "," + rest) == ForwardedProtoSaysHttps(first)
  {
    assert first + "," + rest == first + [','] + rest;
    SplitAppendSep(first, ',', rest);
    SplitNoSep(first, ',');
  }
}
