/**
 * The shared HTTP client: the retry loop of `request`, the classification
 * of a response body, the error built from a non-2xx response, the
 * constructor's argument checks and the single-attempt file upload.
 * The transport is an oracle: `outcome(k)` is what the k-th call returns.
 */
module Client {
  import opened Wrappers
  import opened Text
  import opened Py

  /** `RetryConfig`: extra attempts, the statuses worth retrying, and whether 429 is one. */
  datatype RetryConfig = RetryConfig(maxRetries: int, retryStatuses: set<int>, retryOn429: bool)

  /** The defaults: two extra attempts on 502, 503 and 504. */
  const DefaultRetry := RetryConfig(2, {502, 503, 504}, false)

  /**
   * A response: its status, the request URL, the body text (empty exactly
   * when the content is), and what `resp.json()` gives (`None` when it raises).
   */
  datatype Response = Response(status: int, url: string, text: string, json: Option<Json>)

  /**
   * One call of the transport: a response, one of the network errors that
   * are retried (ConnectError, ReadTimeout, ConnectTimeout), or any other
   * httpx error.
   */
  datatype Attempt = Answer(resp: Response) | NetworkError(detail: string) | OtherError(detail: string)

  predicate RetryableStatus(cfg: RetryConfig, status: int)
  {
    status in cfg.retryStatuses || (cfg.retryOn429 && status == 429)
  }

  /** Whether attempt number `k`, which returned `a`, is followed by another one. */
  predicate Retried(cfg: RetryConfig, a: Attempt, k: nat)
  {
    k < cfg.maxRetries && (a.NetworkError? || (a.Answer? && RetryableStatus(cfg, a.resp.status)))
  }

  function Pow2(k: nat): (r: nat)
    ensures r >= 1
  {
    if k == 0 then 1 else 2 * Pow2(k - 1)
  }

  /** The backoff multipliers of `backoff_base_seconds` before retries 1..n: 1, 2, 4, ... */
  function Backoffs(n: nat): (r: seq<nat>)
    ensures |r| == n
    ensures forall i :: 0 <= i < n ==> r[i] == Pow2(i)
  {
    if n == 0 then [] else Backoffs(n - 1) + [Pow2(n - 1)]
  }

  /** The Python type name of a JSON value, as `type(data).__name__` prints it. */
  function TypeName(j: Json): string
  {
    match j
    case JNull => "NoneType"
    case JBool(_) => "bool"
    case JInt(_) => "int"
    case JStr(_) => "str"
    case JList(_) => "list"
    case JDict(_) => "dict"
  }

  /** `_safe_json`: an empty body is `{}`, an object is returned, anything else raises. */
  function SafeJson(verb: string, resp: Response): (r: Result<map<string, Json>>)
    ensures resp.text == [] ==> r == Ok(map[])
    ensures resp.text != [] && resp.json.None? ==> r.Err? && r.error.ParseErr?
    ensures resp.text != [] && resp.json.Some? && !resp.json.value.JDict? ==> r.Err? && r.error.ParseErr?
    ensures r.Ok? && resp.text != [] ==> resp.json == Some(JDict(r.value))
    ensures resp.text != [] && resp.json.None? ==>
      var snippet := Repr(Take(resp.text, 500));
      |r.error.message| >= |snippet| && r.error.message[|r.error.message| - |snippet|..] == snippet
  {
    if resp.text == [] then Ok(map[])
    else match resp.json
      case None =>
        Err(ParseErr("Expected JSON from " + verb + " " + resp.url
                     + ", got non-JSON body snippet: " + Repr(Take(resp.text, 500))))
      case Some(JDict(d)) => Ok(d)
      case Some(other) =>
        Err(ParseErr("Expected top-level JSON object from " + verb + " " + resp.url
                     + ", got " + TypeName(other)))
  }

  /** A short non-JSON body of plain characters is quoted as is: a body `oops` ends the message with `'oops'`. */
  lemma SafeJsonQuotesPlainSnippet(verb: string, resp: Response)
    requires resp.text != [] && resp.json.None? && |resp.text| <= 500
    requires forall i :: 0 <= i < |resp.text| ==> ReprPlain(resp.text[i])
    ensures var m := SafeJson(verb, resp).error.message;
      |m| >= |resp.text| + 2 && m[|m| - |resp.text| - 2..] == "'" + resp.text + "'"
  {
    ReprOfPlain(resp.text);
  }

  /** Python's `a or b`. */
  function PyOr(a: Json, b: Json): Json
  {
    if Truthy(a) then a else b
  }

  /** `_to_http_error`: status, method and URL of the failed call, its JSON object or its text. */
  function ToHttpError(verb: string, resp: Response): (e: Error)
    ensures e.HttpErr? && e.status == resp.status && e.verb == verb && e.url == resp.url
    ensures e.responseText.Some? <==> resp.json.None?
    ensures resp.json.None? ==> e.responseText == Some(Take(resp.text, 500)) && |e.responseText.value| <= 500
    ensures e.responseJson.Some? <==> resp.json.Some? && resp.json.value.JDict?
    ensures e.responseJson.Some? ==> resp.json == Some(JDict(e.responseJson.value))
    ensures !Truthy(e.detail) ==> e.detail == JStr("request failed")
  {
    match resp.json
    case None => HttpErr(resp.status, verb, resp.url, JStr("request failed"), None, Some(Take(resp.text, 500)))
    case Some(JDict(d)) =>
      var message := PyOr(DictGet(d, "message", JNull), PyOr(DictGet(d, "error", JNull), JStr("request failed")));
      HttpErr(resp.status, verb, resp.url, message, Some(d), None)
    case Some(_) => HttpErr(resp.status, verb, resp.url, JStr("request failed"), None, None)
  }

  /** What a response that is not retried turns into: an HTTP error outside 2xx, else the JSON body. */
  function Finish(verb: string, resp: Response): Result<map<string, Json>>
  {
    if resp.status < 200 || resp.status >= 300 then Err(ToHttpError(verb, resp)) else SafeJson(verb, resp)
  }

  /** The result of an attempt that is not retried. */
  function Final(verb: string, url: string, a: Attempt): Result<map<string, Json>>
  {
    match a
    case Answer(resp) => Finish(verb, resp)
    case NetworkError(d) => Err(ClientErr("Network/timeout error calling " + verb + " " + url + ": " + d))
    case OtherError(d) => Err(ClientErr("HTTPX error calling " + verb + " " + url + ": " + d))
  }

  /** The retry loop from attempt `k` on: the number of the last attempt made, and its result. */
  function Run(cfg: RetryConfig, verb: string, url: string, outcome: nat -> Attempt, k: nat): (nat, Result<map<string, Json>>)
    decreases if k < cfg.maxRetries then cfg.maxRetries - k else 0
  {
    if Retried(cfg, outcome(k), k) then Run(cfg, verb, url, outcome, k + 1)
    else (k, Final(verb, url, outcome(k)))
  }

  /**
   * `request`: calls the transport until an attempt is not retried. Returns
   * the result, the number of calls made and the backoff multipliers slept.
   */
  method Request(cfg: RetryConfig, httpMethod: string, url: string, outcome: nat -> Attempt)
    returns (r: Result<map<string, Json>>, calls: nat, sleeps: seq<nat>)
    ensures calls >= 1 && (calls - 1, r) == Run(cfg, Upper(httpMethod), url, outcome, 0)
    ensures sleeps == Backoffs(calls - 1)
  {
    var verb := Upper(httpMethod);
    var attempt: nat := 0;
    sleeps := [];
    while true
      invariant sleeps == Backoffs(attempt)
      invariant Run(cfg, verb, url, outcome, attempt) == Run(cfg, verb, url, outcome, 0)
      decreases if attempt < cfg.maxRetries then cfg.maxRetries - attempt else 0
    {
      var a := outcome(attempt);
      if Retried(cfg, a, attempt) {
        sleeps := sleeps + [Pow2(attempt)];
        attempt := attempt + 1;
      } else {
        r := Final(verb, url, a);
        calls := attempt + 1;
        return;
      }
    }
  }

  /** Every attempt before the last one was retried, and the last was not. */
  lemma {:induction false} RunStopsAtFirstFinal(cfg: RetryConfig, verb: string, url: string, outcome: nat -> Attempt, k: nat)
    ensures var (last, r) := Run(cfg, verb, url, outcome, k);
      k <= last
      && (forall j :: k <= j < last ==> Retried(cfg, outcome(j), j))
      && !Retried(cfg, outcome(last), last)
      && r == Final(verb, url, outcome(last))
    decreases if k < cfg.maxRetries then cfg.maxRetries - k else 0
  {
    if Retried(cfg, outcome(k), k) {
      RunStopsAtFirstFinal(cfg, verb, url, outcome, k + 1);
    }
  }

  /** At most `max_retries + 1` calls are made. */
  lemma {:induction false} RunBounded(cfg: RetryConfig, verb: string, url: string, outcome: nat -> Attempt, k: nat)
    ensures Run(cfg, verb, url, outcome, k).0 <= if k < cfg.maxRetries then cfg.maxRetries else k
    decreases if k < cfg.maxRetries then cfg.maxRetries - k else 0
  {
    if Retried(cfg, outcome(k), k) {
      RunBounded(cfg, verb, url, outcome, k + 1);
    }
  }

  /** When the budget is spent on retryable statuses, the last one is raised as an HTTP error. */
  lemma ExhaustedStatusIsHttpError(cfg: RetryConfig, verb: string, url: string, outcome: nat -> Attempt)
    requires cfg.maxRetries >= 0
    requires forall j :: 0 <= j <= cfg.maxRetries ==> outcome(j).Answer? && RetryableStatus(cfg, outcome(j).resp.status)
    requires forall j :: 0 <= j <= cfg.maxRetries ==> !(200 <= outcome(j).resp.status < 300)
    ensures var (last, r) := Run(cfg, verb, url, outcome, 0);
      last == cfg.maxRetries && r.Err? && r.error.HttpErr? && r.error.status == outcome(last).resp.status
  {
    RunStopsAtFirstFinal(cfg, verb, url, outcome, 0);
    RunBounded(cfg, verb, url, outcome, 0);
  }

  /** When the budget is spent on network errors, a client error is raised. */
  lemma ExhaustedNetworkIsClientError(cfg: RetryConfig, verb: string, url: string, outcome: nat -> Attempt)
    requires cfg.maxRetries >= 0
    requires forall j :: 0 <= j <= cfg.maxRetries ==> outcome(j).NetworkError?
    ensures var (last, r) := Run(cfg, verb, url, outcome, 0);
      last == cfg.maxRetries && r.Err? && r.error.ClientErr?
  {
    RunStopsAtFirstFinal(cfg, verb, url, outcome, 0);
    RunBounded(cfg, verb, url, outcome, 0);
  }

  /** Two 503s and then a 200 take three calls with the defaults and return the 200's body. */
  lemma TwoUnavailableThenOk(url: string, unavailable: Response, ok: Response, body: map<string, Json>)
    requires unavailable.status == 503
    requires ok.status == 200 && ok.text != [] && ok.json == Some(JDict(body))
    ensures var outcome := (k: nat) => if k < 2 then Answer(unavailable) else Answer(ok);
      Run(DefaultRetry, "GET", url, outcome, 0) == (2, Ok(body))
  {
  }

  /** The client's settings once the constructor has checked its arguments. */
  datatype Settings = Settings(baseUrl: string, apiKey: string, retry: RetryConfig)

  predicate IsSlash(c: char) { c == '/' }

  /** The constructor: trailing '/' dropped from the base URL; an empty URL or key is a ValueError. */
  function NewClient(baseUrl: Option<string>, apiKey: Option<string>, retry: Option<RetryConfig>): (r: Result<Settings>)
    ensures r.Ok? ==> |r.value.baseUrl| > 0 && r.value.baseUrl[|r.value.baseUrl| - 1] != '/'
    ensures r.Ok? ==> |r.value.apiKey| > 0
    ensures r.Ok? ==> StartsWith(baseUrl.GetOr(""), r.value.baseUrl)
    ensures r.Ok? ==> forall i :: |r.value.baseUrl| <= i < |baseUrl.GetOr("")| ==> baseUrl.GetOr("")[i] == '/'
    ensures r.Ok? ==> r.value.retry == retry.GetOr(DefaultRetry)
    ensures apiKey.GetOr("") == [] ==> r.Err?
  {
    var base := TrimEnd(baseUrl.GetOr(""), IsSlash);
    var key := apiKey.GetOr("");
    TrimEndPrefix(baseUrl.GetOr(""), IsSlash);
    TrimEndDropped(baseUrl.GetOr(""), IsSlash);
    if base == [] then Err(ValueErr("base_url must be provided."))
    else if key == [] then Err(ValueErr("api_key must be provided."))
    else Ok(Settings(base, key, retry.GetOr(DefaultRetry)))
  }

  /** The base URL is accepted exactly when it holds something other than '/'. */
  lemma NewClientBaseUrl(baseUrl: string, apiKey: string)
    requires |apiKey| > 0
    ensures NewClient(Some(baseUrl), Some(apiKey), None).Ok? <==> exists i :: 0 <= i < |baseUrl| && baseUrl[i] != '/'
  {
    var base := TrimEnd(baseUrl, IsSlash);
    TrimEndDropped(baseUrl, IsSlash);
    TrimEndPrefix(baseUrl, IsSlash);
    if base != [] {
      assert baseUrl[|base| - 1] != '/';
    }
  }

  /** Extra trailing slashes make no difference. */
  lemma NewClientTrailingSlash(baseUrl: string, apiKey: Option<string>, retry: Option<RetryConfig>)
    ensures NewClient(Some(baseUrl + "/"), apiKey, retry) == NewClient(Some(baseUrl), apiKey, retry)
  {
    var s := baseUrl + "/";
    assert s[..|s| - 1] == baseUrl;
  }

  /**
   * A multipart upload as the transport received it: the file part's field
   * name, file name and content type, the session headers at the time of the
   * call, the Accept header sent, and the JSON metadata part if there is one.
   */
  datatype Upload = Upload(url: string, field: string, filename: string, contentType: string,
                           sessionHeaders: map<string, string>, accept: Option<string>,
                           metadata: Option<map<string, string>>)

  /** The httpx session whose default headers `post_file` edits around the upload. */
  class Session {
    var headers: map<string, string>
    var uploads: seq<Upload>

    constructor(headers: map<string, string>)
      ensures this.headers == headers && uploads == []
    {
      this.headers := headers;
      uploads := [];
    }

    /**
     * `post_file`: one attempt only. The session's Content-Type is popped for
     * the duration of the upload and put back afterwards; the file name and
     * content type default to the path's name, the guessed type, then
     * "application/octet-stream".
     */
    method PostFile(url: string, filePath: string, isFile: bool, pathName: string, field: string,
                    filename: Option<string>, contentType: Option<string>, guessed: Option<string>,
                    outcome: Attempt)
      returns (r: Result<map<string, Json>>)
      modifies this
      ensures headers == old(headers)
      ensures !isFile ==> r == Err(ClientErr("File not found: " + filePath)) && uploads == old(uploads)
      ensures isFile ==> uploads == old(uploads) + [Upload(url, field, Or(filename, pathName),
          Or(contentType, Or(guessed, "application/octet-stream")),
          old(headers) - {"Content-Type"}, AcceptOf(old(headers)), None)]
      ensures isFile ==> r == PostFinal(url, outcome)
    {
      if !isFile {
        return Err(ClientErr("File not found: " + filePath));
      }
      var name := Or(filename, pathName);
      var ctype := Or(contentType, Or(guessed, "application/octet-stream"));
      Send(url, field, name, ctype, None);
      r := PostFinal(url, outcome);
    }

    /**
     * One multipart POST as the session sees it: Content-Type is popped for
     * the duration of the call, so that the transport sets the multipart
     * boundary, and put back afterwards; the call carries the session's
     * Accept header.
     */
    method Send(url: string, field: string, filename: string, contentType: string,
                metadata: Option<map<string, string>>)
      modifies this
      ensures headers == old(headers)
      ensures uploads == old(uploads) + [Upload(url, field, filename, contentType,
          old(headers) - {"Content-Type"}, AcceptOf(old(headers)), metadata)]
    {
      var oldCt: Option<string> := None;
      if "Content-Type" in headers {
        oldCt := Some(headers["Content-Type"]);
        headers := headers - {"Content-Type"};
      } else {
        assert headers - {"Content-Type"} == headers;
      }
      var accept := if "Accept" in headers then Some(headers["Accept"]) else None;
      uploads := uploads + [Upload(url, field, filename, contentType, headers, accept, metadata)];
      if oldCt.Some? {
        headers := headers["Content-Type" := oldCt.value];
      }
    }
  }

  /** `headers.get("Accept")`. */
  function AcceptOf(headers: map<string, string>): Option<string>
  {
    if "Accept" in headers then Some(headers["Accept"]) else None
  }

  /** Python's `a or b` on an optional string. */
  function Or(a: Option<string>, b: string): string
  {
    if a.Some? && a.value != [] then a.value else b
  }

  /** The result of the single upload attempt: network and httpx errors are not retried. */
  function PostFinal(url: string, a: Attempt): (r: Result<map<string, Json>>)
    ensures a.NetworkError? || a.OtherError? ==> r.Err? && r.error.ClientErr?
    ensures a.Answer? && !(200 <= a.resp.status < 300) ==> r.Err? && r.error.HttpErr? && r.error.status == a.resp.status
  {
    match a
    case Answer(resp) => Finish("POST", resp)
    case NetworkError(d) => Err(ClientErr("Network/timeout error calling POST " + url + ": " + d))
    case OtherError(d) => Err(ClientErr("HTTPX error calling POST " + url + ": " + d))
  }
}
