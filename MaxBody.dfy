/**
 * The body-size limit in front of `POST` to the MCP path: a declared
 * `Content-Length` over the limit is refused with 413 before anything is
 * read; otherwise the body is read chunk by chunk, refused with 413 as soon
 * as the running total passes the limit, and else buffered on the request
 * for the handlers downstream. A limit of 0 switches the check off.
 *
 * Bodies are strings of byte values. The error code the 413 payload
 * carries is a configuration constant defined outside this model, so it is
 * a field of the configuration here.
 */
module MaxBody {
  import opened Wrappers
  import opened Text

  /** The configuration fields the middleware reads. */
  datatype LimitConfig = LimitConfig(path: string, maxBodyBytes: int, payloadTooLargeCode: string)

  /** What `dispatch` does with a request. */
  datatype Outcome =
    | PassThrough                                        // not checked: handed on as it is
    | TooLarge(status: int, payload: map<string, string>) // 413, the body not handed on
    | Forward(body: string)                              // handed on with this buffered body

  /** The request as the middleware sees it: its line, its declared length, the chunks its stream yields, and the buffer it fills. */
  class Request {
    const verb: string
    const path: string
    const contentLength: Option<string>
    const stream: seq<string>
    var body: Option<string>
    var streamConsumed: bool

    constructor (verb: string, path: string, contentLength: Option<string>, stream: seq<string>)
      ensures this.verb == verb && this.path == path && this.contentLength == contentLength
      ensures this.stream == stream && body == None && !streamConsumed
    {
      this.verb := verb;
      this.path := path;
      this.contentLength := contentLength;
      this.stream := stream;
      body := None;
      streamConsumed := false;
    }
  }

  /** The chunks joined in order (`b"".join(chunks)`). */
  function Concat(chunks: seq<string>): (r: string)
  {
    if chunks == [] then "" else Concat(chunks[..|chunks| - 1]) + chunks[|chunks| - 1]
  }

  /** The running total after the first `n` chunks. */
  function Total(chunks: seq<string>, n: nat): (r: nat)
    requires n <= |chunks|
  {
    |Concat(chunks[..n])|
  }

  /** `_payload()`: the configured error code and a fixed message. */
  function Payload(cfg: LimitConfig): (p: map<string, string>)
    ensures p.Keys == {"error", "message"}
    ensures p["error"] == cfg.payloadTooLargeCode && p["message"] == "Body exceeds limit"
  {
    map["error" := cfg.payloadTooLargeCode, "message" := "Body exceeds limit"]
  }

  /** `_applies(request)`: a POST, in any case, to the configured path. */
  predicate Applies(cfg: LimitConfig, verb: string, path: string)
  {
    Upper(verb) == "POST" && path == cfg.path
  }

  /** A present, non-empty `Content-Length` that `int()` reads as a number over the limit. */
  predicate DeclaredTooLarge(cfg: LimitConfig, contentLength: Option<string>)
  {
    contentLength.Some? && contentLength.value != "" &&
    ParseInt(contentLength.value).Some? && ParseInt(contentLength.value).value > cfg.maxBodyBytes
  }

  /** Some non-empty prefix of the stream is over the limit. */
  predicate StreamTooLarge(limit: int, chunks: seq<string>)
  {
    exists k :: 1 <= k <= |chunks| && Total(chunks, k) > limit
  }

  /** What the middleware decides, stated over the whole request at once. */
  function Decision(cfg: LimitConfig, verb: string, path: string, contentLength: Option<string>,
                    chunks: seq<string>): Outcome
  {
    if !Applies(cfg, verb, path) || cfg.maxBodyBytes == 0 then PassThrough
    else if DeclaredTooLarge(cfg, contentLength) || StreamTooLarge(cfg.maxBodyBytes, chunks) then TooLarge(413, Payload(cfg))
    else Forward(Concat(chunks))
  }

  /** Concatenation distributes over a split of the chunk list. */
  lemma {:induction false} ConcatAppend(a: seq<string>, b: seq<string>)
    ensures Concat(a + b) == Concat(a) + Concat(b)
    decreases |b|
  {
    if b != [] {
      var b' := b[..|b| - 1];
      assert (a + b)[..|a + b| - 1] == a + b';
      ConcatAppend(a, b');
    } else {
      assert a + b == a;
    }
  }

  /** The running total never falls as more chunks are read. */
  lemma TotalMonotone(chunks: seq<string>, j: nat, k: nat)
    requires j <= k <= |chunks|
    ensures Total(chunks, j) <= Total(chunks, k)
  {
    assert chunks[..k] == chunks[..j] + chunks[j..k];
    ConcatAppend(chunks[..j], chunks[j..k]);
  }

  /**
   * The `async for` over the request stream: the running total is checked
   * after each chunk, the scan stops at the first chunk that carries it over
   * the limit, and otherwise every chunk is kept and joined. `read` is how
   * many chunks were taken from the stream.
   */
  method ReadStream(stream: seq<string>, limit: int) returns (tooLarge: bool, read: nat, body: string)
    ensures read <= |stream|
    ensures tooLarge <==> StreamTooLarge(limit, stream)
    ensures tooLarge ==> read >= 1 && Total(stream, read) > limit &&
                         forall j :: 1 <= j < read ==> Total(stream, j) <= limit
    ensures !tooLarge ==> read == |stream| && body == Concat(stream)
  {
    var total := 0;
    var chunks: seq<string> := [];
    read := 0;
    while read < |stream|
      invariant read <= |stream|
      invariant chunks == stream[..read] && total == |Concat(chunks)|
      invariant forall j :: 1 <= j <= read ==> Total(stream, j) <= limit
    {
      var chunk := stream[read];
      total := total + |chunk|;
      assert Concat(stream[..read + 1]) == Concat(chunks) + chunk by {
        assert stream[..read + 1][..read] == chunks;
      }
      read := read + 1;
      if total > limit {
        assert Total(stream, read) > limit;
        return true, read, "";
      }
      chunks := chunks + [chunk];
    }
    assert stream[..read] == stream;
    return false, read, Concat(chunks);
  }

  /**
   * `MaxBodyMiddleware.dispatch(request, call_next)`: the stream is read
   * only past the declared-length check, and only up to the first chunk
   * that carries the total over the limit; a body that fits is buffered on
   * the request and the stream marked consumed.
   */
  method Dispatch(cfg: LimitConfig, request: Request) returns (outcome: Outcome, read: nat)
    modifies request
    ensures outcome == Decision(cfg, request.verb, request.path, request.contentLength, request.stream)
    ensures read <= |request.stream|
    ensures outcome.TooLarge? && read > 0 ==>
              Total(request.stream, read) > cfg.maxBodyBytes &&
              forall j :: 1 <= j < read ==> Total(request.stream, j) <= cfg.maxBodyBytes
    ensures outcome.Forward? ==> read == |request.stream| && request.body == Some(outcome.body) && request.streamConsumed
    ensures !outcome.Forward? ==> request.body == old(request.body) && request.streamConsumed == old(request.streamConsumed)
  {
    read := 0;
    if !(Upper(request.verb) == "POST" && request.path == cfg.path) || cfg.maxBodyBytes == 0 {
      return PassThrough, read;
    }
    var contentLength := request.contentLength;
    if contentLength.Some? && contentLength.value != "" {
      var length := ParseInt(contentLength.value);
      if length.Some? && length.value > cfg.maxBodyBytes {
        return TooLarge(413, Payload(cfg)), read;
      }
    }
    var tooLarge, body;
    tooLarge, read, body := ReadStream(request.stream, cfg.maxBodyBytes);
    if tooLarge {
      return TooLarge(413, Payload(cfg)), read;
    }
    request.body := Some(body);
    request.streamConsumed := true;
    return Forward(body), read;
  }

  /**
   * The outcomes, each exactly when its condition holds: only a POST to the
   * MCP path with a non-zero limit is checked; a checked request is refused
   * with 413 and the configured error code exactly when its declared length
   * or the stream runs over the limit; otherwise the handlers see the
   * chunks joined in order.
   */
  lemma DecisionCases(cfg: LimitConfig, verb: string, path: string, contentLength: Option<string>,
                      chunks: seq<string>)
    ensures var d := Decision(cfg, verb, path, contentLength, chunks);
      && (d == PassThrough <==> !Applies(cfg, verb, path) || cfg.maxBodyBytes == 0)
      && (d.TooLarge? <==>
            (&& Applies(cfg, verb, path) && cfg.maxBodyBytes != 0
             && (DeclaredTooLarge(cfg, contentLength) || StreamTooLarge(cfg.maxBodyBytes, chunks))))
      && (d.TooLarge? ==> d.status == 413 && d.payload["error"] == cfg.payloadTooLargeCode)
      && (d.Forward? ==> d.body == Concat(chunks))
  {
  }

  /** With a non-negative limit the stream is too large exactly when the whole body is. */
  lemma StreamTooLargeIsLength(cfg: LimitConfig, chunks: seq<string>)
    requires cfg.maxBodyBytes >= 0
    ensures StreamTooLarge(cfg.maxBodyBytes, chunks) <==> |Concat(chunks)| > cfg.maxBodyBytes
  {
    assert chunks[..|chunks|] == chunks;
    if StreamTooLarge(cfg.maxBodyBytes, chunks) {
      var k :| 1 <= k <= |chunks| && Total(chunks, k) > cfg.maxBodyBytes;
      TotalMonotone(chunks, k, |chunks|);
    } else if |chunks| == 0 {
      assert Concat(chunks) == "";
    } else {
      assert Total(chunks, |chunks|) == |Concat(chunks)|;
    }
  }

  /**
   * A body of exactly the limit passes, without a declared length over it,
   * however it is cut into chunks; one byte more is refused.
   */
  lemma ExactlyMaxPasses(cfg: LimitConfig, verb: string, path: string, contentLength: Option<string>,
                         chunks: seq<string>, extra: string)
    requires Applies(cfg, verb, path) && cfg.maxBodyBytes > 0 && !DeclaredTooLarge(cfg, contentLength)
    requires |Concat(chunks)| == cfg.maxBodyBytes && |extra| == 1
    ensures Decision(cfg, verb, path, contentLength, chunks) == Forward(Concat(chunks))
    ensures Decision(cfg, verb, path, contentLength, chunks + [extra]).TooLarge?
  {
    StreamTooLargeIsLength(cfg, chunks);
    StreamTooLargeIsLength(cfg, chunks + [extra]);
    ConcatAppend(chunks, [extra]);
    assert Concat([extra]) == extra by {
      assert [extra][..0] == [];
    }
  }

  /** A declared length over the limit is refused whatever the stream holds, even an empty one. */
  lemma DeclaredLengthRefused(cfg: LimitConfig, verb: string, path: string, n: nat, chunks: seq<string>)
    requires Applies(cfg, verb, path) && cfg.maxBodyBytes > 0 && n > cfg.maxBodyBytes
    ensures Decision(cfg, verb, path, Some(NatToString(n)), chunks).TooLarge?
  {
    ParseIntOfNat(n);
  }
}
