/**
 * The Python values and exceptions the adapter passes around: decoded JSON
 * (`json.loads` results, integers only), its truthiness, dictionary lookups
 * that raise on a non-dict, and the exception classes as one error type.
 */
module Py {
  import opened Wrappers

  /** A decoded JSON value; objects are dictionaries keyed by string. */
  datatype Json =
    | JNull
    | JBool(b: bool)
    | JInt(i: int)
    | JStr(s: string)
    | JList(items: seq<Json>)
    | JDict(fields: map<string, Json>)

  /** Python's `bool(x)`. */
  predicate Truthy(j: Json)
  {
    match j
    case JNull => false
    case JBool(b) => b
    case JInt(i) => i != 0
    case JStr(s) => |s| > 0
    case JList(a) => |a| > 0
    case JDict(m) => |m| > 0
  }

  /** `d.get(k, default)` on a dictionary. */
  function DictGet(d: map<string, Json>, k: string, default: Json): Json
  {
    if k in d then d[k] else default
  }

  /** The integer an `isinstance(x, int)` test accepts; a `bool` is an `int` in Python. */
  function AsInt(j: Json): (r: Option<int>)
    ensures r.Some? <==> j.JInt? || j.JBool?
    ensures j.JInt? ==> r == Some(j.i)
  {
    match j
    case JInt(i) => Some(i)
    case JBool(b) => Some(if b then 1 else 0)
    case _ => None
  }

  /** An optional integer as JSON. */
  function OptInt(i: Option<int>): Json
  {
    match i
    case None => JNull
    case Some(v) => JInt(v)
  }

  /**
   * The exceptions of the adapter. `TypeErr` stands for the AttributeError or
   * TypeError Python raises when a value has the wrong type (`.get` on a list);
   * `ValueListErr` is a ValueError whose message is `prefix` followed by the
   * `repr` of the list `names`. `KeyErr` is a KeyError.
   */
  datatype Error =
    | TypeErr
    | ValueErr(message: string)
    | ValueListErr(prefix: string, names: seq<string>)
    | ClientErr(message: string)
    | ParseErr(message: string)
    | HttpErr(status: int, verb: string, url: string, detail: Json,
              responseJson: Option<map<string, Json>>, responseText: Option<string>)
    | ResolutionErr(query: string, message: string)
    | AmbiguousErr(query: string, candidates: seq<string>)
    | NotFoundErr(query: string, available: seq<string>)
    | DurationErr(message: string)
    | UnboundLocalErr
    | KeyErr

  /** A computation that returns a value or raises. */
  datatype Result<+T> = Ok(value: T) | Err(error: Error)
  {
    predicate IsFailure() { Err? }

    function PropagateFailure<U>(): Result<U>
      requires Err?
    {
      Err(error)
    }

    function Extract(): T
      requires Ok?
    {
      value
    }
  }

  /** `[f(x) for x in s]` where `f` may raise: one raising element makes the whole list raise. */
  function MapResult<T, U>(s: seq<T>, f: T -> Result<U>): (r: Result<seq<U>>)
    ensures r.Ok? <==> forall i :: 0 <= i < |s| ==> f(s[i]).Ok?
    ensures r.Ok? ==> |r.value| == |s| && forall i :: 0 <= i < |s| ==> f(s[i]) == Ok(r.value[i])
  {
    if s == [] then Ok([])
    else
      var head :- f(s[0]);
      var tail :- MapResult(s[1..], f);
      assert forall i :: 1 <= i < |s| ==> s[i] == s[1..][i - 1];
      Ok([head] + tail)
  }

  /** `j.get(k, default)` where `j` should be a dictionary (AttributeError otherwise). */
  function Get(j: Json, k: string, default: Json): (r: Result<Json>)
    ensures r.Ok? <==> j.JDict?
    ensures j.JDict? && k !in j.fields ==> r == Ok(default)
  {
    match j
    case JDict(d) => Ok(DictGet(d, k, default))
    case _ => Err(TypeErr)
  }

  /** Whether a status code is one of the listed ones. */
  predicate StatusIn(e: Error, codes: set<int>)
  {
    e.HttpErr? && e.status in codes
  }
}
