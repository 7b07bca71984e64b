/**
 * The saved-query tools: `list_queries` lists saved views with their
 * project, `run_query` executes one and pages through its work packages.
 * For query results the API's `offset` is a 1-based page number, and the
 * next page is derived from the paging fields the API returns.
 *
 * The GET each tool makes is a parameter: the request the tool sends is a
 * function of its arguments, and `response` is what the client returned
 * for it (a decoded JSON object or a raised error).
 */
module Queries {
  import opened Wrappers
  import opened Text
  import opened Py
  import opened Paging
  import Hal
  import Collections

  // ---- `_compute_next_offset` ----

  /**
   * `_compute_next_offset` on the paging fields after their
   * `isinstance(_, int)` tests (`None` stands for a field that is not an
   * integer): the page after `offset` when records remain past this page,
   * judged from `offset * page_size`, else from the records before this page
   * plus `count`.
   */
  function ComputeNextOffset(total: Option<int>, pageSize: Option<int>, offset: Option<int>,
                             count: Option<int>): (r: Option<int>)
    ensures total.None? || pageSize.None? || offset.None? ==> r == None
    ensures r.Some? ==> offset.Some? && r.value == offset.value + 1
  {
    if total.None? || pageSize.None? || offset.None? then None
    else if offset.value * pageSize.value < total.value then Some(offset.value + 1)
    else if count.Some? && (offset.value - 1) * pageSize.value + count.value < total.value then Some(offset.value + 1)
    else None
  }

  /** The number of records before 1-based page `page` of size `pageSize`. */
  function RecordsBefore(page: int, pageSize: int): int
  {
    (page - 1) * pageSize
  }

  /**
   * When `count` is the number of records the page really holds, the
   * `count` fallback never decides: a next page is announced exactly when
   * records exist past the current page.
   */
  lemma NextPageIffRecordsRemain(total: int, pageSize: int, page: int, count: int)
    requires 0 <= pageSize && RecordsBefore(page, pageSize) <= total
    requires count == if total - RecordsBefore(page, pageSize) < pageSize then total - RecordsBefore(page, pageSize) else pageSize
    ensures ComputeNextOffset(Some(total), Some(pageSize), Some(page), Some(count)).Some?
            <==> RecordsBefore(page + 1, pageSize) < total
  {
    assert RecordsBefore(page + 1, pageSize) == page * pageSize == (page - 1) * pageSize + pageSize;
  }

  /**
   * A `count` smaller than what the page holds makes the fallback announce a
   * page past the end: one record of two on page 1 of size 2.
   */
  lemma ShortCountAnnouncesEmptyPage()
    ensures ComputeNextOffset(Some(2), Some(2), Some(1), Some(1)) == Some(2)
    ensures RecordsBefore(2, 2) == 2
  {
  }

  /** Following `next_offset` page by page from `page` until it is `None`. */
  function LastPage(page: int, pageSize: int, total: int): int
    requires pageSize >= 1
    decreases total - page * pageSize
  {
    match ComputeNextOffset(Some(total), Some(pageSize), Some(page), None)
    case Some(next) =>
      assert next * pageSize == page * pageSize + pageSize;
      LastPage(next, pageSize, total)
    case None => page
  }

  /**
   * Following `next_offset` from a page that starts inside the results ends
   * on the page holding the last record: no page is skipped and no empty
   * page is requested.
   */
  lemma {:induction false} LastPageHoldsLastRecord(page: int, pageSize: int, total: int)
    requires pageSize >= 1 && RecordsBefore(page, pageSize) < total
    ensures var last := LastPage(page, pageSize, total);
      page <= last && RecordsBefore(last, pageSize) < total <= RecordsBefore(last + 1, pageSize)
    decreases total - page * pageSize
  {
    assert RecordsBefore(page + 1, pageSize) == page * pageSize;
    if page * pageSize < total {
      assert (page + 1) * pageSize == page * pageSize + pageSize;
      LastPageHoldsLastRecord(page + 1, pageSize, total);
    }
  }

  // ---- paging-field selection ----

  /** `d.get(key) if isinstance(d.get(key), int) else fallback`. */
  function IntOr(d: map<string, Json>, key: string, fallback: int): (r: int)
    ensures key in d && AsInt(d[key]).Some? ==> r == AsInt(d[key]).value
    ensures (key !in d || AsInt(d[key]).None?) ==> r == fallback
  {
    AsInt(DictGet(d, key, JNull)).GetOr(fallback)
  }

  // ---- `_query_to_summary` ----

  datatype QuerySummary = QuerySummary(id: Json, name: Json, href: Json, projectId: Option<int>,
                                       public: Json, starred: Json)

  /**
   * `_query_to_summary`: the scalar fields as they are, the `self` href,
   * and the project id parsed from the `project` href. A `_links` that is
   * not a dict, a truthy link that is not a dict, or a truthy project href
   * that is not a string raises.
   */
  function QueryToSummary(payload: map<string, Json>): (r: Result<QuerySummary>)
    ensures "_links" !in payload ==>
              r == Ok(QuerySummary(DictGet(payload, "id", JNull), DictGet(payload, "name", JNull), JNull, None,
                                   DictGet(payload, "public", JNull), DictGet(payload, "starred", JNull)))
    ensures "_links" in payload && !payload["_links"].JDict? ==> r == Err(TypeErr)
  {
    var links := map["_links" := DictGet(payload, "_links", JDict(map[]))];
    var projectHref :- Hal.GetLinkHref(links, "project");
    var selfHref :- Hal.GetLinkHref(links, "self");
    var projectId :- Hal.HrefId(projectHref);
    Ok(QuerySummary(DictGet(payload, "id", JNull), DictGet(payload, "name", JNull), selfHref, projectId,
                    DictGet(payload, "public", JNull), DictGet(payload, "starred", JNull)))
  }

  /** A saved query as the API serves it, with its `self` and `project` links. */
  function QueryPayload(id: Json, name: Json, selfHref: string, projectHref: string): map<string, Json>
  {
    map["id" := id, "name" := name,
        "_links" := JDict(map["self" := JDict(map["href" := JStr(selfHref)]),
                              "project" := JDict(map["href" := JStr(projectHref)])])]
  }

  /**
   * Summarising a served query gives back its id, name and `self` href, and
   * the project id its project href ends in.
   */
  lemma QuerySummaryOfPayload(id: Json, name: Json, selfHref: string, prefix: string, projectId: nat)
    ensures QueryToSummary(QueryPayload(id, name, selfHref, prefix + "/" + NatToString(projectId)))
            == Ok(QuerySummary(id, name, JStr(selfHref), Some(projectId), JNull, JNull))
  {
    var href := prefix + "/" + NatToString(projectId);
    var payload := QueryPayload(id, name, selfHref, href);
    var links := map["_links" := payload["_links"]];
    assert Hal.GetLinkHref(links, "project") == Ok(JStr(href));
    assert Hal.GetLinkHref(links, "self") == Ok(JStr(selfHref));
    assert |href| > 0;
    Hal.HrefRoundTrip(prefix, projectId);
    assert Hal.HrefId(JStr(href)) == Ok(Some(projectId));
    assert "public" !in payload && "starred" !in payload;
    assert QueryToSummary(payload) == Ok(QuerySummary(payload["id"], payload["name"], JStr(selfHref), Some(projectId),
                                                      JNull, JNull));
  }

  /** The summaries of all elements in order; one element that raises makes the list raise. */
  function Summaries(elements: seq<map<string, Json>>): (r: Result<seq<QuerySummary>>)
    ensures r.Ok? <==> forall i :: 0 <= i < |elements| ==> QueryToSummary(elements[i]).Ok?
    ensures r.Ok? ==> |r.value| == |elements|
                      && forall i :: 0 <= i < |elements| ==> QueryToSummary(elements[i]) == Ok(r.value[i])
  {
    MapResult(elements, QueryToSummary)
  }

  // ---- `list_queries` ----

  const QueriesPath := "/api/v3/queries"

  /** The GET of a tool: a path and its query parameters. */
  datatype QueryRequest = QueryRequest(path: string, offset: int, pageSize: int, filters: Option<string>)

  /** `json.dumps([{"project_id": {"operator": "=", "values": [str(project_id)]}}])`. */
  function ProjectFilter(projectId: int): string
  {
    "[{\"project_id\": {\"operator\": \"=\", \"values\": [\"" + IntToString(projectId) + "\"]}}]"
  }

  /** The request `list_queries` sends: the clamped page size, and a project filter when a project is given. */
  function ListRequest(projectId: Option<int>, offset: int, pageSize: int): (q: QueryRequest)
    ensures q.path == QueriesPath && q.offset == offset && 1 <= q.pageSize <= MaxPageSize
    ensures 1 <= pageSize <= MaxPageSize ==> q.pageSize == pageSize
    ensures q.filters.Some? <==> projectId.Some?
  {
    QueryRequest(QueriesPath, offset, ClampPageSize(pageSize),
                 if projectId.Some? then Some(ProjectFilter(projectId.value)) else None)
  }

  datatype QueryList = QueryList(items: seq<QuerySummary>, total: Option<int>, offset: int, pageSize: int,
                                 count: int, nextOffset: Option<int>)

  /**
   * `list_queries` once its GET answered `response`: the summaries of the
   * embedded elements, and the paging fields, where the payload's integer
   * `pageSize`, `offset` and `count` take precedence over the requested
   * size, the requested offset and the number of items.
   */
  function ListQueries(projectId: Option<int>, offset: int, pageSize: int,
                       response: Result<map<string, Json>>): (r: Result<QueryList>)
    ensures response.Err? ==> r == Err(response.error)
    ensures r.Ok? ==> response.Ok? && Collections.EmbeddedElements(response.value).Ok?
                      && |r.value.items| == |Collections.EmbeddedElements(response.value).value|
                      && r.value.pageSize == IntOr(response.value, "pageSize", ListRequest(projectId, offset, pageSize).pageSize)
                      && r.value.offset == IntOr(response.value, "offset", offset)
                      && r.value.count == IntOr(response.value, "count", |r.value.items|)
                      && r.value.total == AsInt(DictGet(response.value, "total", JNull))
    ensures r.Ok? ==> r.value.nextOffset == ComputeNextOffset(r.value.total, Some(r.value.pageSize),
                                                              Some(r.value.offset), Some(r.value.count))
    ensures r.Ok? && r.value.nextOffset.Some? ==> r.value.nextOffset.value == r.value.offset + 1
  {
    var payload :- response;
    var elements :- Collections.EmbeddedElements(payload);
    var items :- Summaries(elements);
    var size := IntOr(payload, "pageSize", ListRequest(projectId, offset, pageSize).pageSize);
    var off := IntOr(payload, "offset", offset);
    var count := IntOr(payload, "count", |items|);
    var total := AsInt(DictGet(payload, "total", JNull));
    Ok(QueryList(items, total, off, size, count, ComputeNextOffset(total, Some(size), Some(off), Some(count))))
  }

  /**
   * The listed items are the summaries of the embedded elements, in order;
   * the listing raises exactly when one of them does.
   */
  lemma ListQueriesItemsInOrder(projectId: Option<int>, offset: int, pageSize: int, payload: map<string, Json>)
    requires Collections.EmbeddedElements(payload).Ok?
    ensures var r := ListQueries(projectId, offset, pageSize, Ok(payload));
      var elements := Collections.EmbeddedElements(payload).value;
      (r.Ok? <==> forall i :: 0 <= i < |elements| ==> QueryToSummary(elements[i]).Ok?)
      && (r.Ok? ==> forall i :: 0 <= i < |elements| ==> QueryToSummary(elements[i]) == Ok(r.value.items[i]))
  {
  }

  /** The listed example: page 1 of size 2 out of 3 announces page 2. */
  lemma SecondPageOfThree()
    ensures ComputeNextOffset(Some(3), Some(2), Some(1), Some(2)) == Some(2)
  {
  }

  // ---- `run_query` ----

  const QueryNotFound := "Query not found."

  /** `/api/v3/queries/{query_id}`. */
  function QueryPath(queryId: int): string { QueriesPath + "/" + IntToString(queryId) }

  /** The request `run_query` sends: the query's path with the page number and the clamped size. */
  function RunRequest(queryId: int, offset: int, pageSize: int): (q: QueryRequest)
    ensures q.path == QueryPath(queryId) && q.offset == offset && q.filters == None
    ensures 1 <= q.pageSize <= MaxPageSize
  {
    QueryRequest(QueryPath(queryId), offset, ClampPageSize(pageSize), None)
  }

  /** A 404 from the GET becomes "Query not found."; any other error propagates. */
  function RunQueryError(e: Error, url: string): (r: Error)
    ensures StatusIn(e, {404}) ==> r.HttpErr? && r.detail == JStr(QueryNotFound)
    ensures !StatusIn(e, {404}) ==> r == e
  {
    if StatusIn(e, {404}) then HttpErr(404, "GET", url, JStr(QueryNotFound), e.responseJson, e.responseText)
    else e
  }

  /** The rewrite keeps the status code and both response bodies and names the GET of the query. */
  lemma RunQueryErrorKeeps(e: Error, url: string)
    requires e.HttpErr?
    ensures var r := RunQueryError(e, url);
      r.HttpErr? && r.status == e.status && r.responseJson == e.responseJson && r.responseText == e.responseText
      && (e.status == 404 ==> r.verb == "GET" && r.url == url)
  {
  }

  /** `payload.get("_embedded", {}).get("results", {})`. */
  function ResultsOf(payload: map<string, Json>): (r: Result<Json>)
    ensures "_embedded" !in payload ==> r == Ok(JDict(map[]))
  {
    Get(DictGet(payload, "_embedded", JDict(map[])), "results", JDict(map[]))
  }

  /**
   * The dicts among the values `for e in x` visits: a list's dict
   * elements; a dict or a string visits keys or characters, never a dict;
   * any other value is not iterable.
   */
  function DictsIn(x: Json): (r: Result<seq<map<string, Json>>>)
    ensures x.JList? ==> r == Ok(Collections.Dicts(x.items))
    ensures r.Err? <==> x.JNull? || x.JBool? || x.JInt?
  {
    match x
    case JList(items) => Ok(Collections.Dicts(items))
    case JDict(_) => Ok([])
    case JStr(_) => Ok([])
    case _ => Err(TypeErr)
  }

  /** The work-package elements of the results: none when the results are not a dict. */
  function ResultElements(results: Json): (r: Result<seq<map<string, Json>>>)
    ensures !results.JDict? ==> r == Ok([])
  {
    if !results.JDict? then Ok([])
    else
      var elements :- Get(DictGet(results.fields, "_embedded", JDict(map[])), "elements", JList([]));
      DictsIn(elements)
  }

  /** `results.get(key) if isinstance(results, dict) else None`. */
  function ResultsField(results: Json, key: string): Json
  {
    if results.JDict? then DictGet(results.fields, key, JNull) else JNull
  }

  datatype QueryRun = QueryRun(queryId: int, items: seq<map<string, Json>>, total: Option<int>, count: int,
                               pageSize: int, offset: int, nextOffset: Option<int>)

  /** The page built from the results' fields, with the `pageSize` and `offset` fields already read. */
  function RunPage(queryId: int, results: Json, items: seq<map<string, Json>>, pageSizeField: Json,
                   offsetField: Json, offset: int, size: int): QueryRun
  {
    var total := AsInt(ResultsField(results, "total"));
    var count := AsInt(ResultsField(results, "count")).GetOr(|items|);
    var ps := AsInt(pageSizeField).GetOr(size);
    var off := AsInt(offsetField).GetOr(offset);
    QueryRun(queryId, items, total, count, ps, off, ComputeNextOffset(total, Some(ps), Some(off), Some(count)))
  }

  /**
   * `run_query` as written: `total`, `count` and the elements are read only
   * when the results are a dict, but `results.get("pageSize")` and
   * `results.get("offset")` are called on the results whatever they are.
   */
  function RunQueryAsWritten(baseUrl: string, queryId: int, offset: int, pageSize: int,
                             response: Result<map<string, Json>>): Result<QueryRun>
  {
    if response.Err? then Err(RunQueryError(response.error, baseUrl + QueryPath(queryId)))
    else
      var results :- ResultsOf(response.value);
      var items :- ResultElements(results);
      var pageSizeField :- Get(results, "pageSize", JNull);
      var offsetField :- Get(results, "offset", JNull);
      Ok(RunPage(queryId, results, items, pageSizeField, offsetField, offset, RunRequest(queryId, offset, pageSize).pageSize))
  }

  /**
   * `run_query` with every field read guarded like `total` and `count`:
   * results that are not a dict give an empty page.
   */
  function RunQuery(baseUrl: string, queryId: int, offset: int, pageSize: int,
                    response: Result<map<string, Json>>): (r: Result<QueryRun>)
    ensures response.Err? ==> r == Err(RunQueryError(response.error, baseUrl + QueryPath(queryId)))
    ensures response.Ok? ==> (r.Ok? <==> ResultsOf(response.value).Ok? && ResultElements(ResultsOf(response.value).value).Ok?)
    ensures r.Ok? ==>
      var results := ResultsOf(response.value).value;
      && r.value.queryId == queryId
      && r.value.items == ResultElements(results).value
      && r.value.total == AsInt(ResultsField(results, "total"))
      && r.value.count == AsInt(ResultsField(results, "count")).GetOr(|r.value.items|)
      && r.value.pageSize == AsInt(ResultsField(results, "pageSize")).GetOr(ClampPageSize(pageSize))
      && r.value.offset == AsInt(ResultsField(results, "offset")).GetOr(offset)
    ensures r.Ok? ==> r.value.nextOffset == ComputeNextOffset(r.value.total, Some(r.value.pageSize), Some(r.value.offset),
                                                               Some(r.value.count))
    ensures r.Ok? && r.value.nextOffset.Some? ==> r.value.nextOffset.value == r.value.offset + 1
  {
    if response.Err? then Err(RunQueryError(response.error, baseUrl + QueryPath(queryId)))
    else
      var results :- ResultsOf(response.value);
      var items :- ResultElements(results);
      Ok(RunPage(queryId, results, items, ResultsField(results, "pageSize"), ResultsField(results, "offset"),
                 offset, RunRequest(queryId, offset, pageSize).pageSize))
  }

  /**
   * Results that are not a dict give an empty page at the requested page
   * number and the clamped size, with no total and no next page.
   */
  lemma RunQueryNonDictResults(baseUrl: string, queryId: int, offset: int, pageSize: int,
                               payload: map<string, Json>)
    requires ResultsOf(payload).Ok? && !ResultsOf(payload).value.JDict?
    ensures RunQuery(baseUrl, queryId, offset, pageSize, Ok(payload))
            == Ok(QueryRun(queryId, [], None, 0, ClampPageSize(pageSize), offset, None))
  {
  }

  /** Where the results are a dict, the guarded reads change nothing. */
  lemma RunQueryAgreesOnDictResults(baseUrl: string, queryId: int, offset: int, pageSize: int,
                                    response: Result<map<string, Json>>)
    requires response.Ok? ==> ResultsOf(response.value).Ok? && ResultsOf(response.value).value.JDict?
    ensures RunQueryAsWritten(baseUrl, queryId, offset, pageSize, response)
            == RunQuery(baseUrl, queryId, offset, pageSize, response)
  {
  }

  /** `"results": null`: the code as written raises where an empty page was meant. */
  lemma NullResultsRaise(baseUrl: string, queryId: int, offset: int, pageSize: int)
    ensures var payload := map["_embedded" := JDict(map["results" := JNull])];
      RunQueryAsWritten(baseUrl, queryId, offset, pageSize, Ok(payload)) == Err(TypeErr)
      && RunQuery(baseUrl, queryId, offset, pageSize, Ok(payload)).Ok?
  {
    var payload := map["_embedded" := JDict(map["results" := JNull])];
    assert ResultsOf(payload) == Ok(JNull);
  }

  /**
   * The listed example: page 1 of size 2 out of 3 results returns both
   * work packages and announces page 2.
   */
  lemma RunQueryFirstPage(baseUrl: string, wp1: map<string, Json>, wp2: map<string, Json>)
    ensures var results := JDict(map["total" := JInt(3), "count" := JInt(2), "pageSize" := JInt(2), "offset" := JInt(1),
                                      "_embedded" := JDict(map["elements" := JList([JDict(wp1), JDict(wp2)])])]);
      RunQuery(baseUrl, 11, 1, 2, Ok(map["_embedded" := JDict(map["results" := results])]))
      == Ok(QueryRun(11, [wp1, wp2], Some(3), 2, 2, 1, Some(2)))
  {
    var results := JDict(map["total" := JInt(3), "count" := JInt(2), "pageSize" := JInt(2), "offset" := JInt(1),
                             "_embedded" := JDict(map["elements" := JList([JDict(wp1), JDict(wp2)])])]);
    assert ResultsOf(map["_embedded" := JDict(map["results" := results])]) == Ok(results);
    assert Collections.Dicts([JDict(wp1), JDict(wp2)]) == [wp1, wp2];
    assert ResultElements(results) == Ok([wp1, wp2]);
  }
}
