/**
 * What the two generations of `get_project_memberships` share: the role
 * names of a membership, its id, the rewrite of a 403, and the bounded
 * paging loop that requests pages at offsets 0, p, 2p, ... until a short
 * page or `max_pages` requests.
 *
 * The page request is an oracle: `fetch(offset)` is what the GET for the
 * page at `offset` returned (a decoded JSON object or a raised error).
 */
module Memberships {
  import opened Wrappers
  import opened Py
  import Hal
  import Collections
  import Sorting
  import Resolution

  /** One GET of the listing: path and query parameters. */
  datatype PageRequest = PageRequest(path: string, offset: int, pageSize: int, filters: Option<string>)

  const PermissionDenied := "Permission denied: unable to view project memberships."

  /**
   * A 403 is re-raised as a 403 naming the membership listing at `url`,
   * without the response bodies; any other error propagates.
   */
  function DeniedError(e: Error, url: string): (r: Error)
    ensures StatusIn(e, {403}) ==> r == HttpErr(403, "GET", url, JStr(PermissionDenied), None, None)
    ensures !StatusIn(e, {403}) ==> r == e
  {
    if StatusIn(e, {403}) then HttpErr(403, "GET", url, JStr(PermissionDenied), None, None) else e
  }

  /** Only a 403 is rewritten, and the status code is never changed. */
  lemma DeniedErrorKeepsStatus(e: Error, url: string)
    requires e.HttpErr?
    ensures DeniedError(e, url).HttpErr? && DeniedError(e, url).status == e.status
    ensures DeniedError(e, url) != e ==> e.status == 403 && DeniedError(e, url).detail == JStr(PermissionDenied)
  {
  }

  /**
   * The membership id: the `id` field unless it is missing or `None`, else
   * the id parsed from the `self` href (default "", which gives `None`).
   */
  function MembershipId(m: map<string, Json>): (r: Result<Json>)
    ensures DictGet(m, "id", JNull) != JNull ==> r == Ok(m["id"])
  {
    var id := DictGet(m, "id", JNull);
    if id != JNull then Ok(id)
    else
      var self :- Get(DictGet(m, "_links", JDict(map[])), "self", JDict(map[]));
      var href :- Get(self, "href", JStr(""));
      var parsed :- Hal.HrefId(href);
      Ok(OptInt(parsed))
  }

  // ---- role names ----

  /** The value of `key` in `r` when `r` is a dict and that value is truthy. */
  predicate HasTruthy(r: Json, key: string)
  {
    r.JDict? && key in r.fields && Truthy(r.fields[key])
  }

  /** The truthy `key` values of the dict elements of `s`, in order. */
  function Picked(s: seq<Json>, key: string): seq<Json>
  {
    if s == [] then []
    else Picked(s[..|s| - 1], key) + (if HasTruthy(s[|s| - 1], key) then [s[|s| - 1].fields[key]] else [])
  }

  /** Picking from a concatenation picks from each part, in order. */
  lemma {:induction false} PickedAppend(a: seq<Json>, b: seq<Json>, key: string)
    ensures Picked(a + b, key) == Picked(a, key) + Picked(b, key)
    decreases |b|
  {
    if b != [] {
      var last := b[|b| - 1];
      assert (a + b)[..|a + b| - 1] == a + b[..|b| - 1];
      PickedAppend(a, b[..|b| - 1], key);
    } else {
      assert a + b == a;
    }
  }

  /** A value is picked exactly when some dict element holds it, truthy, under `key`. */
  lemma {:induction false} PickedMembers(s: seq<Json>, key: string, x: Json)
    ensures x in Picked(s, key) <==> exists i :: 0 <= i < |s| && HasTruthy(s[i], key) && s[i].fields[key] == x
  {
    if s != [] {
      var init := s[..|s| - 1];
      PickedMembers(init, key, x);
      assert forall i :: 0 <= i < |init| ==> init[i] == s[i];
    }
  }

  /** `[r.get("name") for r in roles_emb if isinstance(r, dict) and r.get("name")]`, for a list. */
  function EmbeddedRoleNames(roles: Json): seq<Json>
  {
    if roles.JList? then Picked(roles.items, "name") else []
  }

  /**
   * `_roles_from_membership`: the truthy names of the embedded roles, then
   * the truthy titles of the role links, each in order. An `_embedded` or
   * `_links` that is not a dict raises.
   */
  function RoleNames(item: map<string, Json>): (r: Result<seq<Json>>)
    ensures r.Ok? ==> forall i :: 0 <= i < |r.value| ==> Truthy(r.value[i])
  {
    var emb :- Get(DictGet(item, "_embedded", JDict(map[])), "roles", JList([]));
    var links :- Get(DictGet(item, "_links", JDict(map[])), "roles", JList([]));
    PickedTruthy(EmbeddedRoleNames(emb) + (if links.JList? then Picked(links.items, "title") else []), emb, links);
    Ok(EmbeddedRoleNames(emb) + (if links.JList? then Picked(links.items, "title") else []))
  }

  lemma PickedTruthy(r: seq<Json>, emb: Json, links: Json)
    requires r == EmbeddedRoleNames(emb) + (if links.JList? then Picked(links.items, "title") else [])
    ensures forall i :: 0 <= i < |r| ==> Truthy(r[i])
  {
    forall x | x in r ensures Truthy(x) {
      if emb.JList? { PickedMembers(emb.items, "name", x); }
      if links.JList? { PickedMembers(links.items, "title", x); }
    }
  }

  /**
   * `_roles_from_membership` as the code runs it: the embedded names by
   * comprehension, then one pass over the role links appending each truthy
   * title.
   */
  method RolesFromMembership(item: map<string, Json>) returns (r: Result<seq<Json>>)
    ensures r == RoleNames(item)
  {
    var emb := Get(DictGet(item, "_embedded", JDict(map[])), "roles", JList([]));
    if emb.Err? {
      return Err(emb.error);
    }
    var names := EmbeddedRoleNames(emb.value);
    var links := Get(DictGet(item, "_links", JDict(map[])), "roles", JList([]));
    if links.Err? {
      return Err(links.error);
    }
    if links.value.JList? {
      var s := links.value.items;
      var i := 0;
      assert s[..0] == [];
      while i < |s|
        invariant 0 <= i <= |s|
        invariant names == EmbeddedRoleNames(emb.value) + Picked(s[..i], "title")
      {
        assert s[..i + 1][..i] == s[..i];
        if HasTruthy(s[i], "title") {
          names := names + [s[i].fields["title"]];
        }
        i := i + 1;
      }
      assert s[..|s|] == s;
    } else {
      assert names + [] == names;
    }
    r := Ok(names);
  }

  // ---- the paging loop ----

  /** What the loop has gathered: the items, the number of requests, and the last page read. */
  datatype Scan<T> = Scan(items: seq<T>, pages: nat, last: Option<map<string, Json>>)

  /** The page at `offset`, with a 403 rewritten. */
  function PageAt(fetch: int -> Result<map<string, Json>>, offset: int, url: string): (r: Result<map<string, Json>>)
    ensures fetch(offset).Ok? ==> r == fetch(offset)
  {
    match fetch(offset)
    case Ok(payload) => Ok(payload)
    case Err(e) => Err(DeniedError(e, url))
  }

  /** One page read: the items of its dict elements, its payload, and whether it was short. */
  datatype Page<T> = Page(members: seq<T>, payload: map<string, Json>, short: bool)

  /**
   * Read the page at `offset`: its dict elements become items through
   * `member` (the first that raises aborts the page), and a page with fewer
   * than `pageSize` of them is short.
   */
  function PageStep<T>(fetch: int -> Result<map<string, Json>>, member: map<string, Json> -> Result<T>, url: string,
                       pageSize: int, offset: int): Result<Page<T>>
  {
    var payload :- PageAt(fetch, offset, url);
    var batch :- Collections.EmbeddedElements(payload);
    var members :- MapResult(batch, member);
    Ok(Page(members, payload, |batch| < pageSize))
  }

  /** The items and requests gathered so far, followed by what the remaining requests gather. */
  function Resume<T>(items: seq<T>, pages: nat, last: Option<map<string, Json>>, rest: Result<Scan<T>>): Result<Scan<T>>
  {
    match rest
    case Err(e) => Err(e)
    case Ok(s) => Ok(Scan(items + s.items, pages + s.pages, if s.last.Some? then s.last else last))
  }

  /**
   * What the loop gathers when `pagesLeft` requests remain and the next
   * asks for `offset`: each page's dict elements become items through
   * `member`, and a page with fewer than `pageSize` of them is the last.
   */
  function ScanPages<T>(step: int -> Result<Page<T>>, pagesLeft: int, pageSize: int, offset: int): Result<Scan<T>>
    decreases if pagesLeft > 0 then pagesLeft else 0
  {
    if pagesLeft <= 0 then Ok(Scan([], 0, None))
    else
      var page :- step(offset);
      if page.short then Ok(Scan(page.members, 1, Some(page.payload)))
      else Resume(page.members, 1, Some(page.payload), ScanPages(step, pagesLeft - 1, pageSize, offset + pageSize))
  }

  /** The page reader of get_project_memberships: `PageStep` at each offset. */
  function Steps<T>(fetch: int -> Result<map<string, Json>>, member: map<string, Json> -> Result<T>, url: string,
                    pageSize: int): (step: int -> Result<Page<T>>)
    ensures forall offset :: step(offset) == PageStep(fetch, member, url, pageSize, offset)
  {
    offset => PageStep(fetch, member, url, pageSize, offset)
  }

  lemma ResumeNothing<T>(rest: Result<Scan<T>>)
    requires rest.Ok? ==> rest.value.pages > 0 || rest.value.last == None
    ensures Resume([], 0, None, rest) == rest
  {
    if rest.Ok? { assert [] + rest.value.items == rest.value.items; }
  }

  lemma ResumeTwice<T>(a: seq<T>, m: nat, la: Option<map<string, Json>>, b: seq<T>, n: nat,
                       lb: map<string, Json>, rest: Result<Scan<T>>)
    ensures Resume(a, m, la, Resume(b, n, Some(lb), rest)) == Resume(a + b, m + n, Some(lb), rest)
  {
    if rest.Ok? { assert a + (b + rest.value.items) == (a + b) + rest.value.items; }
  }

  /** A successful scan makes at most `pagesLeft` requests, and at least one when any is allowed. */
  lemma {:induction false} ScanBounded<T>(step: int -> Result<Page<T>>, pagesLeft: int, pageSize: int, offset: int)
    ensures var r := ScanPages(step, pagesLeft, pageSize, offset);
      r.Ok? ==> r.value.pages <= (if pagesLeft > 0 then pagesLeft else 0)
                && (pagesLeft > 0 <==> r.value.pages > 0)
                && (r.value.pages > 0 <==> r.value.last.Some?)
    decreases if pagesLeft > 0 then pagesLeft else 0
  {
    if pagesLeft > 0 {
      ScanBounded(step, pagesLeft - 1, pageSize, offset + pageSize);
    }
  }

  /** A first page shorter than `pageSize` is the only one requested. */
  lemma ShortFirstPage<T>(fetch: int -> Result<map<string, Json>>, member: map<string, Json> -> Result<T>,
                          url: string, pagesLeft: int, pageSize: int, offset: int)
    requires pagesLeft >= 1 && fetch(offset).Ok?
    requires Collections.EmbeddedElements(fetch(offset).value).Ok?
    requires |Collections.EmbeddedElements(fetch(offset).value).value| < pageSize
    ensures var r := ScanPages(Steps(fetch, member, url, pageSize), pagesLeft, pageSize, offset);
      r.Ok? ==> r.value.pages == 1 && r.value.last == Some(fetch(offset).value)
  {
  }

  /** Extending the prefix by one element extends the list by its item, or raises its error. */
  lemma {:induction false} MapResultSnoc<T, U>(s: seq<T>, j: nat, f: T -> Result<U>)
    requires j < |s| && MapResult(s[..j], f).Ok?
    ensures MapResult(s[..j + 1], f) == (if f(s[j]).Ok? then Ok(MapResult(s[..j], f).value + [f(s[j]).value])
                                          else Err(f(s[j]).error))
    decreases j
  {
    if j > 0 {
      assert s[..j + 1][1..] == s[1..][..j];
      assert s[..j][1..] == s[1..][..j - 1];
      MapResultSnoc(s[1..], j - 1, f);
      var head := f(s[0]).value;
      if f(s[j]).Ok? {
        assert [head] + (MapResult(s[1..][..j - 1], f).value + [f(s[j]).value])
               == ([head] + MapResult(s[1..][..j - 1], f).value) + [f(s[j]).value];
      }
    } else {
      assert s[..1] == [s[0]] && s[..1][1..] == [];
      if f(s[0]).Ok? { assert [f(s[0]).value] + [] == [] + [f(s[0]).value]; }
    }
  }

  /** The inner loop: each element of the batch, in order, becomes an item appended to `items`. */
  method AppendMembers<T>(items: seq<T>, batch: seq<map<string, Json>>, member: map<string, Json> -> Result<T>)
    returns (r: Result<seq<T>>)
    ensures MapResult(batch, member).Err? ==> r == Err(MapResult(batch, member).error)
    ensures MapResult(batch, member).Ok? ==> r == Ok(items + MapResult(batch, member).value)
  {
    var acc := items;
    var j := 0;
    assert batch[..0] == [];
    while j < |batch|
      invariant 0 <= j <= |batch|
      invariant MapResult(batch[..j], member).Ok?
      invariant acc == items + MapResult(batch[..j], member).value
    {
      MapResultSnoc(batch, j, member);
      var m := member(batch[j]);
      if m.Err? {
        MapResultErrorSticks(batch, j + 1, member);
        return Err(m.error);
      }
      acc := acc + [m.value];
      j := j + 1;
    }
    assert batch[..|batch|] == batch;
    r := Ok(acc);
  }

  /** An element that raises makes every longer prefix raise with its error. */
  lemma {:induction false} MapResultErrorSticks<T, U>(s: seq<T>, j: nat, f: T -> Result<U>)
    requires 0 < j <= |s| && MapResult(s[..j], f).Err?
    ensures MapResult(s, f) == Err(MapResult(s[..j], f).error)
    decreases j
  {
    if j == 1 {
      assert s[..1] == [s[0]] && [s[0]][1..] == [];
    } else if f(s[0]).Ok? {
      assert s[..j][1..] == s[1..][..j - 1];
      MapResultErrorSticks(s[1..], j - 1, f);
    }
  }

  /** A page that is not short is followed by what the remaining requests gather. */
  lemma ScanStep<T>(step: int -> Result<Page<T>>, pagesLeft: int, pageSize: int, offset: int,
                    nextLeft: int, nextOffset: int)
    requires pagesLeft > 0 && step(offset).Ok? && !step(offset).value.short
    requires nextLeft == pagesLeft - 1 && nextOffset == offset + pageSize
    ensures ScanPages(step, pagesLeft, pageSize, offset)
            == Resume(step(offset).value.members, 1, Some(step(offset).value.payload),
                      ScanPages(step, nextLeft, pageSize, nextOffset))
  {
  }

  /** One turn of the paging loop: read the page at `offset` and append its items to `items`. */
  method ScanPage<T>(fetch: int -> Result<map<string, Json>>, member: map<string, Json> -> Result<T>,
                     url: string, pageSize: int, offset: int, items: seq<T>)
    returns (page: Result<Page<T>>, gathered: seq<T>)
    ensures page == PageStep(fetch, member, url, pageSize, offset)
    ensures page.Ok? ==> gathered == items + page.value.members
  {
    gathered := items;
    var payload := PageAt(fetch, offset, url);
    if payload.Err? {
      return Err(payload.error), gathered;
    }
    var batch := Collections.EmbeddedElements(payload.value);
    if batch.Err? {
      return Err(batch.error), gathered;
    }
    var appended := AppendMembers(items, batch.value, member);
    if appended.Err? {
      return Err(appended.error), gathered;
    }
    gathered := appended.value;
    page := Ok(Page(MapResult(batch.value, member).value, payload.value, |batch.value| < pageSize));
  }

  /**
   * The paging loop: at most `maxPages` requests at offsets 0, p, 2p, ...,
   * stopping after a page with fewer than `pageSize` dict elements; the items
   * of the pages are gathered in order and `pages` counts the requests.
   */
  method ScanMemberships<T>(fetch: int -> Result<map<string, Json>>, member: map<string, Json> -> Result<T>,
                            url: string, maxPages: int, pageSize: int)
    returns (r: Result<Scan<T>>)
    ensures r == ScanPages(Steps(fetch, member, url, pageSize), maxPages, pageSize, 0)
  {
    ghost var step := Steps(fetch, member, url, pageSize);
    var items: seq<T> := [];
    var last: Option<map<string, Json>> := None;
    var offset := 0;
    var i := 0;
    ghost var left := maxPages;
    ghost var rest := ScanPages(step, maxPages, pageSize, 0);
    ScanBounded(step, maxPages, pageSize, 0);
    ResumeNothing(rest);
    while i < maxPages
      invariant 0 <= i && left == maxPages - i
      invariant rest == ScanPages(step, left, pageSize, offset)
      invariant Resume(items, i, last, rest) == ScanPages(step, maxPages, pageSize, 0)
      decreases maxPages - i
    {
      var page, gathered := ScanPage(fetch, member, url, pageSize, offset, items);
      if page.Err? {
        return Err(page.error);
      }
      if page.value.short {
        return Ok(Scan(gathered, i + 1, Some(page.value.payload)));
      }
      var nextOffset := offset + pageSize;
      ghost var nextLeft := left - 1;
      ghost var next := ScanPages(step, nextLeft, pageSize, nextOffset);
      ScanStep(step, left, pageSize, offset, nextLeft, nextOffset);
      ResumeTwice(items, i, last, page.value.members, 1, page.value.payload, next);
      rest := next;
      i := i + 1;
      left := nextLeft;
      items := gathered;
      last := Some(page.value.payload);
      offset := nextOffset;
    }
    assert items + [] == items;
    r := Ok(Scan(items, i, last));
  }

  /**
   * `total` of the last page read, as the code reads it: when no page was
   * requested the variable was never bound and reading it raises.
   */
  function TotalAsWritten(last: Option<map<string, Json>>): Result<Option<int>>
  {
    if last.None? then Err(UnboundLocalErr) else Ok(AsInt(DictGet(last.value, "total", JNull)))
  }

  /** `total` of the last page read, `None` when no page was requested. */
  function Total(last: Option<map<string, Json>>): (r: Option<int>)
    ensures last.Some? ==> Ok(r) == TotalAsWritten(last)
    ensures last.None? ==> r == None
  {
    if last.None? then None else AsInt(DictGet(last.value, "total", JNull))
  }

  /**
   * With `max_pages` at most 0 no page is requested, so the code as written
   * raises where an empty listing was meant.
   */
  lemma NoPagesNoTotal<T>(fetch: int -> Result<map<string, Json>>, member: map<string, Json> -> Result<T>,
                          url: string, maxPages: int, pageSize: int)
    requires maxPages <= 0
    ensures ScanPages(Steps(fetch, member, url, pageSize), maxPages, pageSize, 0) == Ok(Scan([], 0, None))
    ensures TotalAsWritten(None) == Err(UnboundLocalErr) && Total(None) == None
  {
  }

  // ---- the optional sort ----

  /** `_norm(name or "")` for a name that is a string or falsy. */
  function NameText(name: Json): string
  {
    if name.JStr? then Resolution.NormText(name.s) else ""
  }

  /**
   * `id or 0` as a key part: a truthy string stays a string, and anything
   * else is a number (an int, a bool as 0 or 1, 0 for a falsy id). A truthy
   * list or dict id also reads as 0 here; `IdsCompare` keeps such ids out of
   * every comparison the sort makes.
   */
  function IdPart(id: Json): Sorting.KeyPart
  {
    if id.JStr? && Truthy(id) then Sorting.Txt(id.s)
    else Sorting.Num(if AsInt(id).Some? then AsInt(id).value else 0)
  }

  /** `(_norm(name or ""), id or 0)`. */
  function NameIdKey(name: Json, id: Json): Sorting.Key
  {
    [Sorting.Txt(NameText(name)), IdPart(id)]
  }

  /** `_norm` needs a string: a truthy name that is not one has no `strip`. */
  predicate NameUsable(name: Json)
  {
    !Truthy(name) || name.JStr?
  }

  /** A number once `or 0` has been applied: falsy, an int or a bool. */
  predicate NumericId(id: Json)
  {
    !Truthy(id) || id.JInt? || id.JBool?
  }

  /**
   * Two ids of keys whose names tie can be told apart: Python first tests
   * them with `==`, so equal ids never reach `<`; otherwise both must be
   * numbers or both strings.
   */
  predicate IdsCompare(a: Json, b: Json)
  {
    a == b || (NumericId(a) && NumericId(b)) || (a.JStr? && Truthy(a) && b.JStr? && Truthy(b))
  }

  /**
   * The sort goes through: every key can be computed, and any two items whose
   * normalised names tie have ids that compare. Ids of items whose names
   * differ are never compared.
   */
  predicate Sortable<T>(items: seq<T>, name: T -> Json, id: T -> Json)
  {
    && (forall i :: 0 <= i < |items| ==> NameUsable(name(items[i])))
    && (forall i, j :: 0 <= i < |items| && 0 <= j < |items| && i != j ==>
          NameText(name(items[i])) == NameText(name(items[j])) ==> IdsCompare(id(items[i]), id(items[j])))
  }

  function NameIdOf<T>(name: T -> Json, id: T -> Json): T -> Sorting.Key
  {
    (t: T) => NameIdKey(name(t), id(t))
  }

  lemma NameIdOfApply<T>(name: T -> Json, id: T -> Json, t: T)
    ensures NameIdOf(name, id)(t) == NameIdKey(name(t), id(t))
  {
  }

  /** `items.sort(key=lambda i: (_norm(name(i) or ""), id(i) or 0))`. */
  function SortByNameId<T>(items: seq<T>, name: T -> Json, id: T -> Json): (r: Result<seq<T>>)
    ensures r.Ok? <==> Sortable(items, name, id)
    ensures r.Err? ==> r.error == TypeErr
  {
    if Sortable(items, name, id)
    then Ok(Sorting.SortBy(items, NameIdOf(name, id)))
    else Err(TypeErr)
  }

  /**
   * The sorted list is ordered by (normalised name, id), holds the same
   * items, and keeps items with equal keys in their original order.
   */
  lemma SortByNameIdOrders<T>(items: seq<T>, name: T -> Json, id: T -> Json, k: Sorting.Key)
    requires SortByNameId(items, name, id).Ok?
    ensures var s := SortByNameId(items, name, id).value;
      Sorting.SortedBy(s, NameIdOf(name, id)) && multiset(s) == multiset(items)
      && Sorting.WithKey(s, NameIdOf(name, id), k) == Sorting.WithKey(items, NameIdOf(name, id), k)
  {
    Sorting.SortBySorted(items, NameIdOf(name, id));
    Sorting.SortByPermutes(items, NameIdOf(name, id));
    Sorting.SortByStable(items, NameIdOf(name, id), k);
  }

  /** A single item is never compared: any id sorts, as long as its name is usable. */
  lemma SingleItemSorts<T>(x: T, name: T -> Json, id: T -> Json)
    requires NameUsable(name(x))
    ensures SortByNameId([x], name, id) == Ok([x])
  {
    Sorting.SortBySingleton(x, NameIdOf(name, id));
  }

  /** Ids are compared only on a name tie: different names let any ids through. */
  lemma DistinctNamesSort<T>(x: T, y: T, name: T -> Json, id: T -> Json)
    requires NameUsable(name(x)) && NameUsable(name(y))
    requires NameText(name(x)) != NameText(name(y))
    ensures SortByNameId([x, y], name, id).Ok?
  {
  }

  /** Two string ids on a name tie compare as strings. */
  lemma StringIdsSort<T>(x: T, y: T, name: T -> Json, id: T -> Json)
    requires NameUsable(name(x)) && NameUsable(name(y))
    requires id(x).JStr? && Truthy(id(x)) && id(y).JStr? && Truthy(id(y))
    ensures SortByNameId([x, y], name, id).Ok?
  {
  }

  /** An int id and a string id on a name tie do not compare: the sort raises. */
  lemma MixedIdsOnTieRaise<T>(x: T, y: T, name: T -> Json, id: T -> Json)
    requires NameUsable(name(x)) && NameText(name(x)) == NameText(name(y))
    requires id(x).JInt? && id(x).i != 0 && id(y).JStr? && Truthy(id(y))
    ensures SortByNameId([x, y], name, id) == Err(TypeErr)
  {
    assert [x, y][0] == x && [x, y][1] == y;
    assert !IdsCompare(id([x, y][0]), id([x, y][1]));
  }

  /** A truthy name that is not a string raises when its key is computed. */
  lemma UnusableNameRaises<T>(items: seq<T>, name: T -> Json, id: T -> Json, i: nat)
    requires i < |items| && !NameUsable(name(items[i]))
    ensures SortByNameId(items, name, id) == Err(TypeErr)
  {
  }
}
