/**
 * `get_project_memberships` of the older tool layer: memberships read
 * through `/api/v3/projects/{id}/memberships`, each reduced to its id, its
 * user and its role names, optionally sorted by user name and id.
 *
 * The GET is an oracle: `fetch(request)` is what the client returned for
 * that request. The project argument is resolved first, by the same
 * resolver as the core generation (`CoreMetadata.ResolveProjectIdForTypes`).
 */
module LegacyMemberships {
  import opened Wrappers
  import opened Py
  import opened Text
  import Hal
  import Paging
  import Sorting
  import CoreMetadata
  import Memberships

  /** What `_user_from_membership` returns. */
  datatype User = User(id: Json, name: Json, href: Json)

  /**
   * `_user_from_membership(item)` for a dict item: id and name from the
   * embedded user; the href only from a truthy `_links.user.href`, which
   * also gives the id when the embedded one is `None`; the link title gives
   * the name when the embedded one is `None`. An embedded user or a user
   * link that is not a dict raises.
   */
  function UserFromMembership(item: map<string, Json>): (r: Result<User>)
    ensures r.Ok? ==> r.value.href == JNull || Truthy(r.value.href)
  {
    var emb :- Get(DictGet(item, "_embedded", JDict(map[])), "user", JDict(map[]));
    var link :- Get(DictGet(item, "_links", JDict(map[])), "user", JDict(map[]));
    if !emb.JDict? || !link.JDict? then Err(TypeErr)
    else
      var id := DictGet(emb.fields, "id", JNull);
      var name := DictGet(emb.fields, "name", JNull);
      var href := DictGet(link.fields, "href", JNull);
      var parsed :- if Truthy(href) && id == JNull then Hal.HrefId(href) else Ok(None);
      Ok(User(if Truthy(href) && id == JNull then OptInt(parsed) else id,
              if name == JNull then DictGet(link.fields, "title", JNull) else name,
              if Truthy(href) then href else JNull))
  }

  /** An embedded user with an id and a name keeps them, whatever the link says. */
  lemma EmbeddedUserWins(item: map<string, Json>, u: map<string, Json>)
    requires Get(DictGet(item, "_embedded", JDict(map[])), "user", JDict(map[])) == Ok(JDict(u))
    requires DictGet(u, "id", JNull) != JNull && DictGet(u, "name", JNull) != JNull
    requires UserFromMembership(item).Ok?
    ensures UserFromMembership(item).value.id == u["id"] && UserFromMembership(item).value.name == u["name"]
  {
  }

  /**
   * With an empty embedded user, a link `prefix/users/n` with a title gives
   * the id `n`, the title as name, and the link as href.
   */
  lemma LinkFillsUser(item: map<string, Json>, link: map<string, Json>, prefix: string, n: nat)
    requires Get(DictGet(item, "_embedded", JDict(map[])), "user", JDict(map[])) == Ok(JDict(map[]))
    requires Get(DictGet(item, "_links", JDict(map[])), "user", JDict(map[])) == Ok(JDict(link))
    requires DictGet(link, "href", JNull) == JStr(prefix + "/users/" + NatToString(n))
    ensures UserFromMembership(item)
            == Ok(User(JInt(n), DictGet(link, "title", JNull), JStr(prefix + "/users/" + NatToString(n))))
  {
    var h := prefix + "/users/" + NatToString(n);
    Hal.HrefRoundTrip(prefix + "/users", n);
    assert prefix + "/users" + "/" + NatToString(n) == h;
    assert |h| > 0 by { assert h[|prefix|] == '/'; }
  }

  /** A falsy href is never reported, and the id then comes from the embedded user alone. */
  lemma FalsyHrefIgnored(item: map<string, Json>, link: map<string, Json>, u: map<string, Json>)
    requires Get(DictGet(item, "_embedded", JDict(map[])), "user", JDict(map[])) == Ok(JDict(u))
    requires Get(DictGet(item, "_links", JDict(map[])), "user", JDict(map[])) == Ok(JDict(link))
    requires !Truthy(DictGet(link, "href", JNull))
    ensures UserFromMembership(item).Ok?
    ensures UserFromMembership(item).value.href == JNull && UserFromMembership(item).value.id == DictGet(u, "id", JNull)
  {
  }

  // ---- items ----

  /** One item of the listing. */
  datatype Item = Item(membershipId: Json, userId: Json, userName: Json, userHref: Json, roles: seq<Json>)

  /**
   * The item of one membership dict: its id, its user and its role names,
   * computed in that order (the first that raises aborts the listing).
   */
  function MemberItem(m: map<string, Json>): (r: Result<Item>)
    ensures r.Ok? <==> Memberships.MembershipId(m).Ok? && UserFromMembership(m).Ok? && Memberships.RoleNames(m).Ok?
    ensures r.Ok? ==> var u := UserFromMembership(m).value;
      r.value == Item(Memberships.MembershipId(m).value, u.id, u.name, u.href, Memberships.RoleNames(m).value)
  {
    var id :- Memberships.MembershipId(m);
    var u :- UserFromMembership(m);
    var roles :- Memberships.RoleNames(m);
    Ok(Item(id, u.id, u.name, u.href, roles))
  }

  function UserName(i: Item): Json { i.userName }
  function UserId(i: Item): Json { i.userId }

  /**
   * `items.sort(key=lambda i: (_norm(i.get("user_name") or ""), i.get("user_id") or 0))`:
   * ordered by normalised user name, then user id, stably. A name that is
   * not a string raises, and so do two ids that cannot be ordered on a name tie.
   */
  function SortItems(items: seq<Item>): (r: Result<seq<Item>>)
    ensures r.Ok? ==> multiset(r.value) == multiset(items)
    ensures r.Ok? ==> Sorting.SortedBy(r.value, Memberships.NameIdOf(UserName, UserId))
    ensures r.Ok? <==> Memberships.Sortable(items, UserName, UserId)
  {
    var r := Memberships.SortByNameId(items, UserName, UserId);
    if r.Ok? then Memberships.SortByNameIdOrders(items, UserName, UserId, []); r else r
  }

  // ---- the listing ----

  /** `f"/api/v3/projects/{project_id}/memberships"`. */
  function MembershipsPath(projectId: int): string
  {
    "/api/v3/projects/" + IntToString(projectId) + "/memberships"
  }

  /** The GET for the page at `offset`: no filter, the project is in the path. */
  function PageRequest(projectId: int, offset: int, pageSize: int): (q: Memberships.PageRequest)
    ensures q.path == MembershipsPath(projectId) && q.offset == offset && q.pageSize == pageSize
    ensures q.filters == None
  {
    Memberships.PageRequest(MembershipsPath(projectId), offset, pageSize, None)
  }

  function PageFetch(fetch: Memberships.PageRequest -> Result<map<string, Json>>, projectId: int, pageSize: int)
    : int -> Result<map<string, Json>>
  {
    (offset: int) => fetch(PageRequest(projectId, offset, pageSize))
  }

  /** What the tool returns: `items`, `total`, `scanned` and `pages_scanned`. */
  datatype Listing = Listing(items: seq<Item>, total: Option<int>, scanned: nat, pagesScanned: nat)

  /** The scan of the memberships of project `projectId`, `pageSize` already clamped. */
  function Scanned(fetch: Memberships.PageRequest -> Result<map<string, Json>>, baseUrl: string, projectId: int,
                   pageSize: int, maxPages: int): Result<Memberships.Scan<Item>>
  {
    Memberships.ScanPages(Memberships.Steps(PageFetch(fetch, projectId, pageSize), MemberItem,
                                            baseUrl + MembershipsPath(projectId), pageSize),
                          maxPages, pageSize, 0)
  }

  /**
   * `get_project_memberships`: resolve the project, clamp the page size,
   * scan, optionally sort, and report the `total` of the last page read
   * (`None` when no page was read).
   */
  function MembershipListing(project: CoreMetadata.ProjectArg, projects: Result<seq<CoreMetadata.ProjectRef>>,
                             fetch: Memberships.PageRequest -> Result<map<string, Json>>, baseUrl: string,
                             pageSize: int, maxPages: int, sort: bool): Result<Listing>
  {
    var projectId :- CoreMetadata.ResolveProjectIdForTypes(project, projects);
    var scan :- Scanned(fetch, baseUrl, projectId, Paging.ClampPageSize(pageSize), maxPages);
    var items :- if sort then SortItems(scan.items) else Ok(scan.items);
    Ok(Listing(items, Memberships.Total(scan.last), |items|, scan.pages))
  }

  /**
   * `get_project_memberships` as written: `total` is read from `payload`,
   * which only the loop binds, so with `max_pages` at most 0 the read raises.
   */
  function MembershipListingAsWritten(project: CoreMetadata.ProjectArg, projects: Result<seq<CoreMetadata.ProjectRef>>,
                                      fetch: Memberships.PageRequest -> Result<map<string, Json>>, baseUrl: string,
                                      pageSize: int, maxPages: int, sort: bool): Result<Listing>
  {
    var projectId :- CoreMetadata.ResolveProjectIdForTypes(project, projects);
    var scan :- Scanned(fetch, baseUrl, projectId, Paging.ClampPageSize(pageSize), maxPages);
    var items :- if sort then SortItems(scan.items) else Ok(scan.items);
    var total :- Memberships.TotalAsWritten(scan.last);
    Ok(Listing(items, total, |items|, scan.pages))
  }

  /**
   * With `max_pages` at most 0 the code as written raises `UnboundLocalError`
   * where the intended listing is empty; with at least one page allowed the
   * two agree.
   */
  lemma {:induction false} NoPagesRaisesAsWritten(project: CoreMetadata.ProjectArg,
                                                  projects: Result<seq<CoreMetadata.ProjectRef>>,
                                                  fetch: Memberships.PageRequest -> Result<map<string, Json>>,
                                                  baseUrl: string, pageSize: int, maxPages: int, sort: bool)
    requires CoreMetadata.ResolveProjectIdForTypes(project, projects).Ok?
    ensures maxPages <= 0 ==>
              MembershipListingAsWritten(project, projects, fetch, baseUrl, pageSize, maxPages, sort) == Err(UnboundLocalErr)
              && MembershipListing(project, projects, fetch, baseUrl, pageSize, maxPages, sort) == Ok(Listing([], None, 0, 0))
    ensures maxPages > 0 ==>
              MembershipListingAsWritten(project, projects, fetch, baseUrl, pageSize, maxPages, sort)
              == MembershipListing(project, projects, fetch, baseUrl, pageSize, maxPages, sort)
  {
    var projectId := CoreMetadata.ResolveProjectIdForTypes(project, projects).value;
    var ps := Paging.ClampPageSize(pageSize);
    Memberships.ScanBounded(Memberships.Steps(PageFetch(fetch, projectId, ps), MemberItem,
                                              baseUrl + MembershipsPath(projectId), ps),
                            maxPages, ps, 0);
    if maxPages <= 0 && sort {
      assert Sorting.SortBy([], Memberships.NameIdOf(UserName, UserId)) == [];
    }
  }

  /**
   * The listing's counters: `scanned` counts the items, at most `max_pages`
   * requests are made and at least one when any is allowed, and `total` is
   * only read from a page that was read.
   */
  lemma ListingCounts(project: CoreMetadata.ProjectArg, projects: Result<seq<CoreMetadata.ProjectRef>>,
                      fetch: Memberships.PageRequest -> Result<map<string, Json>>, baseUrl: string,
                      pageSize: int, maxPages: int, sort: bool)
    requires MembershipListing(project, projects, fetch, baseUrl, pageSize, maxPages, sort).Ok?
    ensures var l := MembershipListing(project, projects, fetch, baseUrl, pageSize, maxPages, sort).value;
      l.scanned == |l.items| && l.pagesScanned <= (if maxPages > 0 then maxPages else 0)
      && (maxPages > 0 <==> l.pagesScanned > 0)
      && (l.total.Some? ==> l.pagesScanned > 0)
  {
    var projectId := CoreMetadata.ResolveProjectIdForTypes(project, projects).value;
    var ps := Paging.ClampPageSize(pageSize);
    Memberships.ScanBounded(Memberships.Steps(PageFetch(fetch, projectId, ps), MemberItem,
                                              baseUrl + MembershipsPath(projectId), ps),
                            maxPages, ps, 0);
  }

  /**
   * With `sort=True` the items are those of the unsorted listing, ordered by
   * (normalised user name, user id); the counters are unchanged.
   */
  lemma SortedListingOrders(project: CoreMetadata.ProjectArg, projects: Result<seq<CoreMetadata.ProjectRef>>,
                            fetch: Memberships.PageRequest -> Result<map<string, Json>>, baseUrl: string,
                            pageSize: int, maxPages: int)
    requires MembershipListing(project, projects, fetch, baseUrl, pageSize, maxPages, true).Ok?
    ensures MembershipListing(project, projects, fetch, baseUrl, pageSize, maxPages, false).Ok?
    ensures var s := MembershipListing(project, projects, fetch, baseUrl, pageSize, maxPages, true).value;
            var u := MembershipListing(project, projects, fetch, baseUrl, pageSize, maxPages, false).value;
      multiset(s.items) == multiset(u.items) && s.total == u.total && s.pagesScanned == u.pagesScanned
      && Sorting.SortedBy(s.items, Memberships.NameIdOf(UserName, UserId))
  {
  }

  /** The tool as it runs: the scan is the paging loop, the rest is straight-line. */
  method GetProjectMemberships(project: CoreMetadata.ProjectArg, projects: Result<seq<CoreMetadata.ProjectRef>>,
                               fetch: Memberships.PageRequest -> Result<map<string, Json>>, baseUrl: string,
                               pageSize: int, maxPages: int, sort: bool)
    returns (r: Result<Listing>)
    ensures r == MembershipListing(project, projects, fetch, baseUrl, pageSize, maxPages, sort)
  {
    var projectId := CoreMetadata.ResolveProjectIdForTypes(project, projects);
    if projectId.Err? {
      return Err(projectId.error);
    }
    var ps := Paging.ClampPageSize(pageSize);
    var scan := Memberships.ScanMemberships(PageFetch(fetch, projectId.value, ps), MemberItem,
                                            baseUrl + MembershipsPath(projectId.value), maxPages, ps);
    if scan.Err? {
      return Err(scan.error);
    }
    var items := scan.value.items;
    if sort {
      var sorted := SortItems(items);
      if sorted.Err? {
        return Err(sorted.error);
      }
      items := sorted.value;
    }
    r := Ok(Listing(items, Memberships.Total(scan.value.last), |items|, scan.value.pages));
  }
}
