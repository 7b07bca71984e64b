/**
 * `get_project_memberships` of the core tool layer: memberships of a
 * project, read through the filtered `/api/v3/memberships` listing, each
 * reduced to its id, its principal (user or group) and its role names.
 *
 * The GET is an oracle: `fetch(request)` is what the client returned for
 * that request. The project argument is resolved first, as in
 * `CoreMetadata.ResolveProjectIdForTypes`, with `projects` the listing page
 * that resolver reads.
 */
module CoreMemberships {
  import opened Wrappers
  import opened Py
  import opened Text
  import Hal
  import Paging
  import Sorting
  import Resolution
  import CoreMetadata
  import Memberships

  const MembershipsPath := "/api/v3/memberships"

  /** What `_principal_from_membership` returns; `kind` is its "type" ("User", "Group" or `None`). */
  datatype Principal = Principal(id: Json, name: Json, href: Json, kind: Option<string>)

  /** The crude type inference from the path: "/users/" wins over "/groups/". */
  function KindOfHref(href: string): (r: Option<string>)
    ensures r.Some? <==> Contains(href, "/users/") || Contains(href, "/groups/")
    ensures r == Some("Group") <==> !Contains(href, "/users/") && Contains(href, "/groups/")
  {
    if Contains(href, "/users/") then Some("User")
    else if Contains(href, "/groups/") then Some("Group")
    else None
  }

  /**
   * What the principal link alone gives: its href and title, the id parsed
   * from a truthy href (a truthy non-string raises), and the type inferred
   * from it.
   */
  function FromLink(link: Json): (r: Result<Principal>)
    ensures r.Ok? ==> link.JDict? && r.value.href == DictGet(link.fields, "href", JNull)
                      && r.value.name == DictGet(link.fields, "title", JNull)
    ensures r.Ok? && !Truthy(r.value.href) ==> r.value.id == JNull && r.value.kind == None
  {
    if !link.JDict? then Err(TypeErr)
    else
      var href := DictGet(link.fields, "href", JNull);
      var name := DictGet(link.fields, "title", JNull);
      var id :- Hal.HrefId(href);
      Ok(Principal(OptInt(id), name, href, if Truthy(href) && href.JStr? then KindOfHref(href.s) else None))
  }

  /** `links.get("self", {}).get("href")`. */
  function SelfHref(links: Json): Result<Json>
  {
    var self :- Get(links, "self", JDict(map[]));
    Get(self, "href", JNull)
  }

  /**
   * The fallback to `_embedded.user` when the link had no href or no title:
   * a user dict fills the id, name and href that are still `None` (the href
   * only from a truthy `_links`), and the type "User" when none was
   * inferred and the user dict is not empty. A user that is not a dict
   * changes nothing.
   */
  function FillFromUser(item: map<string, Json>, p: Principal): (r: Result<Principal>)
    ensures r.Ok? ==> (p.id != JNull ==> r.value.id == p.id) && (p.name != JNull ==> r.value.name == p.name)
                      && (p.href != JNull ==> r.value.href == p.href) && (p.kind.Some? ==> r.value.kind == p.kind)
  {
    var user :- Get(DictGet(item, "_embedded", JDict(map[])), "user", JDict(map[]));
    if !user.JDict? then Ok(p)
    else
      var u := user.fields;
      var links := DictGet(u, "_links", JDict(map[]));
      var href :- if p.href == JNull && Truthy(links) then SelfHref(links) else Ok(p.href);
      Ok(Principal(if p.id == JNull then DictGet(u, "id", JNull) else p.id,
                   if p.name == JNull then DictGet(u, "name", JNull) else p.name,
                   href,
                   if p.kind.None? then (if |u| > 0 then Some("User") else None) else p.kind))
  }

  /** `_principal_from_membership(item)` for a dict item. */
  function PrincipalFromMembership(item: map<string, Json>): Result<Principal>
  {
    var link :- Get(DictGet(item, "_links", JDict(map[])), "principal", JDict(map[]));
    var p :- FromLink(link);
    if p.href == JNull || p.name == JNull then FillFromUser(item, p) else Ok(p)
  }

  /**
   * The embedded user only fills gaps: whatever the principal link already
   * gave (href, title, parsed id, inferred type) is kept.
   */
  lemma LinkFieldsKept(item: map<string, Json>, link: Json)
    requires Get(DictGet(item, "_links", JDict(map[])), "principal", JDict(map[])) == Ok(link)
    requires PrincipalFromMembership(item).Ok?
    ensures FromLink(link).Ok?
    ensures var p := FromLink(link).value; var r := PrincipalFromMembership(item).value;
      (p.id != JNull ==> r.id == p.id) && (p.name != JNull ==> r.name == p.name)
      && (p.href != JNull ==> r.href == p.href) && (p.kind.Some? ==> r.kind == p.kind)
  {
  }

  /**
   * A principal link with a non-empty string href and a title decides the
   * principal alone: `_embedded` is not read (whatever it holds).
   */
  lemma LinkWithTitleDecides(item: map<string, Json>, link: map<string, Json>, h: string)
    requires Get(DictGet(item, "_links", JDict(map[])), "principal", JDict(map[])) == Ok(JDict(link))
    requires DictGet(link, "href", JNull) == JStr(h) && h != ""
    requires DictGet(link, "title", JNull) != JNull
    ensures PrincipalFromMembership(item)
            == Ok(Principal(OptInt(Hal.ParseIdFromHref(Some(h))), DictGet(link, "title", JNull), JStr(h), KindOfHref(h)))
  {
  }

  /** A user href `prefix/users/n` gives the id `n` and the type "User". */
  lemma UserHref(prefix: string, n: nat)
    ensures var h := prefix + "/users/" + NatToString(n);
      Hal.ParseIdFromHref(Some(h)) == Some(n) && KindOfHref(h) == Some("User")
  {
    var d := NatToString(n);
    Hal.HrefRoundTrip(prefix + "/users", n);
    assert prefix + "/users" + "/" + d == prefix + "/users/" + d;
    ContainsSelf("/users/");
    ContainsInLonger("/users/", "/users/", prefix, d);
  }

  /** A group href `prefix/groups/n` gives the id `n` and the type "Group", unless it also has "/users/". */
  lemma GroupHref(prefix: string, n: nat)
    requires !Contains(prefix + "/groups/" + NatToString(n), "/users/")
    ensures var h := prefix + "/groups/" + NatToString(n);
      Hal.ParseIdFromHref(Some(h)) == Some(n) && KindOfHref(h) == Some("Group")
  {
    var d := NatToString(n);
    Hal.HrefRoundTrip(prefix + "/groups", n);
    assert prefix + "/groups" + "/" + d == prefix + "/groups/" + d;
    ContainsSelf("/groups/");
    ContainsInLonger("/groups/", "/groups/", prefix, d);
  }

  /**
   * Without a principal link the embedded user is the principal: its id,
   * name, self href, and the type "User" when it is not empty.
   */
  lemma EmbeddedUserOnly(item: map<string, Json>, u: map<string, Json>)
    requires "_links" !in item
    requires Get(DictGet(item, "_embedded", JDict(map[])), "user", JDict(map[])) == Ok(JDict(u))
    requires !Truthy(DictGet(u, "_links", JDict(map[])))
    ensures PrincipalFromMembership(item)
            == Ok(Principal(DictGet(u, "id", JNull), DictGet(u, "name", JNull), JNull,
                            if |u| > 0 then Some("User") else None))
  {
    assert Get(DictGet(item, "_links", JDict(map[])), "principal", JDict(map[])) == Ok(JDict(map[]));
    assert FromLink(JDict(map[])) == Ok(Principal(JNull, JNull, JNull, None));
  }

  // ---- items ----

  /** One item of the listing. */
  datatype Item = Item(membershipId: Json, principalId: Json, principalName: Json, principalHref: Json,
                       principalType: Option<string>, roles: seq<Json>)

  /**
   * The item of one membership dict: its id, its principal and its role
   * names, computed in that order (the first that raises aborts the listing).
   */
  function MemberItem(m: map<string, Json>): (r: Result<Item>)
    ensures r.Ok? <==> Memberships.MembershipId(m).Ok? && PrincipalFromMembership(m).Ok? && Memberships.RoleNames(m).Ok?
    ensures r.Ok? ==> var p := PrincipalFromMembership(m).value;
      r.value == Item(Memberships.MembershipId(m).value, p.id, p.name, p.href, p.kind, Memberships.RoleNames(m).value)
  {
    var id :- Memberships.MembershipId(m);
    var p :- PrincipalFromMembership(m);
    var roles :- Memberships.RoleNames(m);
    Ok(Item(id, p.id, p.name, p.href, p.kind, roles))
  }

  function PrincipalName(i: Item): Json { i.principalName }
  function PrincipalId(i: Item): Json { i.principalId }

  // ---- the sort ----

  /**
   * The sort key as written: it reads `user_name` and `user_id`, which the
   * items of this generation do not have, so every key is `("", 0)`.
   */
  function SortKeyAsWritten(i: Item): Sorting.Key
  {
    Memberships.NameIdKey(JNull, JNull)
  }

  /** As written, `sort=True` leaves the items in the order they were read. */
  lemma SortAsWrittenKeepsOrder(items: seq<Item>)
    ensures Sorting.SortBy(items, SortKeyAsWritten) == items
  {
    Sorting.SortByConstantKey(items, SortKeyAsWritten, Memberships.NameIdKey(JNull, JNull));
  }

  /** The sort by principal name, then principal id, that `sort=True` is for. */
  function SortItems(items: seq<Item>): (r: Result<seq<Item>>)
    ensures r.Ok? ==> multiset(r.value) == multiset(items)
    ensures r.Ok? ==> Sorting.SortedBy(r.value, Memberships.NameIdOf(PrincipalName, PrincipalId))
  {
    var r := Memberships.SortByNameId(items, PrincipalName, PrincipalId);
    if r.Ok? then Memberships.SortByNameIdOrders(items, PrincipalName, PrincipalId, []); r else r
  }

  /**
   * Two members read as "b" then "a": as written the sort keeps them in that
   * order; by principal name they swap.
   */
  lemma SortIgnoresNames()
    ensures var b := Item(JInt(1), JInt(1), JStr("b"), JNull, Some("User"), []);
            var a := Item(JInt(2), JInt(2), JStr("a"), JNull, Some("User"), []);
      Sorting.SortBy([b, a], SortKeyAsWritten) == [b, a] && SortItems([b, a]) == Ok([a, b])
  {
    var b := Item(JInt(1), JInt(1), JStr("b"), JNull, Some("User"), []);
    var a := Item(JInt(2), JInt(2), JStr("a"), JNull, Some("User"), []);
    SortAsWrittenKeepsOrder([b, a]);
    NameAfterName(b, a, "b", "a");
    Sorting.SortPairSwaps(b, a, Memberships.NameIdOf(PrincipalName, PrincipalId));
    assert [b, a][0] == b && [b, a][1] == a;
  }

  /** An item named "b" does not sort before or beside one named "a". */
  lemma NameAfterName(b: Item, a: Item, nb: string, na: string)
    requires nb == "b" && na == "a"
    requires a.principalName == JStr(na) && b.principalName == JStr(nb)
    ensures !Sorting.KeyLe(Memberships.NameIdOf(PrincipalName, PrincipalId)(b),
                           Memberships.NameIdOf(PrincipalName, PrincipalId)(a))
  {
    Resolution.NormWord(na, na);
    Resolution.NormWord(nb, nb);
    var ka := Memberships.NameIdOf(PrincipalName, PrincipalId)(a);
    var kb := Memberships.NameIdOf(PrincipalName, PrincipalId)(b);
    Memberships.NameIdOfApply(PrincipalName, PrincipalId, a);
    Memberships.NameIdOfApply(PrincipalName, PrincipalId, b);
    assert ka[0] == Sorting.Txt(na) && kb[0] == Sorting.Txt(nb);
    assert !Sorting.StrLt(nb, na);
  }

  // ---- the listing ----

  /** `json.dumps([{"project": {"operator": "=", "values": [str(project_id)]}}])`. */
  function ProjectFilter(projectId: int): string
  {
    "[{\"project\": {\"operator\": \"=\", \"values\": [\"" + IntToString(projectId) + "\"]}}]"
  }

  /** The GET for the page at `offset`. */
  function PageRequest(projectId: int, offset: int, pageSize: int): (q: Memberships.PageRequest)
    ensures q.path == MembershipsPath && q.offset == offset && q.pageSize == pageSize
    ensures q.filters == Some(ProjectFilter(projectId))
  {
    Memberships.PageRequest(MembershipsPath, offset, pageSize, Some(ProjectFilter(projectId)))
  }

  function PageFetch(fetch: Memberships.PageRequest -> Result<map<string, Json>>, projectId: int, pageSize: int)
    : int -> Result<map<string, Json>>
  {
    (offset: int) => fetch(PageRequest(projectId, offset, pageSize))
  }

  /** What the tool returns: `items`, `total`, `scanned` and `pages_scanned`. */
  datatype Listing = Listing(items: seq<Item>, total: Option<int>, scanned: nat, pagesScanned: nat)

  /** The scan of the memberships of project `projectId`, `pageSize` already clamped. */
  function Scanned(fetch: Memberships.PageRequest -> Result<map<string, Json>>, baseUrl: string, projectId: int,
                   pageSize: int, maxPages: int): Result<Memberships.Scan<Item>>
  {
    Memberships.ScanPages(Memberships.Steps(PageFetch(fetch, projectId, pageSize), MemberItem, baseUrl + MembershipsPath,
                                            pageSize),
                          maxPages, pageSize, 0)
  }

  /**
   * `get_project_memberships`: resolve the project, clamp the page size,
   * scan, optionally sort by principal, and report the `total` of the last
   * page read (`None` when no page was read).
   */
  function MembershipListing(project: CoreMetadata.ProjectArg, projects: Result<seq<CoreMetadata.ProjectRef>>,
                             fetch: Memberships.PageRequest -> Result<map<string, Json>>, baseUrl: string,
                             pageSize: int, maxPages: int, sort: bool): Result<Listing>
  {
    var projectId :- CoreMetadata.ResolveProjectIdForTypes(project, projects);
    var scan :- Scanned(fetch, baseUrl, projectId, Paging.ClampPageSize(pageSize), maxPages);
    var items :- if sort then SortItems(scan.items) else Ok(scan.items);
    Ok(Listing(items, Memberships.Total(scan.last), |items|, scan.pages))
  }

  /**
   * The listing's counters: `scanned` counts the items, at most `max_pages`
   * requests are made and at least one when any is allowed, and `total` is
   * only read from a page that was read.
   */
  lemma ListingCounts(project: CoreMetadata.ProjectArg, projects: Result<seq<CoreMetadata.ProjectRef>>,
                      fetch: Memberships.PageRequest -> Result<map<string, Json>>, baseUrl: string,
                      pageSize: int, maxPages: int, sort: bool)
    requires MembershipListing(project, projects, fetch, baseUrl, pageSize, maxPages, sort).Ok?
    ensures var l := MembershipListing(project, projects, fetch, baseUrl, pageSize, maxPages, sort).value;
      l.scanned == |l.items| && l.pagesScanned <= (if maxPages > 0 then maxPages else 0)
      && (maxPages > 0 <==> l.pagesScanned > 0)
      && (l.total.Some? ==> l.pagesScanned > 0)
  {
    var projectId := CoreMetadata.ResolveProjectIdForTypes(project, projects).value;
    var ps := Paging.ClampPageSize(pageSize);
    Memberships.ScanBounded(Memberships.Steps(PageFetch(fetch, projectId, ps), MemberItem, baseUrl + MembershipsPath, ps),
                            maxPages, ps, 0);
  }

  /** Sorting reorders the items of the unsorted listing and nothing else. */
  lemma SortedListingPermutes(project: CoreMetadata.ProjectArg, projects: Result<seq<CoreMetadata.ProjectRef>>,
                              fetch: Memberships.PageRequest -> Result<map<string, Json>>, baseUrl: string,
                              pageSize: int, maxPages: int)
    requires MembershipListing(project, projects, fetch, baseUrl, pageSize, maxPages, true).Ok?
    ensures MembershipListing(project, projects, fetch, baseUrl, pageSize, maxPages, false).Ok?
    ensures var s := MembershipListing(project, projects, fetch, baseUrl, pageSize, maxPages, true).value;
            var u := MembershipListing(project, projects, fetch, baseUrl, pageSize, maxPages, false).value;
      multiset(s.items) == multiset(u.items) && s.total == u.total && s.pagesScanned == u.pagesScanned
      && Sorting.SortedBy(s.items, Memberships.NameIdOf(PrincipalName, PrincipalId))
  {
  }

  /** With `max_pages` at most 0 nothing is requested and the listing is empty. */
  lemma NoPagesEmptyListing(project: CoreMetadata.ProjectArg, projects: Result<seq<CoreMetadata.ProjectRef>>,
                            fetch: Memberships.PageRequest -> Result<map<string, Json>>, baseUrl: string,
                            pageSize: int, maxPages: int, sort: bool)
    requires maxPages <= 0 && CoreMetadata.ResolveProjectIdForTypes(project, projects).Ok?
    ensures MembershipListing(project, projects, fetch, baseUrl, pageSize, maxPages, sort) == Ok(Listing([], None, 0, 0))
  {
    if sort {
      assert Sorting.SortBy([], Memberships.NameIdOf(PrincipalName, PrincipalId)) == [];
    }
  }

  /** The tool as it runs: the scan is the paging loop, the rest is straight-line. */
  method GetProjectMemberships(project: CoreMetadata.ProjectArg, projects: Result<seq<CoreMetadata.ProjectRef>>,
                               fetch: Memberships.PageRequest -> Result<map<string, Json>>, baseUrl: string,
                               pageSize: int, maxPages: int, sort: bool)
    returns (r: Result<Listing>)
    ensures r == MembershipListing(project, projects, fetch, baseUrl, pageSize, maxPages, sort)
  {
    var projectId := CoreMetadata.ResolveProjectIdForTypes(project, projects);
    if projectId.Err? {
      return Err(projectId.error);
    }
    var ps := Paging.ClampPageSize(pageSize);
    var scan := Memberships.ScanMemberships(PageFetch(fetch, projectId.value, ps), MemberItem,
                                            baseUrl + MembershipsPath, maxPages, ps);
    if scan.Err? {
      return Err(scan.error);
    }
    var items := scan.value.items;
    if sort {
      var sorted := SortItems(items);
      if sorted.Err? {
        return Err(sorted.error);
      }
      items := sorted.value;
    }
    r := Ok(Listing(items, Memberships.Total(scan.value.last), |items|, scan.value.pages));
  }
}
