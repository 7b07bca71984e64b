/**
 * The name resolvers of the current metadata tools: a reference item
 * (type, status, priority), a project or a user is found by an exact pass,
 * then a substring pass; the project resolver used for type lookups; the
 * scoped type listing with its fall-back to the global list; the bounded
 * paginated fetch; and the error mapping of the user resolver.
 *
 * Fetches are oracles: `fetch(offset)` is what one page request returns once
 * its `_embedded.elements` have been validated into reference items.
 */
module CoreMetadata {
  import opened Wrappers
  import opened Text
  import opened Py
  import opened Sorting
  import opened Lists
  import opened Resolution

  /** A type, status or priority reference. */
  datatype NamedRef = NamedRef(id: int, name: string)

  datatype ProjectRef = ProjectRef(id: int, name: string, identifier: Option<string>)

  datatype UserRef = UserRef(id: int, name: string, login: Option<string>, mail: Option<string>)

  /** A project argument: `int | str`. */
  datatype ProjectArg = ById(n: int) | ByText(s: string)

  /** Page size of the project and user listings (`MAX_PROJECT_PAGE_SIZE`). */
  const MaxProjectPageSize := 200

  /** `_norm`: trim and casefold, with `None` read as the empty string. */
  function Norm(s: Option<string>): string
  {
    NormText(s.GetOr(""))
  }

  // ---- accessors handed to the shared substring pass ----

  function NamedId(t: NamedRef): int { t.id }
  function NamedName(t: NamedRef): string { t.name }
  function ProjectId(p: ProjectRef): int { p.id }
  function ProjectName(p: ProjectRef): string { p.name }
  function UserId(u: UserRef): int { u.id }
  function UserName(u: UserRef): string { u.name }

  // ---- `_resolve_from_items` ----

  predicate NameIs(t: NamedRef, q: string) { Norm(Some(t.name)) == q }

  predicate NameHas(t: NamedRef, q: string) { Contains(Norm(Some(t.name)), q) }

  /** `_resolve_from_items(name_query, items)`. */
  function ResolveFromItems(query: string, items: seq<NamedRef>): Result<int>
  {
    var q := Norm(Some(query));
    match FirstIndex(items, (t: NamedRef) => NameIs(t, q))
    case Some(k) => Ok(items[k].id)
    case None => Conclude(query, items, Filter(items, (t: NamedRef) => NameHas(t, q)), NamedId, NamedName)
  }

  /**
   * The exact pass wins: the first item whose normalised name equals the
   * normalised query is the answer, whatever other items contain the query.
   */
  lemma ExactNameWins(query: string, items: seq<NamedRef>, k: nat)
    requires k < |items| && NameIs(items[k], Norm(Some(query)))
    requires forall j :: 0 <= j < k ==> !NameIs(items[j], Norm(Some(query)))
    ensures ResolveFromItems(query, items) == Ok(items[k].id)
  {
    var q := Norm(Some(query));
    var f := FirstIndex(items, (t: NamedRef) => NameIs(t, q));
    assert f.Some? && f.value == k;
  }

  /** With no exact hit, a single item containing the query is the answer. */
  lemma UniqueSubstringWins(query: string, items: seq<NamedRef>, k: nat)
    requires forall j :: 0 <= j < |items| ==> !NameIs(items[j], Norm(Some(query)))
    requires k < |items| && NameHas(items[k], Norm(Some(query)))
    requires forall j :: 0 <= j < |items| && j != k ==> !NameHas(items[j], Norm(Some(query)))
    ensures ResolveFromItems(query, items) == Ok(items[k].id)
  {
    var q := Norm(Some(query));
    FilterOne(items, (t: NamedRef) => NameHas(t, q), k);
  }

  /**
   * With no exact hit, the ambiguity error lists the names of exactly the
   * items that contain the query, ordered by `(norm(name), id)`; the
   * not-found error lists every name ordered by `norm(name)`.
   */
  lemma ResolveFromItemsErrors(query: string, items: seq<NamedRef>)
    requires forall j :: 0 <= j < |items| ==> !NameIs(items[j], Norm(Some(query)))
    ensures var r := ResolveFromItems(query, items);
      var matches := Filter(items, (t: NamedRef) => NameHas(t, Norm(Some(query))));
      && (|matches| > 1 ==>
            r == Err(AmbiguousErr(query, Candidates(matches, NamedId, NamedName)))
            && multiset(r.error.candidates) == multiset(Map(matches, NamedName)))
      && (|matches| == 0 ==>
            r.Err? && r.error.NotFoundErr? && r.error.query == query
            && SortedBy(r.error.available, NameKey)
            && multiset(r.error.available) == multiset(Map(items, NamedName)))
  {
    var q := Norm(Some(query));
    assert FirstIndex(items, (t: NamedRef) => NameIs(t, q)).None?;
    var matches := Filter(items, (t: NamedRef) => NameHas(t, q));
    assert ResolveFromItems(query, items) == Conclude(query, items, matches, NamedId, NamedName);
    CandidatesSorted(matches, NamedId, NamedName);
    AvailableSorted(items, NamedName);
  }

  /** An id returned by the resolver belongs to an item that matched. */
  lemma ResolveFromItemsSound(query: string, items: seq<NamedRef>)
    requires ResolveFromItems(query, items).Ok?
    ensures exists k :: 0 <= k < |items| && items[k].id == ResolveFromItems(query, items).value
              && NameHas(items[k], Norm(Some(query)))
  {
    var q := Norm(Some(query));
    match FirstIndex(items, (t: NamedRef) => NameIs(t, q))
    case Some(k) =>
      ContainsSelf(Norm(Some(items[k].name)));
    case None =>
      var matches := Filter(items, (t: NamedRef) => NameHas(t, q));
      FilterMembers(items, (t: NamedRef) => NameHas(t, q));
      assert matches[0] in items;
  }

  /** An empty query is contained in every name, so every item is a partial match. */
  lemma EmptyQueryMatchesAll(query: string, items: seq<NamedRef>)
    requires Norm(Some(query)) == ""
    ensures Filter(items, (t: NamedRef) => NameHas(t, Norm(Some(query)))) == items
  {
    forall i | 0 <= i < |items| ensures NameHas(items[i], "") {
      ContainsEmpty(Norm(Some(items[i].name)));
    }
    FilterAll(items, (t: NamedRef) => NameHas(t, Norm(Some(query))));
  }

  // ---- `_resolve_project_from_items` ----

  predicate IdentifierIs(p: ProjectRef, q: string) { Norm(p.identifier) == q }

  predicate ProjectNameIs(p: ProjectRef, q: string) { Norm(Some(p.name)) == q }

  predicate ProjectHas(p: ProjectRef, q: string)
  {
    Contains(Norm(p.identifier), q) || Contains(Norm(Some(p.name)), q)
  }

  /** `_resolve_project_from_items(query, items)`. */
  function ResolveProjectFromItems(query: string, items: seq<ProjectRef>): Result<int>
  {
    var q := Norm(Some(query));
    match FirstIndex(items, (p: ProjectRef) => IdentifierIs(p, q))
    case Some(k) => Ok(items[k].id)
    case None =>
      match FirstIndex(items, (p: ProjectRef) => ProjectNameIs(p, q))
      case Some(k) => Ok(items[k].id)
      case None => Conclude(query, items, Filter(items, (p: ProjectRef) => ProjectHas(p, q)), ProjectId, ProjectName)
  }

  /**
   * The identifier pass runs first: the first project whose identifier
   * matches wins even when an earlier project's name matches exactly.
   */
  lemma IdentifierBeforeName(query: string, items: seq<ProjectRef>, k: nat)
    requires k < |items| && IdentifierIs(items[k], Norm(Some(query)))
    requires forall j :: 0 <= j < k ==> !IdentifierIs(items[j], Norm(Some(query)))
    ensures ResolveProjectFromItems(query, items) == Ok(items[k].id)
  {
    var q := Norm(Some(query));
    var f := FirstIndex(items, (p: ProjectRef) => IdentifierIs(p, q));
    assert f.Some? && f.value == k;
  }

  /** Without an identifier hit, the first exact name wins. */
  lemma ProjectNameExactWins(query: string, items: seq<ProjectRef>, k: nat)
    requires forall j :: 0 <= j < |items| ==> !IdentifierIs(items[j], Norm(Some(query)))
    requires k < |items| && ProjectNameIs(items[k], Norm(Some(query)))
    requires forall j :: 0 <= j < k ==> !ProjectNameIs(items[j], Norm(Some(query)))
    ensures ResolveProjectFromItems(query, items) == Ok(items[k].id)
  {
    var q := Norm(Some(query));
    assert FirstIndex(items, (p: ProjectRef) => IdentifierIs(p, q)).None?;
    var f := FirstIndex(items, (p: ProjectRef) => ProjectNameIs(p, q));
    assert f.Some? && f.value == k;
  }

  /** The substring pass accepts a hit in the identifier alone. */
  lemma IdentifierSubstringWins(query: string, items: seq<ProjectRef>, k: nat)
    requires forall j :: 0 <= j < |items| ==> !IdentifierIs(items[j], Norm(Some(query))) && !ProjectNameIs(items[j], Norm(Some(query)))
    requires k < |items| && Contains(Norm(items[k].identifier), Norm(Some(query)))
    requires forall j :: 0 <= j < |items| && j != k ==> !ProjectHas(items[j], Norm(Some(query)))
    ensures ResolveProjectFromItems(query, items) == Ok(items[k].id)
  {
    var q := Norm(Some(query));
    assert FirstIndex(items, (p: ProjectRef) => IdentifierIs(p, q)).None?;
    assert FirstIndex(items, (p: ProjectRef) => ProjectNameIs(p, q)).None?;
    FilterOne(items, (p: ProjectRef) => ProjectHas(p, q), k);
  }

  /** Ambiguity and not-found errors of the project resolver. */
  lemma ResolveProjectErrors(query: string, items: seq<ProjectRef>)
    requires forall j :: 0 <= j < |items| ==> !IdentifierIs(items[j], Norm(Some(query))) && !ProjectNameIs(items[j], Norm(Some(query)))
    ensures var r := ResolveProjectFromItems(query, items);
      var matches := Filter(items, (p: ProjectRef) => ProjectHas(p, Norm(Some(query))));
      && (|matches| > 1 ==>
            r == Err(AmbiguousErr(query, Candidates(matches, ProjectId, ProjectName)))
            && multiset(r.error.candidates) == multiset(Map(matches, ProjectName)))
      && (|matches| == 0 ==>
            r.Err? && r.error.NotFoundErr? && r.error.query == query
            && SortedBy(r.error.available, NameKey)
            && multiset(r.error.available) == multiset(Map(items, ProjectName)))
  {
    var q := Norm(Some(query));
    assert FirstIndex(items, (p: ProjectRef) => IdentifierIs(p, q)).None?;
    assert FirstIndex(items, (p: ProjectRef) => ProjectNameIs(p, q)).None?;
    var matches := Filter(items, (p: ProjectRef) => ProjectHas(p, q));
    assert ResolveProjectFromItems(query, items) == Conclude(query, items, matches, ProjectId, ProjectName);
    CandidatesSorted(matches, ProjectId, ProjectName);
    AvailableSorted(items, ProjectName);
  }

  // ---- `_resolve_user_from_items` ----

  predicate UserNameIs(u: UserRef, q: string) { Norm(Some(u.name)) == q }

  /** `any(q in f for f in fields(u) if f)` over the normalised name, login and mail. */
  predicate UserHas(u: UserRef, q: string)
  {
    (Norm(Some(u.name)) != "" && Contains(Norm(Some(u.name)), q))
    || (Norm(u.login) != "" && Contains(Norm(u.login), q))
    || (Norm(u.mail) != "" && Contains(Norm(u.mail), q))
  }

  /** `_resolve_user_from_items(query, items)`. */
  function ResolveUserFromItems(query: string, items: seq<UserRef>): Result<int>
  {
    var q := Norm(Some(query));
    match FirstIndex(items, (u: UserRef) => UserNameIs(u, q))
    case Some(k) => Ok(items[k].id)
    case None => Conclude(query, items, Filter(items, (u: UserRef) => UserHas(u, q)), UserId, UserName)
  }

  /** The exact pass reads only the name: a login equal to the query is no exact hit. */
  lemma UserExactOnName(query: string, items: seq<UserRef>, k: nat)
    requires k < |items| && UserNameIs(items[k], Norm(Some(query)))
    requires forall j :: 0 <= j < k ==> !UserNameIs(items[j], Norm(Some(query)))
    ensures ResolveUserFromItems(query, items) == Ok(items[k].id)
  {
    var q := Norm(Some(query));
    var f := FirstIndex(items, (u: UserRef) => UserNameIs(u, q));
    assert f.Some? && f.value == k;
  }

  /** A user whose fields all normalise to "" never matches, not even the empty query. */
  lemma BlankUserNeverMatches(u: UserRef, q: string)
    requires Norm(Some(u.name)) == "" && Norm(u.login) == "" && Norm(u.mail) == ""
    ensures !UserHas(u, q)
  {
  }

  /** A unique login or mail hit resolves to that user. */
  lemma UniqueUserSubstringWins(query: string, items: seq<UserRef>, k: nat)
    requires forall j :: 0 <= j < |items| ==> !UserNameIs(items[j], Norm(Some(query)))
    requires k < |items| && UserHas(items[k], Norm(Some(query)))
    requires forall j :: 0 <= j < |items| && j != k ==> !UserHas(items[j], Norm(Some(query)))
    ensures ResolveUserFromItems(query, items) == Ok(items[k].id)
  {
    var q := Norm(Some(query));
    FilterOne(items, (u: UserRef) => UserHas(u, q), k);
  }

  /** Ambiguity and not-found errors of the user resolver. */
  lemma ResolveUserErrors(query: string, items: seq<UserRef>)
    requires forall j :: 0 <= j < |items| ==> !UserNameIs(items[j], Norm(Some(query)))
    ensures var r := ResolveUserFromItems(query, items);
      var matches := Filter(items, (u: UserRef) => UserHas(u, Norm(Some(query))));
      && (|matches| > 1 ==>
            r == Err(AmbiguousErr(query, Candidates(matches, UserId, UserName)))
            && multiset(r.error.candidates) == multiset(Map(matches, UserName)))
      && (|matches| == 0 ==>
            r.Err? && r.error.NotFoundErr? && r.error.query == query
            && SortedBy(r.error.available, NameKey)
            && multiset(r.error.available) == multiset(Map(items, UserName)))
  {
    var q := Norm(Some(query));
    assert FirstIndex(items, (u: UserRef) => UserNameIs(u, q)).None?;
    var matches := Filter(items, (u: UserRef) => UserHas(u, q));
    assert ResolveUserFromItems(query, items) == Conclude(query, items, matches, UserId, UserName);
    CandidatesSorted(matches, UserId, UserName);
    AvailableSorted(items, UserName);
  }

  // ---- `resolve_user` ----

  const PermissionMessage := "User listing unavailable: insufficient permissions."
  const UnavailableMessage := "User listing endpoint not available on this OpenProject instance."

  /**
   * `resolve_user` once the listing has been fetched: 401/403 and
   * 404/405/501 become resolution errors, other failures propagate.
   */
  function ResolveUser(query: string, listing: Result<seq<UserRef>>): (r: Result<int>)
    ensures listing.Err? && StatusIn(listing.error, {401, 403}) ==> r == Err(ResolutionErr(query, PermissionMessage))
    ensures listing.Err? && StatusIn(listing.error, {404, 405, 501}) ==> r == Err(ResolutionErr(query, UnavailableMessage))
    ensures listing.Err? && !StatusIn(listing.error, {401, 403, 404, 405, 501}) ==> r == Err(listing.error)
    ensures listing.Ok? ==> r == ResolveUserFromItems(query, listing.value)
  {
    match listing
    case Err(e) =>
      if StatusIn(e, {401, 403}) then Err(ResolutionErr(query, PermissionMessage))
      else if StatusIn(e, {404, 405, 501}) then Err(ResolutionErr(query, UnavailableMessage))
      else Err(e)
    case Ok(items) => ResolveUserFromItems(query, items)
  }

  // ---- `_resolve_project_id_for_types` and `resolve_type_for_project` ----

  predicate ProjectNameHas(p: ProjectRef, q: string) { Contains(Norm(Some(p.name)), q) }

  /**
   * `_resolve_project_id_for_types(project)`: an int, or a string of ASCII
   * digits, is the id; otherwise the first listing page is searched by
   * identifier, then exact name, then name substring. `projects` is that
   * page, fetched only in the last case.
   */
  function ResolveProjectIdForTypes(project: ProjectArg, projects: Result<seq<ProjectRef>>): (r: Result<int>)
    ensures project.ById? ==> r == Ok(project.n)
    ensures project.ByText? && IsDigits(project.s) ==> r == Ok(DigitsValue(project.s))
    ensures project.ByText? && !IsDigits(project.s) && projects.Err? ==> r == Err(projects.error)
  {
    match project
    case ById(n) => Ok(n)
    case ByText(s) =>
      if IsDigits(s) then Ok(DigitsValue(s))
      else
        var items :- projects;
        var q := Norm(Some(s));
        match FirstIndex(items, (p: ProjectRef) => IdentifierIs(p, q))
        case Some(k) => Ok(items[k].id)
        case None =>
          match FirstIndex(items, (p: ProjectRef) => ProjectNameIs(p, q))
          case Some(k) => Ok(items[k].id)
          case None => Conclude(s, items, Filter(items, (p: ProjectRef) => ProjectNameHas(p, q)), ProjectId, ProjectName)
  }

  /** The type lookup's view of a single project that matches by identifier substring alone. */
  lemma TypesLookupNotFound(s: string, p: ProjectRef)
    requires !IsDigits(s)
    requires !IdentifierIs(p, Norm(Some(s))) && !ProjectNameIs(p, Norm(Some(s)))
    requires !ProjectNameHas(p, Norm(Some(s)))
    ensures ResolveProjectIdForTypes(ByText(s), Ok([p])) == Err(NotFoundErr(s, [p.name]))
  {
    var q := Norm(Some(s));
    assert FirstIndex([p], (x: ProjectRef) => IdentifierIs(x, q)) == None;
    assert FirstIndex([p], (x: ProjectRef) => ProjectNameIs(x, q)) == None;
    assert Filter([p], (x: ProjectRef) => ProjectNameHas(x, q)) == [] by {
      FilterNone([p], (x: ProjectRef) => ProjectNameHas(x, q));
    }
    assert AvailableNames([p], ProjectName) == [p.name] by {
      assert Map([p], ProjectName) == [p.name];
      SortBySingleton(p.name, NameKey);
    }
  }

  /**
   * Unlike `_resolve_project_from_items`, the substring pass of the type
   * lookup reads names only: a project matching by identifier substring
   * alone is not found.
   */
  lemma TypesLookupIgnoresIdentifierSubstring(s: string, p: ProjectRef)
    requires !IsDigits(s)
    requires !IdentifierIs(p, Norm(Some(s))) && !ProjectNameIs(p, Norm(Some(s)))
    requires Contains(Norm(p.identifier), Norm(Some(s))) && !ProjectNameHas(p, Norm(Some(s)))
    ensures ResolveProjectIdForTypes(ByText(s), Ok([p])) == Err(NotFoundErr(s, [p.name]))
    ensures ResolveProjectFromItems(s, [p]) == Ok(p.id)
  {
    TypesLookupNotFound(s, p);
    IdentifierSubstringWins(s, [p], 0);
  }

  /**
   * The type lookup's search over any listing page: the first exact
   * identifier wins; with none, the first exact name; with neither, the
   * projects whose name contains the query decide: one is the answer,
   * several raise the sorted candidates, none the sorted list of all names.
   */
  lemma TypesLookupOrder(s: string, items: seq<ProjectRef>)
    requires !IsDigits(s)
    ensures var r := ResolveProjectIdForTypes(ByText(s), Ok(items));
      var q := Norm(Some(s));
      var matches := Filter(items, (p: ProjectRef) => ProjectNameHas(p, q));
      && (forall k ::
            (&& 0 <= k < |items| && IdentifierIs(items[k], q)
             && (forall j :: 0 <= j < k ==> !IdentifierIs(items[j], q)))
            ==> r == Ok(items[k].id))
      && (forall k ::
            (&& 0 <= k < |items| && ProjectNameIs(items[k], q)
             && (forall j :: 0 <= j < |items| ==> !IdentifierIs(items[j], q))
             && (forall j :: 0 <= j < k ==> !ProjectNameIs(items[j], q)))
            ==> r == Ok(items[k].id))
      && ((forall j :: 0 <= j < |items| ==> !IdentifierIs(items[j], q) && !ProjectNameIs(items[j], q)) ==>
            && r == Conclude(s, items, matches, ProjectId, ProjectName)
            && (|matches| == 1 ==> r == Ok(matches[0].id))
            && (|matches| > 1 ==>
                  r == Err(AmbiguousErr(s, Candidates(matches, ProjectId, ProjectName)))
                  && multiset(r.error.candidates) == multiset(Map(matches, ProjectName)))
            && (|matches| == 0 ==>
                  r.Err? && r.error.NotFoundErr? && r.error.query == s
                  && SortedBy(r.error.available, NameKey)
                  && multiset(r.error.available) == multiset(Map(items, ProjectName))))
  {
    var q := Norm(Some(s));
    var r := ResolveProjectIdForTypes(ByText(s), Ok(items));
    var byIdentifier := FirstIndex(items, (p: ProjectRef) => IdentifierIs(p, q));
    var byName := FirstIndex(items, (p: ProjectRef) => ProjectNameIs(p, q));
    forall k | 0 <= k < |items| && IdentifierIs(items[k], q) && (forall j :: 0 <= j < k ==> !IdentifierIs(items[j], q))
      ensures r == Ok(items[k].id)
    {
      assert byIdentifier.Some? && byIdentifier.value == k;
    }
    forall k | 0 <= k < |items| && ProjectNameIs(items[k], q)
               && (forall j :: 0 <= j < |items| ==> !IdentifierIs(items[j], q))
               && (forall j :: 0 <= j < k ==> !ProjectNameIs(items[j], q))
      ensures r == Ok(items[k].id)
    {
      assert byIdentifier.None?;
      assert byName.Some? && byName.value == k;
    }
    if forall j :: 0 <= j < |items| ==> !IdentifierIs(items[j], q) && !ProjectNameIs(items[j], q) {
      assert byIdentifier.None? && byName.None?;
      var matches := Filter(items, (p: ProjectRef) => ProjectNameHas(p, q));
      assert r == Conclude(s, items, matches, ProjectId, ProjectName);
      CandidatesSorted(matches, ProjectId, ProjectName);
      AvailableSorted(items, ProjectName);
    }
  }

  /**
   * `_fetch_project_types`: the scoped listing, or `None` when the endpoint
   * answers 404, 405 or 501; any other failure propagates.
   */
  function FetchProjectTypes<T>(scoped: Result<seq<T>>): (r: Result<Option<seq<T>>>)
    ensures r == Ok(None) <==> scoped.Err? && StatusIn(scoped.error, {404, 405, 501})
    ensures scoped.Ok? ==> r == Ok(Some(scoped.value))
    ensures scoped.Err? && !StatusIn(scoped.error, {404, 405, 501}) ==> r == Err(scoped.error)
  {
    match scoped
    case Err(e) => if StatusIn(e, {404, 405, 501}) then Ok(None) else Err(e)
    case Ok(types) => Ok(Some(types))
  }

  /**
   * `resolve_type_for_project`: resolve the project id, list its types
   * (`scopedTypes(id)`), fall back to the global type list (`globalTypes`,
   * what the cached fetch returns) when that endpoint is unavailable, and
   * resolve the type name against the list used.
   */
  function ResolveTypeForProject(project: ProjectArg, projects: Result<seq<ProjectRef>>,
                                 scopedTypes: int -> Result<seq<NamedRef>>,
                                 globalTypes: Result<seq<NamedRef>>, typeName: string): Result<int>
  {
    var projectId :- ResolveProjectIdForTypes(project, projects);
    var projectTypes :- FetchProjectTypes(scopedTypes(projectId));
    var items :- if projectTypes.None? then globalTypes else Ok(projectTypes.value);
    ResolveFromItems(typeName, items)
  }

  /**
   * The fall-back is invisible: when the scoped endpoint is unavailable the
   * answer is the global-list answer, and otherwise the global list is never
   * consulted.
   */
  lemma TypeFallback(project: ProjectArg, projects: Result<seq<ProjectRef>>,
                     scopedTypes: int -> Result<seq<NamedRef>>,
                     globalTypes: Result<seq<NamedRef>>, otherGlobal: Result<seq<NamedRef>>, typeName: string)
    requires ResolveProjectIdForTypes(project, projects).Ok?
    ensures var id := ResolveProjectIdForTypes(project, projects).value;
      var r := ResolveTypeForProject(project, projects, scopedTypes, globalTypes, typeName);
      && (scopedTypes(id).Err? && StatusIn(scopedTypes(id).error, {404, 405, 501}) ==>
            r == (if globalTypes.Ok? then ResolveFromItems(typeName, globalTypes.value) else Err(globalTypes.error)))
      && (scopedTypes(id).Ok? ==>
            r == ResolveFromItems(typeName, scopedTypes(id).value)
            && r == ResolveTypeForProject(project, projects, scopedTypes, otherGlobal, typeName))
  {
  }

  // ---- `_fetch_paginated_items` ----

  /** Prefixes `prefix` to a successful result and adds `calls` requests. */
  function Combine<T>(prefix: seq<T>, r: (Result<seq<T>>, nat), calls: nat): (Result<seq<T>>, nat)
  {
    (if r.0.Ok? then Ok(prefix + r.0.value) else r.0, r.1 + calls)
  }

  lemma CombineTwice<T>(a: seq<T>, b: seq<T>, r: (Result<seq<T>>, nat), m: nat, n: nat)
    ensures Combine(a, Combine(b, r, m), n) == Combine(a + b, r, m + n)
  {
    if r.0.Ok? { assert a + (b + r.0.value) == (a + b) + r.0.value; }
  }

  lemma CombineNothing<T>(r: (Result<seq<T>>, nat))
    ensures Combine([], r, 0) == r
  {
    if r.0.Ok? { assert [] + r.0.value == r.0.value; }
  }

  /**
   * What the paged fetch returns, and how many requests it made, when
   * `pagesLeft` requests remain and the next one asks for `offset`.
   */
  function Paginate<T>(fetch: int -> Result<seq<T>>, pagesLeft: int, pageSize: int, offset: int): (r: (Result<seq<T>>, nat))
    decreases if pagesLeft > 0 then pagesLeft else 0
  {
    if pagesLeft <= 0 then (Ok([]), 0)
    else match fetch(offset)
      case Err(e) => (Err(e), 1)
      case Ok(batch) =>
        if batch == [] then (Ok([]), 1)
        else Combine(batch, Paginate(fetch, pagesLeft - 1, pageSize, offset + pageSize), 1)
  }

  /** At most `pagesLeft` requests are made, and a success is the concatenation of what was fetched. */
  lemma {:induction false} PaginateBounded<T>(fetch: int -> Result<seq<T>>, pagesLeft: int, pageSize: int, offset: int)
    ensures Paginate(fetch, pagesLeft, pageSize, offset).1 <= (if pagesLeft > 0 then pagesLeft else 0)
    decreases if pagesLeft > 0 then pagesLeft else 0
  {
    if pagesLeft > 0 && fetch(offset).Ok? && fetch(offset).value != [] {
      PaginateBounded(fetch, pagesLeft - 1, pageSize, offset + pageSize);
    }
  }

  /**
   * The fetch stops after the first empty batch: when the page `k` pages
   * after `offset` is empty, what any later offset would return is never read.
   */
  lemma {:induction false} PaginateStopsAtEmpty<T>(fetch: int -> Result<seq<T>>, other: int -> Result<seq<T>>,
                                                   pagesLeft: int, pageSize: int, offset: int, k: nat)
    requires fetch(offset + k * pageSize) == Ok([])
    requires forall j :: 0 <= j <= k ==> other(offset + j * pageSize) == fetch(offset + j * pageSize)
    ensures Paginate(fetch, pagesLeft, pageSize, offset) == Paginate(other, pagesLeft, pageSize, offset)
    decreases if pagesLeft > 0 then pagesLeft else 0
  {
    assert other(offset + 0 * pageSize) == fetch(offset + 0 * pageSize);
    if pagesLeft > 0 && k > 0 && fetch(offset).Ok? && fetch(offset).value != [] {
      var next := offset + pageSize;
      assert next + (k - 1) * pageSize == offset + k * pageSize;
      forall j | 0 <= j <= k - 1
        ensures other(next + j * pageSize) == fetch(next + j * pageSize)
      {
        assert next + j * pageSize == offset + (j + 1) * pageSize;
      }
      PaginateStopsAtEmpty(fetch, other, pagesLeft - 1, pageSize, next, k - 1);
    }
  }

  /**
   * `_fetch_paginated_items`: at most `maxPages` requests at offsets 0,
   * p, 2p, ..., stopping after the first empty batch; the batches are
   * concatenated in order.
   */
  method FetchPaginatedItems<T>(fetch: int -> Result<seq<T>>, maxPages: int, pageSize: int)
    returns (r: Result<seq<T>>, offsets: seq<int>)
    ensures (r, |offsets|) == Paginate(fetch, maxPages, pageSize, 0)
    ensures |offsets| <= (if maxPages > 0 then maxPages else 0)
    ensures |offsets| > 0 ==> offsets[0] == 0
    ensures forall i :: 0 < i < |offsets| ==> offsets[i] == offsets[i - 1] + pageSize
  {
    var items: seq<T> := [];
    var offset := 0;
    var i := 0;
    offsets := [];
    PaginateBounded(fetch, maxPages, pageSize, 0);
    CombineNothing(Paginate(fetch, maxPages, pageSize, 0));
    while i < maxPages
      invariant 0 <= i && |offsets| == i
      invariant i == 0 ==> offset == 0
      invariant i > 0 ==> offsets[0] == 0 && offset == offsets[i - 1] + pageSize
      invariant forall j :: 0 < j < i ==> offsets[j] == offsets[j - 1] + pageSize
      invariant Combine(items, Paginate(fetch, maxPages - i, pageSize, offset), i) == Paginate(fetch, maxPages, pageSize, 0)
      decreases maxPages - i
    {
      ghost var rest := Paginate(fetch, maxPages - i, pageSize, offset);
      offsets := offsets + [offset];
      var page := fetch(offset);
      if page.Err? {
        assert rest == (Err(page.error), 1);
        return Err(page.error), offsets;
      }
      var batch := page.value;
      if batch == [] {
        assert rest == (Ok([]), 1);
        assert items + [] == items;
        i := i + 1;
        r := Ok(items);
        return;
      }
      ghost var next := Paginate(fetch, maxPages - i - 1, pageSize, offset + pageSize);
      assert rest == Combine(batch, next, 1);
      CombineTwice(items, batch, next, 1, i);
      items := items + batch;
      offset := offset + pageSize;
      i := i + 1;
    }
    assert items + [] == items;
    r := Ok(items);
  }
}
