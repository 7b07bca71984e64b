/**
 * `list_projects` of the older tool generation: one page of projects,
 * optionally narrowed by a case-insensitive name filter, with the total and
 * the offset of the next page.
 *
 * The page request is an oracle: `fetch(offset, pageSize)` is what the
 * listing endpoint returns once its elements have been validated.
 */
module Projects {
  import opened Wrappers
  import opened Text
  import opened Py
  import opened Lists
  import opened Paging
  import CoreMetadata

  type ProjectRef = CoreMetadata.ProjectRef

  /** What the project listing endpoint returns: the projects and the payload's `total`. */
  datatype ProjectPage = ProjectPage(projects: seq<ProjectRef>, total: Json)

  /** One listed project, `{"id": p.id, "name": p.name}`. */
  datatype ProjectItem = ProjectItem(id: int, name: string)

  datatype ProjectListing = ProjectListing(items: seq<ProjectItem>, offset: int, pageSize: int,
                                           total: int, nextOffset: Option<int>)

  const NegativeOffsetMessage := "offset must be >= 0"

  function Item(p: ProjectRef): ProjectItem { ProjectItem(p.id, p.name) }

  /** `needle in p.name.casefold()`. */
  predicate NameContains(p: ProjectRef, needle: string) { Contains(Lower(p.name), needle) }

  /** The projects kept by `name_contains`: all of them when it is `None` or "". */
  function Narrow(projects: seq<ProjectRef>, nameContains: Option<string>): seq<ProjectRef>
  {
    if nameContains.None? || nameContains.value == "" then projects
    else
      var needle := Lower(Strip(nameContains.value));
      Filter(projects, (p: ProjectRef) => NameContains(p, needle))
  }

  /** `list_projects(offset, page_size, name_contains)`. */
  function ListProjects(fetch: (int, int) -> Result<ProjectPage>, offset: int, pageSize: int,
                        nameContains: Option<string>): (r: Result<ProjectListing>)
    ensures offset < 0 ==> r == Err(ValueErr(NegativeOffsetMessage))
    ensures offset >= 0 && fetch(offset, ClampPageSize(pageSize)).Err? ==> r == Err(fetch(offset, ClampPageSize(pageSize)).error)
    ensures offset >= 0 && fetch(offset, ClampPageSize(pageSize)).Ok? ==>
      var page := fetch(offset, ClampPageSize(pageSize)).value;
      && r.Ok?
      && r.value.items == Map(Narrow(page.projects, nameContains), Item)
      && r.value.total == AsInt(page.total).GetOr(|r.value.items|)
    ensures r.Ok? ==> r.value.offset == offset && r.value.pageSize == ClampPageSize(pageSize)
    ensures r.Ok? ==> r.value.nextOffset == NextOffset(offset, r.value.pageSize, Some(r.value.total))
  {
    if offset < 0 then Err(ValueErr(NegativeOffsetMessage))
    else
      var size := ClampPageSize(pageSize);
      var page :- fetch(offset, size);
      var kept := Narrow(page.projects, nameContains);
      var total := AsInt(page.total).GetOr(|kept|);
      Ok(ProjectListing(Map(kept, Item), offset, size, total, NextOffset(offset, size, Some(total))))
  }

  /** Only the one request for the clamped page is read: listings agreeing on it list alike. */
  lemma ListProjectsOneRequest(fetch: (int, int) -> Result<ProjectPage>, other: (int, int) -> Result<ProjectPage>,
                               offset: int, pageSize: int, nameContains: Option<string>)
    requires offset >= 0 ==> other(offset, ClampPageSize(pageSize)) == fetch(offset, ClampPageSize(pageSize))
    ensures ListProjects(fetch, offset, pageSize, nameContains) == ListProjects(other, offset, pageSize, nameContains)
  {
  }

  /**
   * The name filter keeps, in payload order, exactly the projects whose
   * casefolded name contains the trimmed, casefolded needle.
   */
  lemma NarrowKeepsMatches(projects: seq<ProjectRef>, needle: string)
    requires needle != ""
    ensures var kept := Narrow(projects, Some(needle));
      forall p :: p in kept <==> p in projects && NameContains(p, Lower(Strip(needle)))
  {
    FilterMembers(projects, (p: ProjectRef) => NameContains(p, Lower(Strip(needle))));
  }

  /** A needle of blanks keeps every project: the empty string is in every name. */
  lemma BlankNeedleKeepsAll(projects: seq<ProjectRef>, needle: string)
    requires needle != "" && forall i :: 0 <= i < |needle| ==> IsSpace(needle[i])
    ensures Narrow(projects, Some(needle)) == projects
  {
    StripEmptyIffAllSpace(needle);
    forall i | 0 <= i < |projects| ensures NameContains(projects[i], Lower(Strip(needle))) {
      ContainsEmpty(Lower(projects[i].name));
    }
    FilterAll(projects, (p: ProjectRef) => NameContains(p, Lower(Strip(needle))));
  }

  /** Without an integer `total` in the payload, the total is the number of projects listed. */
  lemma TotalFallsBackToCount(fetch: (int, int) -> Result<ProjectPage>, offset: int, pageSize: int,
                              nameContains: Option<string>)
    requires offset >= 0 && fetch(offset, ClampPageSize(pageSize)).Ok?
    requires AsInt(fetch(offset, ClampPageSize(pageSize)).value.total).None?
    ensures var r := ListProjects(fetch, offset, pageSize, nameContains);
      r.Ok? && r.value.total == |r.value.items|
  {
  }
}
