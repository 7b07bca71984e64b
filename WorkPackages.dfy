/**
 * The deterministic parts of the older work-package tools: the name
 * normalisation and matching of principals and versions, the project lookup
 * by identifier or name, the numeric fast paths, the description append and
 * the rules `update_work_package` applies to its input, its links and the
 * errors of the final PATCH.
 *
 * Lookups that need the network are oracles whose answers are parameters.
 */
module WorkPackages {
  import opened Wrappers
  import opened Text
  import opened Py
  import opened Lists
  import opened CoreMetadata
  import Resolution
  import Hal
  import TimeParser

  // ---- `_norm_text` and the name matchers ----

  /** `" ".join(s.split()).strip().casefold()`. */
  function NormCollapsed(s: string): string
  {
    Lower(Strip(CollapseSpaces(s)))
  }

  /** `_norm_text`: "" for anything that is not a string. */
  function NormValue(v: Json): string
  {
    if v.JStr? then NormCollapsed(v.s) else ""
  }

  /** A value normalises to "" exactly when it is not a string or is all whitespace. */
  lemma NormValueEmpty(v: Json)
    ensures NormValue(v) == "" <==> !v.JStr? || forall i :: 0 <= i < |v.s| ==> IsSpace(v.s[i])
  {
    if v.JStr? {
      var c := CollapseSpaces(v.s);
      CollapseEmptyIffAllSpace(v.s);
      StripEmptyIffAllSpace(c);
      if !forall i :: 0 <= i < |v.s| ==> IsSpace(v.s[i]) {
        var i :| 0 <= i < |v.s| && !IsSpace(v.s[i]);
        CollapseKeepsChar(v.s, v.s[i]);
        var k :| 0 <= k < |c| && c[k] == v.s[i];
      }
    }
  }

  /** A tab after a space inside a name does not change its normal form. */
  lemma NormCollapsedWords(a: string, b: string)
    requires |a| > 0 && NoSpace(a)
    ensures NormCollapsed(a + " \t" + b) == NormCollapsed(a + " " + b)
  {
    assert a + " \t" + b == a + " " + ("\t" + b);
    WordsCons(a, "\t" + b);
    WordsCons(a, b);
    assert ("\t" + b)[1..] == b;
  }

  /** A principal or version as the lookups list it: `{"id": ..., "name": ...}`. */
  datatype Named = Named(id: Option<int>, name: Json)

  predicate ExactName(c: Named, q: string) { NormValue(c.name) == q }

  /** A partial match; the empty query matches nothing. */
  predicate PartialName(c: Named, q: string) { q != "" && Contains(NormValue(c.name), q) }

  /**
   * `_match_principal` / `_match_version`: a unique exact name with an id
   * wins, then a unique partial name with an id; more than one exact or
   * partial match raises the ambiguity error, anything else the not-found error.
   */
  function MatchByName(query: string, cands: seq<Named>, ambiguous: string, notFound: string): Result<int>
  {
    var q := NormCollapsed(query);
    var exact := Filter(cands, (c: Named) => ExactName(c, q));
    var partial := Filter(cands, (c: Named) => PartialName(c, q));
    if |exact| == 1 && exact[0].id.Some? then Ok(exact[0].id.value)
    else if |partial| == 1 && partial[0].id.Some? then Ok(partial[0].id.value)
    else if |exact| > 1 || |partial| > 1 then Err(ValueErr(ambiguous))
    else Err(ValueErr(notFound))
  }

  function PrincipalAmbiguous(q: string): string { "Name '" + q + "' is ambiguous; please specify a numeric user id." }
  function PrincipalNotFound(q: string): string { "User '" + q + "' not found; provide a numeric user id." }
  function VersionAmbiguous(q: string): string { "Version name '" + q + "' is ambiguous; please provide a numeric version id." }
  function VersionNotFound(q: string): string { "Version '" + q + "' not found; provide a numeric version id." }

  /** `_match_principal`. */
  function MatchPrincipal(query: string, principals: seq<Named>): (r: Result<int>)
    ensures r.Err? ==> r.error == ValueErr(PrincipalAmbiguous(query)) || r.error == ValueErr(PrincipalNotFound(query))
  {
    MatchByName(query, principals, PrincipalAmbiguous(query), PrincipalNotFound(query))
  }

  /** `_match_version`. */
  function MatchVersion(query: string, versions: seq<Named>): (r: Result<int>)
    ensures r.Err? ==> r.error == ValueErr(VersionAmbiguous(query)) || r.error == ValueErr(VersionNotFound(query))
  {
    MatchByName(query, versions, VersionAmbiguous(query), VersionNotFound(query))
  }

  /** The id returned is the id of a candidate whose name matched exactly or partially. */
  lemma MatchByNameSound(query: string, cands: seq<Named>, ambiguous: string, notFound: string)
    requires MatchByName(query, cands, ambiguous, notFound).Ok?
    ensures exists c :: c in cands && c.id == Some(MatchByName(query, cands, ambiguous, notFound).value)
              && (ExactName(c, NormCollapsed(query)) || PartialName(c, NormCollapsed(query)))
  {
    var q := NormCollapsed(query);
    FilterMembers(cands, (c: Named) => ExactName(c, q));
    FilterMembers(cands, (c: Named) => PartialName(c, q));
    var exact := Filter(cands, (c: Named) => ExactName(c, q));
    var partial := Filter(cands, (c: Named) => PartialName(c, q));
    if |exact| == 1 && exact[0].id.Some? {
      assert exact[0] in exact;
    } else {
      assert partial[0] in partial;
    }
  }

  /** The only candidate whose name matches exactly, when it has an id, is the answer. */
  lemma UniqueExactWins(query: string, cands: seq<Named>, ambiguous: string, notFound: string, k: nat)
    requires k < |cands| && ExactName(cands[k], NormCollapsed(query)) && cands[k].id.Some?
    requires forall j :: 0 <= j < |cands| && j != k ==> !ExactName(cands[j], NormCollapsed(query))
    ensures MatchByName(query, cands, ambiguous, notFound) == Ok(cands[k].id.value)
  {
    FilterOne(cands, (c: Named) => ExactName(c, NormCollapsed(query)), k);
  }

  /**
   * The only candidate whose name contains the query, when it has an id, is
   * the answer: an exact match is also a partial one, so none other exists.
   */
  lemma UniquePartialWins(query: string, cands: seq<Named>, ambiguous: string, notFound: string, k: nat)
    requires k < |cands| && PartialName(cands[k], NormCollapsed(query)) && cands[k].id.Some?
    requires forall j :: 0 <= j < |cands| && j != k ==> !PartialName(cands[j], NormCollapsed(query))
    ensures MatchByName(query, cands, ambiguous, notFound) == Ok(cands[k].id.value)
  {
    var q := NormCollapsed(query);
    ContainsSelf(q);
    assert forall j :: 0 <= j < |cands| && j != k ==> !ExactName(cands[j], q);
    if ExactName(cands[k], q) {
      FilterOne(cands, (c: Named) => ExactName(c, q), k);
    } else {
      FilterNone(cands, (c: Named) => ExactName(c, q));
      FilterOne(cands, (c: Named) => PartialName(c, q), k);
    }
  }

  /** Two candidates with the same exact name make the query ambiguous, wherever they stand. */
  lemma TwoExactAmbiguous(query: string, cands: seq<Named>, ambiguous: string, notFound: string, i: nat, j: nat)
    requires i < j < |cands|
    requires ExactName(cands[i], NormCollapsed(query)) && ExactName(cands[j], NormCollapsed(query))
    ensures MatchByName(query, cands, ambiguous, notFound) == Err(ValueErr(ambiguous))
  {
    var q := NormCollapsed(query);
    FilterTwo(cands, (c: Named) => ExactName(c, q), i, j);
    if q != "" {
      ContainsSelf(q);
      FilterTwo(cands, (c: Named) => PartialName(c, q), i, j);
    } else {
      FilterNone(cands, (c: Named) => PartialName(c, q));
    }
  }

  /** A blank query never matches partially. */
  lemma BlankQueryNoPartial(query: string, cands: seq<Named>)
    requires NormCollapsed(query) == ""
    ensures Filter(cands, (c: Named) => PartialName(c, NormCollapsed(query))) == []
  {
    FilterNone(cands, (c: Named) => PartialName(c, NormCollapsed(query)));
  }

  // ---- `_resolve_project_id` ----

  function ProjectAmbiguousPrefix(query: string): string { "Project '" + query + "' is ambiguous. Candidates: " }
  function ProjectNotFoundPrefix(query: string): string { "Project '" + query + "' not found. Available: " }

  /**
   * `_resolve_project_id(query)` on the first listing page `projects`:
   * identifier, then exact name, then name substring. The ambiguity error
   * lists the matching names and the not-found error every name, both in
   * listing order.
   */
  function ResolveProjectId(query: string, projects: seq<ProjectRef>): (r: Result<int>)
    ensures r.Err? ==> r.error.ValueListErr?
    ensures r.Err? && r.error.prefix == ProjectNotFoundPrefix(query) ==> r.error.names == Map(projects, ProjectName)
    ensures r.Err? && r.error.prefix != ProjectNotFoundPrefix(query) ==>
              r.error.prefix == ProjectAmbiguousPrefix(query) && |r.error.names| > 1
  {
    var q := Norm(Some(query));
    match FirstIndex(projects, (p: ProjectRef) => IdentifierIs(p, q))
    case Some(k) => Ok(projects[k].id)
    case None =>
      match FirstIndex(projects, (p: ProjectRef) => ProjectNameIs(p, q))
      case Some(k) => Ok(projects[k].id)
      case None =>
        var matches := Filter(projects, (p: ProjectRef) => ProjectNameHas(p, q));
        if |matches| == 1 then Ok(matches[0].id)
        else if |matches| > 1 then Err(ValueListErr(ProjectAmbiguousPrefix(query), Map(matches, ProjectName)))
        else Err(ValueListErr(ProjectNotFoundPrefix(query), Map(projects, ProjectName)))
  }

  /** The id found belongs to a listed project that matched by identifier, by name or by name substring. */
  lemma ResolveProjectIdSound(query: string, projects: seq<ProjectRef>)
    requires ResolveProjectId(query, projects).Ok?
    ensures exists p :: p in projects && p.id == ResolveProjectId(query, projects).value
              && (IdentifierIs(p, Norm(Some(query))) || ProjectNameIs(p, Norm(Some(query)))
                  || ProjectNameHas(p, Norm(Some(query))))
  {
    var q := Norm(Some(query));
    var byId := FirstIndex(projects, (p: ProjectRef) => IdentifierIs(p, q));
    var byName := FirstIndex(projects, (p: ProjectRef) => ProjectNameIs(p, q));
    if byId.Some? {
      assert projects[byId.value] in projects;
    } else if byName.Some? {
      assert projects[byName.value] in projects;
    } else {
      var matches := Filter(projects, (p: ProjectRef) => ProjectNameHas(p, q));
      FilterMembers(projects, (p: ProjectRef) => ProjectNameHas(p, q));
      assert matches[0] in matches;
    }
  }

  /** The first identifier match wins, even over a project listed earlier whose name matches. */
  lemma IdentifierFirst(query: string, projects: seq<ProjectRef>, k: nat)
    requires k < |projects| && IdentifierIs(projects[k], Norm(Some(query)))
    requires forall j :: 0 <= j < k ==> !IdentifierIs(projects[j], Norm(Some(query)))
    ensures ResolveProjectId(query, projects) == Ok(projects[k].id)
  {
    var r := FirstIndex(projects, (p: ProjectRef) => IdentifierIs(p, Norm(Some(query))));
    assert r == Some(k);
  }

  /**
   * The work-package lookup and the type lookup of the metadata tools pick
   * the same project for any non-numeric query; they differ only in their
   * errors, whose names are listed in listing order here and sorted there.
   */
  lemma ResolveProjectIdAgrees(query: string, projects: seq<ProjectRef>)
    requires !IsDigits(query)
    ensures var here := ResolveProjectId(query, projects);
      var there := ResolveProjectIdForTypes(ByText(query), Ok(projects));
      (here.Ok? <==> there.Ok?) && (here.Ok? ==> here.value == there.value)
  {
  }

  /** The two errors of `_resolve_project_id` can be told apart by their text. */
  lemma PrefixesDiffer(query: string)
    ensures ProjectAmbiguousPrefix(query) != ProjectNotFoundPrefix(query)
  {
    assert ProjectAmbiguousPrefix(query)[|query| + 11] != ProjectNotFoundPrefix(query)[|query| + 11];
  }

  /** An ambiguity error comes from the substring stage, with more than one match, and lists their names. */
  lemma AmbiguousStage(query: string, projects: seq<ProjectRef>)
    requires ResolveProjectId(query, projects).Err?
    requires ResolveProjectId(query, projects).error.prefix == ProjectAmbiguousPrefix(query)
    ensures var q := Norm(Some(query));
      && FirstIndex(projects, (p: ProjectRef) => IdentifierIs(p, q)).None?
      && FirstIndex(projects, (p: ProjectRef) => ProjectNameIs(p, q)).None?
      && |Filter(projects, (p: ProjectRef) => ProjectNameHas(p, q))| > 1
      && ResolveProjectId(query, projects).error.names == Map(Filter(projects, (p: ProjectRef) => ProjectNameHas(p, q)), ProjectName)
  {
    PrefixesDiffer(query);
  }

  /** The ambiguity error names the matching projects, the same names as the sorted candidates of the type lookup. */
  lemma ResolveProjectIdAmbiguousNames(query: string, projects: seq<ProjectRef>)
    requires !IsDigits(query)
    requires ResolveProjectId(query, projects).Err?
    requires ResolveProjectId(query, projects).error.prefix == ProjectAmbiguousPrefix(query)
    ensures var there := ResolveProjectIdForTypes(ByText(query), Ok(projects));
      there.Err? && there.error.AmbiguousErr?
      && multiset(there.error.candidates) == multiset(ResolveProjectId(query, projects).error.names)
  {
    var q := Norm(Some(query));
    var matches := Filter(projects, (p: ProjectRef) => ProjectNameHas(p, q));
    AmbiguousStage(query, projects);
    assert ResolveProjectIdForTypes(ByText(query), Ok(projects)) == Resolution.Conclude(query, projects, matches, ProjectId, ProjectName);
    Resolution.CandidatesSorted(matches, ProjectId, ProjectName);
  }

  // ---- numeric fast paths ----

  /**
   * The fast path of `_resolve_version_for_wp` and `_resolve_principal_for_wp`:
   * an int is the id, and so is a string of ASCII digits once stripped.
   */
  function NumericId(v: ProjectArg): (r: Option<int>)
    ensures v.ById? ==> r == Some(v.n)
    ensures v.ByText? ==> (r.Some? <==> IsDigits(Strip(v.s)))
    ensures v.ByText? && r.Some? ==> r.value == DigitsValue(Strip(v.s))
  {
    match v
    case ById(n) => Some(n)
    case ByText(s) => if IsDigits(Strip(s)) then Some(DigitsValue(Strip(s))) else None
  }

  /** The decimal form of a natural number, padded with spaces, takes the fast path back to that number. */
  lemma NumericIdOfDecimal(n: nat)
    ensures NumericId(ByText(" " + NatToString(n) + "\n")) == Some(n)
  {
    var d := NatToString(n);
    var s := " " + d + "\n";
    StripNoSpace(d);
    assert Strip(s) == d by { StripPadded(d); }
    NatToStringRoundTrip(n);
  }

  /** `Strip` removes one space before and one newline after a word. */
  lemma StripPadded(d: string)
    requires |d| > 0 && NoSpace(d)
    ensures Strip(" " + d + "\n") == d
  {
    var s := " " + d + "\n";
    assert TrimStart(s, IsSpace) == d + "\n" by {
      assert s[1..] == d + "\n";
      assert TrimStart(d + "\n", IsSpace) == d + "\n";
    }
    assert TrimEnd(d + "\n", IsSpace) == d by {
      assert (d + "\n")[..|d|] == d;
      assert TrimEnd(d, IsSpace) == d;
    }
  }

  /** A string holding something other than a digit or whitespace never takes the fast path. */
  lemma NumericIdNeedsDigits(s: string, i: nat)
    requires i < |s| && !IsDigit(s[i]) && !IsSpace(s[i])
    ensures NumericId(ByText(s)) == None
  {
    StripKeepsChar(s, s[i]);
    var t := Strip(s);
    var k :| 0 <= k < |t| && t[k] == s[i];
  }

  const VersionProjectUnknown := "Cannot resolve version: work package project is unknown."
  const VersionListUnavailable := "Version list unavailable for this project; provide a numeric version id or check permissions."

  /** The text a non-numeric value is matched as: `str(value)`. */
  function QueryText(value: ProjectArg): string
  {
    if value.ByText? then value.s else IntToString(value.n)
  }

  /**
   * `_resolve_version_for_wp`: the fast path, else the project of the work
   * package (`projectId`, parsed from its link) and its versions (`versions`,
   * what the version listing of that project returns, requested from
   * `versionsUrl`); a 403 or 404 on the listing is re-raised with a hint,
   * other failures propagate.
   */
  function ResolveVersion(value: ProjectArg, projectId: Option<int>, versionsUrl: string,
                          versions: Result<seq<Named>>): (r: Result<int>)
    ensures NumericId(value).Some? ==> r == Ok(NumericId(value).value)
    ensures NumericId(value).None? && projectId.None? ==> r == Err(ValueErr(VersionProjectUnknown))
    ensures NumericId(value).None? && projectId.Some? && versions.Err? ==>
              if StatusIn(versions.error, {403, 404}) then
                r == Err(HttpErr(versions.error.status, "GET", versionsUrl, JStr(VersionListUnavailable),
                                 versions.error.responseJson, versions.error.responseText))
              else r == Err(versions.error)
    ensures NumericId(value).None? && projectId.Some? && versions.Ok? ==> r == MatchVersion(QueryText(value), versions.value)
  {
    match NumericId(value)
    case Some(id) => Ok(id)
    case None =>
      if projectId.None? then Err(ValueErr(VersionProjectUnknown))
      else match versions
        case Err(e) =>
          if StatusIn(e, {403, 404}) then
            Err(HttpErr(e.status, "GET", versionsUrl, JStr(VersionListUnavailable), e.responseJson, e.responseText))
          else Err(e)
        case Ok(vs) => MatchVersion(QueryText(value), vs)
  }

  /**
   * `_resolve_principal_for_wp`: the fast path; else the available
   * assignees (`available`: `None` without the link, a failure with 403 or
   * 404 read as `None`), where a match wins and a ValueError falls through;
   * then, when the work package has a project, its memberships
   * (`members`), whose match is final once the list is non-empty and whose
   * 403 or 404 falls through; then the global user resolver (`global`).
   */
  function ResolvePrincipal(value: ProjectArg, available: Result<Option<seq<Named>>>, projectId: Option<int>,
                            members: Result<seq<Named>>, global: Result<int>): (r: Result<int>)
    ensures NumericId(value).Some? ==> r == Ok(NumericId(value).value)
    ensures NumericId(value).None? && available.Err? && !StatusIn(available.error, {403, 404}) ==> r == Err(available.error)
  {
    match NumericId(value)
    case Some(id) => Ok(id)
    case None =>
      if available.Err? && !StatusIn(available.error, {403, 404}) then Err(available.error)
      else
        var avail := if available.Ok? then available.value else None;
        var query := QueryText(value);
        if avail.Some? && avail.value != [] && MatchPrincipal(query, avail.value).Ok? then
          MatchPrincipal(query, avail.value)
        else if projectId.None? then global
        else match members
          case Err(e) => if StatusIn(e, {403, 404}) then global else Err(e)
          case Ok(ps) => if ps != [] then MatchPrincipal(query, ps) else global
  }

  /** A match among the available assignees is final: memberships and the global resolver are never consulted. */
  lemma AvailableAssigneesFirst(value: ProjectArg, avail: seq<Named>, projectId: Option<int>,
                                members: Result<seq<Named>>, global: Result<int>,
                                members': Result<seq<Named>>, global': Result<int>)
    requires NumericId(value).None? && avail != []
    requires MatchPrincipal(QueryText(value), avail).Ok?
    ensures ResolvePrincipal(value, Ok(Some(avail)), projectId, members, global)
            == ResolvePrincipal(value, Ok(Some(avail)), projectId, members', global')
            == MatchPrincipal(QueryText(value), avail)
  {
  }

  /** A non-empty membership list decides: its not-found error is raised, not handed to the global resolver. */
  lemma MembershipsFinal(value: ProjectArg, available: Result<Option<seq<Named>>>, projectId: int,
                         members: seq<Named>, global: Result<int>)
    requires NumericId(value).None? && members != []
    requires available == Ok(None) || (available.Err? && StatusIn(available.error, {403, 404}))
    ensures ResolvePrincipal(value, available, Some(projectId), Ok(members), global) == MatchPrincipal(QueryText(value), members)
  {
  }

  /** Without assignees or memberships to search, the global resolver decides. */
  lemma GlobalResolverLast(value: ProjectArg, projectId: Option<int>, global: Result<int>)
    requires NumericId(value).None?
    ensures ResolvePrincipal(value, Ok(None), projectId, Ok([]), global) == global
  {
  }

  // ---- descriptions ----

  /** `_description_raw_to_text`: the `raw` string of a description object, else "". */
  function DescriptionText(desc: Json): string
  {
    if desc.JDict? && "raw" in desc.fields && desc.fields["raw"].JStr? then desc.fields["raw"].s else ""
  }

  /** The description object a PATCH carries. */
  function DescriptionObject(text: string): Json
  {
    JDict(map["raw" := JStr(text)])
  }

  /** Reading back a description object gives its text; anything without a string `raw` reads as "". */
  lemma DescriptionRoundTrip(text: string, other: Json)
    requires !(other.JDict? && "raw" in other.fields && other.fields["raw"].JStr?)
    ensures DescriptionText(DescriptionObject(text)) == text
    ensures DescriptionText(other) == ""
  {
  }

  /**
   * The appended description: the existing text with trailing whitespace
   * dropped, a blank line, then the new text; the new text alone when
   * nothing remains of the existing one.
   */
  function Appended(existing: string, text: string): string
  {
    var kept := RStrip(existing);
    if kept == [] then text else kept + "\n\n" + text
  }

  /** The new text always ends the result, and what remains of the existing text starts it. */
  lemma AppendedShape(existing: string, text: string)
    ensures var r := Appended(existing, text);
      |r| >= |text| && r[|r| - |text|..] == text
      && |r| >= |RStrip(existing)| && r[..|RStrip(existing)|] == RStrip(existing)
      && (RStrip(existing) != [] ==> r[|RStrip(existing)|..|RStrip(existing)| + 2] == "\n\n")
  {
    var kept := RStrip(existing);
    if kept != [] {
      var r := kept + "\n\n" + text;
      assert r[|r| - |text|..] == text;
      assert r[..|kept|] == kept;
      assert r[|kept|..|kept| + 2] == "\n\n";
    }
  }

  /** Trailing whitespace of the existing text makes no difference. */
  lemma AppendedIgnoresTrailingSpace(existing: string, text: string)
    ensures Appended(existing + " ", text) == Appended(existing, text)
  {
    var s := existing + " ";
    assert s[..|s| - 1] == existing;
  }

  /**
   * Appending twice keeps both texts, in order, separated by blank lines,
   * when the first ends in something other than whitespace.
   */
  lemma AppendedTwice(existing: string, a: string, b: string)
    requires RStrip(existing) != [] && |a| > 0 && !IsSpace(a[|a| - 1])
    ensures Appended(Appended(existing, a), b) == RStrip(existing) + "\n\n" + a + "\n\n" + b
  {
    var once := RStrip(existing) + "\n\n" + a;
    assert once[|once| - 1] == a[|a| - 1];
  }

  const LockVersionMissing := "lockVersion missing from work package response"

  /** `current.get("lockVersion")`, `None` when absent or null. */
  function LockVersion(current: map<string, Json>): Option<Json>
  {
    var v := DictGet(current, "lockVersion", JNull);
    if v.JNull? then None else Some(v)
  }

  /** The 422 raised when the current work package carries no `lockVersion`. */
  function MissingLockVersion(url: string): Error
  {
    HttpErr(422, "GET", url, JStr(LockVersionMissing), None, None)
  }

  /**
   * `append_work_package_description`: the PATCH body of the current
   * work package (`current`, fetched from `url`) with `text` appended.
   */
  function AppendDescription(current: map<string, Json>, text: string, url: string): (r: Result<map<string, Json>>)
    ensures LockVersion(current).None? ==> r == Err(MissingLockVersion(url))
    ensures r.Ok? ==> (r.value.Keys == {"lockVersion", "description"}
                       && Some(r.value["lockVersion"]) == LockVersion(current)
                       && DescriptionText(r.value["description"])
                          == Appended(DescriptionText(DictGet(current, "description", JNull)), text))
  {
    match LockVersion(current)
    case None => Err(MissingLockVersion(url))
    case Some(lock) =>
      Ok(map["lockVersion" := lock,
             "description" := DescriptionObject(Appended(DescriptionText(DictGet(current, "description", JNull)), text))])
  }

  const AppendConflictMessage := "Work package was updated by someone else; please reload and retry."

  /** The PATCH failure as `append_work_package_description` re-raises it: a 409 gets a new message and loses its bodies. */
  function RewriteAppendError(e: Error, url: string): (r: Error)
    ensures !StatusIn(e, {409}) ==> r == e
    ensures StatusIn(e, {409}) ==> r == HttpErr(409, "PATCH", url, JStr(AppendConflictMessage), None, None)
  {
    if StatusIn(e, {409}) then HttpErr(409, "PATCH", url, JStr(AppendConflictMessage), None, None) else e
  }

  // ---- `update_work_package` ----

  /** A clearable field of the update input: not set, explicitly `None`, or a value. */
  datatype Clearable<T> = Omitted | Cleared | Given(value: T)

  /**
   * `WorkPackageUpdateInput`, with the dates already in ISO form and the
   * fields the update reads; `version`, `assignee` and `accountable` are
   * `Omitted` when absent from `model_fields_set`.
   */
  datatype UpdateInput = UpdateInput(
    subject: Option<string>,
    description: Option<string>,
    appendDescription: Option<string>,
    startDate: Option<string>,
    dueDate: Option<string>,
    percentDone: Option<int>,
    estimatedTime: Option<string>,
    status: Option<string>,
    priority: Option<string>,
    version: Clearable<ProjectArg>,
    assignee: Clearable<ProjectArg>,
    accountable: Clearable<ProjectArg>,
    wpType: Option<string>,
    project: Option<string>)

  /**
   * What the network-backed resolvers answer for this input: the status,
   * priority, version and principal ids, the project-scoped and global type
   * lookups, and what `_resolve_project_id` (`ResolveProjectId`) answers.
   */
  datatype Lookups = Lookups(
    status: Result<int>,
    priority: Result<int>,
    version: Result<int>,
    assignee: Result<int>,
    accountable: Result<int>,
    typeInProject: Result<int>,
    typeGlobal: Result<int>,
    project: Result<int>)

  const BothDescriptionsMessage := "Provide either description or append_description, not both."
  const PercentMessage := "percent_done must be between 0 and 100."
  const VersionNotWritable := "Version is not writable for this work package; please check project/type settings."

  /**
   * The `estimatedTime` sent: a string starting with "PT" is passed through,
   * anything else goes through the duration parser, whose error becomes a ValueError.
   */
  function EstimatedTime(value: string): (r: Result<string>)
    ensures StartsWith(value, "PT") ==> r == Ok(value)
    ensures !StartsWith(value, "PT") && TimeParser.ParseDuration(Some(value)).Ok? ==> r == TimeParser.ParseDuration(Some(value))
    ensures !StartsWith(value, "PT") && TimeParser.ParseDuration(Some(value)).Err? ==> r.Err? && r.error.ValueErr?
  {
    if StartsWith(value, "PT") then Ok(value)
    else match TimeParser.ParseDuration(Some(value))
      case Ok(iso) => Ok(iso)
      case Err(e) => Err(ValueErr(if e.DurationErr? then e.message else ""))
  }

  /** A duration the update produced is passed through unchanged by a second update. */
  lemma EstimatedTimeStable(value: string, iso: string)
    requires EstimatedTime(value) == Ok(iso)
    ensures EstimatedTime(iso) == Ok(iso)
  {
    if !StartsWith(value, "PT") {
      TimeParser.ParseDurationIdempotent(Some(value), iso);
    }
  }

  /** The description entry of the PATCH, if any, from the current work package's description. */
  function DescriptionEntry(input: UpdateInput, current: map<string, Json>): Option<Json>
  {
    if input.description.Some? then Some(DescriptionObject(input.description.value))
    else if input.appendDescription.Some? then
      Some(DescriptionObject(Appended(DescriptionText(DictGet(current, "description", JNull)), input.appendDescription.value)))
    else None
  }

  /**
   * The `_links` object of the PATCH; each field is the entry under the
   * JSON key `status`, `priority`, `version`, `assignee`, `responsible`,
   * `type` or `project`, `None` where the key is absent.
   */
  datatype LinksBody = LinksBody(
    status: Option<Json>, priority: Option<Json>, version: Option<Json>, assignee: Option<Json>,
    responsible: Option<Json>, wpType: Option<Json>, project: Option<Json>)

  /**
   * The PATCH body; each field is the entry under the JSON key
   * `lockVersion`, `subject`, `description`, `startDate`, `dueDate`,
   * `percentageDone`, `estimatedTime` or `_links`, `None` where the key is
   * absent.
   */
  datatype Body = Body(
    lockVersion: Json, subject: Option<string>, description: Option<Json>, startDate: Option<string>,
    dueDate: Option<string>, percentageDone: Option<int>, estimatedTime: Option<string>, links: Option<LinksBody>)

  /** `{"href": prefix + str(id)}`. */
  function HrefTo(prefix: string, id: int): Json
  {
    JDict(map["href" := JStr(prefix + IntToString(id))])
  }

  /** `{"href": None}`: the link cleared. */
  const ClearedHref := JDict(map["href" := JNull])

  /** The link to a looked-up id, or the cleared link when no id was looked up. */
  function LinkTo(prefix: string, id: Option<int>): Json
  {
    if id.Some? then HrefTo(prefix, id.value) else ClearedHref
  }

  /** The entry of a link field: present exactly when the field was provided. */
  function LinkEntry(provided: bool, prefix: string, id: Option<int>): Option<Json>
  {
    if provided then Some(LinkTo(prefix, id)) else None
  }

  /** The ids the resolvers produced for the provided link fields; `None` where nothing was looked up. */
  datatype ResolvedLinks = ResolvedLinks(
    status: Option<int>, priority: Option<int>, version: Option<int>, assignee: Option<int>,
    accountable: Option<int>, wpType: Option<int>, project: Option<int>)

  /** The answer of a lookup that is made only when `wanted`. */
  function LookUp(wanted: bool, id: Result<int>): (r: Result<Option<int>>)
    ensures !wanted ==> r == Ok(None)
    ensures wanted && id.Ok? ==> r == Ok(Some(id.value))
    ensures wanted && id.Err? ==> r == Err(id.error)
  {
    if !wanted then Ok(None) else if id.Ok? then Ok(Some(id.value)) else Err(id.error)
  }

  /** Python `key in container` for a decoded JSON container; `in` on a number or `None` raises. */
  function JsonHas(container: Json, key: string): (r: Result<bool>)
    ensures container.JDict? ==> r == Ok(key in container.fields)
  {
    match container
    case JDict(fields) => Ok(key in fields)
    case JList(items) => Ok(JStr(key) in items)
    case JStr(s) => Ok(Contains(s, key))
    case _ => Err(TypeErr)
  }

  /** The project id of the work package, from its `project` link. */
  function WorkPackageProjectId(current: map<string, Json>): Result<Option<int>>
  {
    var href :- Hal.GetLinkHref(current, "project");
    Hal.HrefId(href)
  }

  /** The type id: the project-scoped lookup when the project is known and it succeeds, else the global one. */
  function TypeId(projectId: Option<int>, lookups: Lookups): (r: Result<int>)
    ensures projectId.None? || lookups.typeInProject.Err? ==> r == lookups.typeGlobal
    ensures projectId.Some? && lookups.typeInProject.Ok? ==> r == lookups.typeInProject
  {
    if projectId.Some? && lookups.typeInProject.Ok? then lookups.typeInProject else lookups.typeGlobal
  }

  /** Whether the current work package offers a `version` link to write. */
  function VersionWritable(current: map<string, Json>): Result<bool>
  {
    JsonHas(DictGet(current, "_links", JDict(map[])), "version")
  }

  /**
   * What `update_work_package` computes from its own inputs rather than
   * asks a resolver for: the estimated time as parsed, the project id
   * read from the work package's `project` link, and the description
   * object to send.
   */
  datatype Derived = Derived(estimate: Result<string>, wpProject: Result<Option<int>>, description: Option<Json>)

  /** The derived values for `input` and the current work package. */
  function Derive(input: UpdateInput, current: map<string, Json>): Derived
  {
    Derived(if input.estimatedTime.Some? then EstimatedTime(input.estimatedTime.value) else Ok(""),
            WorkPackageProjectId(current), DescriptionEntry(input, current))
  }

  /**
   * The lookups for the provided link fields, in the order the source
   * makes them; a given version needs the work package to offer a
   * `version` link, and a type is looked up in the work package's project
   * first.
   */
  function ResolveLinks(input: UpdateInput, current: map<string, Json>, lookups: Lookups,
                        wpProject: Result<Option<int>>): Result<ResolvedLinks>
  {
    var status :- LookUp(input.status.Some?, lookups.status);
    var priority :- LookUp(input.priority.Some?, lookups.priority);
    var writable :- if input.version.Given? then VersionWritable(current) else Ok(true);
    if !writable then Err(ValueErr(VersionNotWritable))
    else
      var version :- LookUp(input.version.Given?, lookups.version);
      var assignee :- LookUp(input.assignee.Given?, lookups.assignee);
      var accountable :- LookUp(input.accountable.Given?, lookups.accountable);
      var projectId :- if input.wpType.Some? then wpProject else Ok(None);
      var wpType :- LookUp(input.wpType.Some?, TypeId(projectId, lookups));
      var project :- LookUp(input.project.Some?, lookups.project);
      Ok(ResolvedLinks(status, priority, version, assignee, accountable, wpType, project))
  }

  /** Only a given version, assignee or accountable is looked up; a cleared one has no id. */
  lemma ResolveLinksPresence(input: UpdateInput, current: map<string, Json>, lookups: Lookups, wpProject: Result<Option<int>>)
    requires ResolveLinks(input, current, lookups, wpProject).Ok?
    ensures var links := ResolveLinks(input, current, lookups, wpProject).value;
      && (links.version.Some? <==> input.version.Given?)
      && (links.assignee.Some? <==> input.assignee.Given?)
      && (links.accountable.Some? <==> input.accountable.Given?)
  {
  }

  /** A given version is looked up only once the work package offers a `version` link; the ids are the resolvers' answers. */
  lemma ResolveLinksIds(input: UpdateInput, current: map<string, Json>, lookups: Lookups, wpProject: Result<Option<int>>)
    requires ResolveLinks(input, current, lookups, wpProject).Ok?
    ensures var links := ResolveLinks(input, current, lookups, wpProject).value;
      && (input.version.Given? ==> VersionWritable(current) == Ok(true) && lookups.version == Ok(links.version.value))
      && (input.assignee.Given? ==> lookups.assignee == Ok(links.assignee.value))
      && (input.accountable.Given? ==> lookups.accountable == Ok(links.accountable.value))
  {
  }

  /** A type given to `ResolveLinks` is the answer of the project-scoped or else the global type lookup. */
  lemma ResolveTypeLink(input: UpdateInput, current: map<string, Json>, lookups: Lookups, wpProject: Result<Option<int>>)
    requires ResolveLinks(input, current, lookups, wpProject).Ok? && input.wpType.Some?
    ensures wpProject.Ok? && ResolveLinks(input, current, lookups, wpProject).value.wpType.Some?
    ensures TypeId(wpProject.value, lookups) == Ok(ResolveLinks(input, current, lookups, wpProject).value.wpType.value)
  {
  }

  /** Whether any link field was provided; an explicitly cleared field counts. */
  predicate AnyLink(input: UpdateInput)
  {
    input.status.Some? || input.priority.Some? || !input.version.Omitted? || !input.assignee.Omitted?
    || !input.accountable.Omitted? || input.wpType.Some? || input.project.Some?
  }

  /**
   * The checks `update_work_package` makes before any lookup, given the
   * outcome of parsing the estimated time; their result is the lock
   * version and the estimated time to send.
   */
  function CheckInput(input: UpdateInput, current: map<string, Json>, url: string, estimate: Result<string>)
    : (r: Result<(Json, Option<string>)>)
    ensures input.description.Some? && input.appendDescription.Some? ==> r == Err(ValueErr(BothDescriptionsMessage))
    ensures !(input.description.Some? && input.appendDescription.Some?) && LockVersion(current).None? ==>
              r == Err(MissingLockVersion(url))
    ensures (!(input.description.Some? && input.appendDescription.Some?) && LockVersion(current).Some?
             && input.percentDone.Some? && !(0 <= input.percentDone.value <= 100)) ==> r == Err(ValueErr(PercentMessage))
    ensures r.Ok? ==> LockVersion(current) == Some(r.value.0)
    ensures r.Ok? ==> (input.percentDone.Some? ==> 0 <= input.percentDone.value <= 100)
    ensures r.Ok? ==> (r.value.1.Some? <==> input.estimatedTime.Some?)
    ensures r.Ok? && input.estimatedTime.Some? ==> estimate == Ok(r.value.1.value)
  {
    if input.description.Some? && input.appendDescription.Some? then Err(ValueErr(BothDescriptionsMessage))
    else match LockVersion(current)
      case None => Err(MissingLockVersion(url))
      case Some(lock) =>
        if input.percentDone.Some? && !(0 <= input.percentDone.value <= 100) then Err(ValueErr(PercentMessage))
        else if input.estimatedTime.None? then Ok((lock, None))
        else
          var estimated :- estimate;
          Ok((lock, Some(estimated)))
  }

  /** The `_links` object for the provided link fields and their resolved ids. */
  function LinksOf(input: UpdateInput, links: ResolvedLinks): LinksBody
  {
    LinksBody(
      LinkEntry(input.status.Some?, "/api/v3/statuses/", links.status),
      LinkEntry(input.priority.Some?, "/api/v3/priorities/", links.priority),
      LinkEntry(!input.version.Omitted?, "/api/v3/versions/", links.version),
      LinkEntry(!input.assignee.Omitted?, "/api/v3/users/", links.assignee),
      LinkEntry(!input.accountable.Omitted?, "/api/v3/users/", links.accountable),
      LinkEntry(input.wpType.Some?, "/api/v3/types/", links.wpType),
      LinkEntry(input.project.Some?, "/api/v3/projects/", links.project))
  }

  /** The PATCH body from the checked input, the description to send and the resolved links. */
  function UpdateBody(input: UpdateInput, lock: Json, estimated: Option<string>, description: Option<Json>,
                      links: ResolvedLinks): Body
  {
    Body(lock, input.subject, description, input.startDate, input.dueDate, input.percentDone, estimated,
         if AnyLink(input) then Some(LinksOf(input, links)) else None)
  }

  /**
   * The PATCH body `update_work_package` sends for `input`, given the
   * current work package (fetched from `url`), the resolvers' answers and
   * the derived values: the input checks, then the link lookups, then the
   * body.
   */
  function UpdateWith(input: UpdateInput, current: map<string, Json>, lookups: Lookups, url: string, derived: Derived)
    : (r: Result<Body>)
    ensures CheckInput(input, current, url, derived.estimate).Err? ==> r == Err(CheckInput(input, current, url, derived.estimate).error)
    ensures CheckInput(input, current, url, derived.estimate).Ok? && ResolveLinks(input, current, lookups, derived.wpProject).Err? ==>
              r == Err(ResolveLinks(input, current, lookups, derived.wpProject).error)
    ensures r.Ok? ==> CheckInput(input, current, url, derived.estimate).Ok? && ResolveLinks(input, current, lookups, derived.wpProject).Ok?
  {
    var checked :- CheckInput(input, current, url, derived.estimate);
    var links :- ResolveLinks(input, current, lookups, derived.wpProject);
    Ok(UpdateBody(input, checked.0, checked.1, derived.description, links))
  }

  /** `update_work_package`'s body, with the derived values it computes itself. */
  function UpdatePayload(input: UpdateInput, current: map<string, Json>, lookups: Lookups, url: string): Result<Body>
  {
    UpdateWith(input, current, lookups, url, Derive(input, current))
  }

  /**
   * Only provided fields are sent: the body carries the current lock
   * version, the plain fields exactly as provided (the percentage within
   * [0, 100]), an estimated time exactly when one was given, and `_links`
   * exactly when a link field was provided.
   */
  lemma UpdateOnlyProvided(input: UpdateInput, current: map<string, Json>, lookups: Lookups, url: string, derived: Derived)
    requires UpdateWith(input, current, lookups, url, derived).Ok?
    ensures var body := UpdateWith(input, current, lookups, url, derived).value;
      && LockVersion(current) == Some(body.lockVersion)
      && body.subject == input.subject && body.startDate == input.startDate && body.dueDate == input.dueDate
      && body.percentageDone == input.percentDone
      && (input.percentDone.Some? ==> 0 <= input.percentDone.value <= 100)
      && (body.estimatedTime.Some? <==> input.estimatedTime.Some?)
      && body.description == derived.description
      && (body.links.Some? <==> AnyLink(input))
  {
  }

  /** `_links` holds an entry exactly for each provided link field. */
  lemma UpdateLinksProvided(input: UpdateInput, current: map<string, Json>, lookups: Lookups, url: string, derived: Derived)
    requires UpdateWith(input, current, lookups, url, derived).Ok? && AnyLink(input)
    ensures var links := UpdateWith(input, current, lookups, url, derived).value.links;
      && links.Some?
      && (links.value.status.Some? <==> input.status.Some?)
      && (links.value.priority.Some? <==> input.priority.Some?)
      && (links.value.version.Some? <==> !input.version.Omitted?)
      && (links.value.assignee.Some? <==> !input.assignee.Omitted?)
      && (links.value.responsible.Some? <==> !input.accountable.Omitted?)
      && (links.value.wpType.Some? <==> input.wpType.Some?)
      && (links.value.project.Some? <==> input.project.Some?)
  {
  }

  /** A version set to `None` clears the link; a given one links to the resolved version. */
  lemma UpdateVersionLink(input: UpdateInput, current: map<string, Json>, lookups: Lookups, url: string, derived: Derived)
    requires UpdateWith(input, current, lookups, url, derived).Ok?
    requires !input.version.Omitted?
    ensures var links := UpdateWith(input, current, lookups, url, derived).value.links;
      && links.Some? && links.value.version.Some?
      && (input.version.Cleared? ==> links.value.version.value == ClearedHref)
      && (input.version.Given? ==>
            (lookups.version.Ok? && links.value.version.value == HrefTo("/api/v3/versions/", lookups.version.value)))
  {
    ResolveLinksPresence(input, current, lookups, derived.wpProject);
    ResolveLinksIds(input, current, lookups, derived.wpProject);
  }

  /** An assignee set to `None` clears the link; a given one links to the resolved user. */
  lemma UpdateAssigneeLink(input: UpdateInput, current: map<string, Json>, lookups: Lookups, url: string, derived: Derived)
    requires UpdateWith(input, current, lookups, url, derived).Ok?
    requires !input.assignee.Omitted?
    ensures var links := UpdateWith(input, current, lookups, url, derived).value.links;
      && links.Some? && links.value.assignee.Some?
      && (input.assignee.Cleared? ==> links.value.assignee.value == ClearedHref)
      && (input.assignee.Given? ==>
            (lookups.assignee.Ok? && links.value.assignee.value == HrefTo("/api/v3/users/", lookups.assignee.value)))
  {
    ResolveLinksPresence(input, current, lookups, derived.wpProject);
    ResolveLinksIds(input, current, lookups, derived.wpProject);
  }

  /** An accountable set to `None` clears the `responsible` link; a given one links to the resolved user. */
  lemma UpdateAccountableLink(input: UpdateInput, current: map<string, Json>, lookups: Lookups, url: string, derived: Derived)
    requires UpdateWith(input, current, lookups, url, derived).Ok?
    requires !input.accountable.Omitted?
    ensures var links := UpdateWith(input, current, lookups, url, derived).value.links;
      && links.Some? && links.value.responsible.Some?
      && (input.accountable.Cleared? ==> links.value.responsible.value == ClearedHref)
      && (input.accountable.Given? ==>
            (lookups.accountable.Ok? && links.value.responsible.value == HrefTo("/api/v3/users/", lookups.accountable.value)))
  {
    ResolveLinksPresence(input, current, lookups, derived.wpProject);
    ResolveLinksIds(input, current, lookups, derived.wpProject);
  }

  /**
   * A type is looked up in the work package's project when its `project`
   * link names one and that lookup succeeds; otherwise the global lookup
   * decides.
   */
  lemma UpdateTypeLink(input: UpdateInput, current: map<string, Json>, lookups: Lookups, url: string, derived: Derived)
    requires UpdateWith(input, current, lookups, url, derived).Ok?
    requires input.wpType.Some?
    ensures derived.wpProject.Ok?
    ensures var links := UpdateWith(input, current, lookups, url, derived).value.links;
      && links.Some? && links.value.wpType.Some?
      && (derived.wpProject.value.Some? && lookups.typeInProject.Ok? ==>
            links.value.wpType.value == HrefTo("/api/v3/types/", lookups.typeInProject.value))
      && (derived.wpProject.value.None? || lookups.typeInProject.Err? ==>
            (lookups.typeGlobal.Ok? && links.value.wpType.value == HrefTo("/api/v3/types/", lookups.typeGlobal.value)))
  {
    ResolveTypeLink(input, current, lookups, derived.wpProject);
  }

  /** A subject-only update sends exactly the subject and the lock version. */
  lemma UpdateSubjectOnly(subject: string, current: map<string, Json>, lookups: Lookups, url: string)
    requires LockVersion(current).Some?
    ensures var input := UpdateInput(Some(subject), None, None, None, None, None, None, None, None,
                                     Omitted, Omitted, Omitted, None, None);
      UpdatePayload(input, current, lookups, url)
      == Ok(Body(LockVersion(current).value, Some(subject), None, None, None, None, None, None))
  {
    var input := UpdateInput(Some(subject), None, None, None, None, None, None, None, None,
                             Omitted, Omitted, Omitted, None, None);
    var derived := Derive(input, current);
    assert derived.description == None;
    assert ResolveLinks(input, current, lookups, derived.wpProject) == Ok(ResolvedLinks(None, None, None, None, None, None, None));
  }

  /** A given version is refused when the work package offers no `version` link, whatever was resolved. */
  lemma UpdateVersionNotWritable(input: UpdateInput, current: map<string, Json>, lookups: Lookups, url: string,
                                 derived: Derived)
    requires CheckInput(input, current, url, derived.estimate).Ok?
    requires input.status.Some? ==> lookups.status.Ok?
    requires input.priority.Some? ==> lookups.priority.Ok?
    requires input.version.Given? && "_links" in current && current["_links"].JDict?
    requires "version" !in current["_links"].fields
    ensures UpdateWith(input, current, lookups, url, derived) == Err(ValueErr(VersionNotWritable))
  {
    assert VersionWritable(current) == Ok(false);
  }

  /**
   * `update_work_package` sends a description exactly when one was given
   * or one is to be appended; a given one replaces the text outright.
   */
  lemma UpdateDescriptionProvided(input: UpdateInput, current: map<string, Json>, lookups: Lookups, url: string)
    requires UpdatePayload(input, current, lookups, url).Ok?
    ensures var body := UpdatePayload(input, current, lookups, url).value;
      && (body.description.Some? <==> input.description.Some? || input.appendDescription.Some?)
      && (input.description.Some? ==> body.description == Some(DescriptionObject(input.description.value)))
  {
    UpdateOnlyProvided(input, current, lookups, url, Derive(input, current));
  }

  /**
   * The update with only `append_description` sends the same description
   * as the dedicated append tool.
   */
  lemma UpdateAppendAgrees(input: UpdateInput, current: map<string, Json>, lookups: Lookups, url: string)
    requires input.description.None? && input.appendDescription.Some?
    requires UpdatePayload(input, current, lookups, url).Ok?
    ensures AppendDescription(current, input.appendDescription.value, url).Ok?
    ensures UpdatePayload(input, current, lookups, url).value.description
            == Some(AppendDescription(current, input.appendDescription.value, url).value["description"])
  {
    UpdateOnlyProvided(input, current, lookups, url, Derive(input, current));
  }

  /** The estimated time sent is the outcome of parsing the given one. */
  lemma UpdateEstimatedSent(input: UpdateInput, current: map<string, Json>, lookups: Lookups, url: string, derived: Derived)
    requires UpdateWith(input, current, lookups, url, derived).Ok? && input.estimatedTime.Some?
    ensures derived.estimate.Ok?
    ensures UpdateWith(input, current, lookups, url, derived).value.estimatedTime == Some(derived.estimate.value)
  {
  }

  /** The estimated time `update_work_package` sends is passed through unchanged by a second update. */
  lemma UpdateEstimatedStable(input: UpdateInput, current: map<string, Json>, lookups: Lookups, url: string)
    requires UpdatePayload(input, current, lookups, url).Ok? && input.estimatedTime.Some?
    ensures var sent := UpdatePayload(input, current, lookups, url).value.estimatedTime;
      sent.Some? && EstimatedTime(sent.value) == Ok(sent.value)
  {
    var derived := Derive(input, current);
    UpdateEstimatedSent(input, current, lookups, url, derived);
    EstimatedTimeStable(input.estimatedTime.value, derived.estimate.value);
  }

  // ---- errors of the PATCH ----

  const ConflictMessage := "Update conflict: lockVersion is outdated. Re-fetch and retry."
  const ValidationFailed := "Validation failed."

  /** `[e.get("message") for e in errors if isinstance(e, dict) and e.get("message")]`. */
  function ErrorMessages(errors: seq<Json>): (r: seq<Json>)
    ensures |r| <= |errors|
    ensures forall i :: 0 <= i < |r| ==> Truthy(r[i])
  {
    if errors == [] then []
    else
      var m := if errors[0].JDict? then DictGet(errors[0].fields, "message", JNull) else JNull;
      (if Truthy(m) then [m] else []) + ErrorMessages(errors[1..])
  }

  /** Iterating the `errors` value: a list yields its items, a dict or string nothing usable, anything else raises. */
  function ErrorItems(errors: Json): Result<seq<Json>>
  {
    match errors
    case JList(items) => Ok(items)
    case JDict(_) => Ok([])
    case JStr(_) => Ok([])
    case _ => Err(TypeErr)
  }

  /** `"; ".join(messages)`, which needs every message to be a string. */
  function JoinMessages(messages: seq<Json>): Result<string>
  {
    if messages == [] then Ok("")
    else if !messages[0].JStr? then Err(TypeErr)
    else if |messages| == 1 then Ok(messages[0].s)
    else
      var rest :- JoinMessages(messages[1..]);
      Ok(messages[0].s + "; " + rest)
  }

  /** The message of a rewritten 422: the joined `_embedded.errors[*].message`, else the body's `message`. */
  function ValidationMessage(body: Option<map<string, Json>>): Result<Json>
  {
    if body.None? then Ok(JStr(ValidationFailed))
    else
      var embedded := DictGet(body.value, "_embedded", JDict(map[]));
      var errors := if embedded.JDict? then DictGet(embedded.fields, "errors", JList([])) else JList([]);
      var items :- ErrorItems(errors);
      var messages := ErrorMessages(items);
      if messages != [] then
        var joined :- JoinMessages(messages);
        Ok(JStr("Validation failed: " + joined))
      else if Truthy(DictGet(body.value, "message", JNull)) then Ok(DictGet(body.value, "message", JNull))
      else Ok(JStr(ValidationFailed))
  }

  /**
   * The PATCH failure as `update_work_package` re-raises it: a 409 or 422
   * keeps its status and bodies and gets a new message; anything else
   * propagates unchanged.
   */
  function RewritePatchError(e: Error, url: string): (r: Error)
    ensures !StatusIn(e, {409, 422}) ==> r == e
    ensures StatusIn(e, {409}) ==> r == HttpErr(409, "PATCH", url, JStr(ConflictMessage), e.responseJson, e.responseText)
    ensures StatusIn(e, {422}) && ValidationMessage(e.responseJson).Ok? ==>
              r == HttpErr(422, "PATCH", url, ValidationMessage(e.responseJson).value, e.responseJson, e.responseText)
  {
    if !StatusIn(e, {409, 422}) then e
    else if e.status == 409 then HttpErr(409, "PATCH", url, JStr(ConflictMessage), e.responseJson, e.responseText)
    else match ValidationMessage(e.responseJson)
      case Ok(m) => HttpErr(422, "PATCH", url, m, e.responseJson, e.responseText)
      case Err(t) => t
  }

  /** The rewritten 409 or 422 keeps its status: a client can still tell the two apart. */
  lemma RewriteKeepsStatus(e: Error, url: string)
    requires StatusIn(e, {409, 422})
    requires e.status == 422 ==> ValidationMessage(e.responseJson).Ok?
    ensures RewritePatchError(e, url).HttpErr? && RewritePatchError(e, url).status == e.status
    ensures RewritePatchError(e, url).responseJson == e.responseJson
  {
  }

  /** Every message of the body's errors appears, in order, in the rewritten 422. */
  lemma ValidationMessagesJoined(a: string, b: string)
    requires a != "" && b != ""
    ensures ValidationMessage(Some(map["_embedded" := JDict(map["errors" := JList([
              JDict(map["message" := JStr(a)]), JDict(map["message" := JStr(b)])])])]))
            == Ok(JStr("Validation failed: " + a + "; " + b))
  {
    var items := [JDict(map["message" := JStr(a)]), JDict(map["message" := JStr(b)])];
    assert items[1..] == [JDict(map["message" := JStr(b)])];
    assert ErrorMessages(items[1..][1..]) == [];
    assert ErrorMessages(items) == [JStr(a), JStr(b)];
    assert JoinMessages([JStr(a), JStr(b)][1..]) == Ok(b);
    assert JoinMessages([JStr(a), JStr(b)]) == Ok(a + "; " + b);
    var body := map["_embedded" := JDict(map["errors" := JList(items)])];
    assert DictGet(body, "_embedded", JDict(map[])) == JDict(map["errors" := JList(items)]);
    assert DictGet(map["errors" := JList(items)], "errors", JList([])) == JList(items);
    assert "Validation failed: " + (a + "; " + b) == "Validation failed: " + a + "; " + b;
  }

  /** A 422 whose body has no error messages and no `message` says only "Validation failed.". */
  lemma ValidationFailedPlain(e: Error, url: string)
    requires e.HttpErr? && e.status == 422 && e.responseJson == Some(map[])
    ensures RewritePatchError(e, url) == HttpErr(422, "PATCH", url, JStr(ValidationFailed), e.responseJson, e.responseText)
  {
  }
}
