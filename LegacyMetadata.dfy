/**
 * The name resolver of the older metadata tools. It follows the same
 * exact-then-substring order as the current one, but its `_norm` only
 * strips and casefolds: a metadata model whose `name` is `None` raises as
 * soon as the resolver looks at it, where the current `_norm` reads it as "".
 *
 * The project lookup for types, the scoped type listing with its fall-back
 * and the TTL cache are the same in both generations and are the ones in
 * `CoreMetadata` and `MetadataCache`.
 */
module LegacyMetadata {
  import opened Wrappers
  import opened Py
  import opened Lists
  import opened Resolution
  import CoreMetadata

  /** A validated metadata model (type, status, priority); its `name` may be `None`. */
  datatype Ref = Ref(id: int, name: Option<string>)

  /** `_norm(s)`: `s.strip().casefold()`, which raises on `None`. */
  function Norm(s: Option<string>): (r: Result<string>)
    ensures r.Ok? <==> s.Some?
    ensures r.Ok? ==> r.value == CoreMetadata.Norm(s)
  {
    match s
    case None => Err(TypeErr)
    case Some(t) => Ok(NormText(t))
  }

  /** The exact pass: the id of the first item whose name normalises to `q`; a `None` name reached first raises. */
  function ExactPass(q: string, items: seq<Ref>): Result<Option<int>>
  {
    if items == [] then Ok(None)
    else
      var n :- Norm(items[0].name);
      if n == q then Ok(Some(items[0].id)) else ExactPass(q, items[1..])
  }

  /** Every item has a name, so every `_norm` call of the substring pass succeeds. */
  predicate AllNamed(items: seq<Ref>)
  {
    forall i :: 0 <= i < |items| ==> items[i].name.Some?
  }

  function AsNamedRef(t: Ref): CoreMetadata.NamedRef
    requires t.name.Some?
  {
    CoreMetadata.NamedRef(t.id, t.name.value)
  }

  /** The items as the current generation sees them once every name is present. */
  function AsNamed(items: seq<Ref>): (r: seq<CoreMetadata.NamedRef>)
    requires AllNamed(items)
    ensures |r| == |items|
    ensures forall i :: 0 <= i < |items| ==> r[i] == AsNamedRef(items[i])
  {
    if items == [] then [] else [AsNamedRef(items[0])] + AsNamed(items[1..])
  }

  /**
   * `_resolve_from_items(name_query, items)`: the exact pass, then the
   * substring comprehension over every item (any `None` name raises there),
   * then one match, the ambiguity error or the not-found error.
   */
  function ResolveFromItems(query: string, items: seq<Ref>): Result<int>
  {
    var q := NormText(query);
    var exact :- ExactPass(q, items);
    if exact.Some? then Ok(exact.value)
    else if !AllNamed(items) then Err(TypeErr)
    else
      var named := AsNamed(items);
      Conclude(query, named, Filter(named, (t: CoreMetadata.NamedRef) => CoreMetadata.NameHas(t, q)),
               CoreMetadata.NamedId, CoreMetadata.NamedName)
  }

  /** On named items the exact pass is the first-index search of the current generation. */
  lemma {:induction false} ExactPassIsFirstIndex(q: string, items: seq<Ref>)
    requires AllNamed(items)
    ensures var f := FirstIndex(AsNamed(items), (t: CoreMetadata.NamedRef) => CoreMetadata.NameIs(t, q));
      ExactPass(q, items) == Ok(if f.Some? then Some(items[f.value].id) else None)
  {
    if items != [] {
      assert AsNamed(items)[1..] == AsNamed(items[1..]);
      ExactPassIsFirstIndex(q, items[1..]);
    }
  }

  /**
   * When every name is present the two generations agree: the older
   * resolver answers exactly what the current `_resolve_from_items` answers.
   */
  lemma AgreesWithCurrent(query: string, items: seq<Ref>)
    requires AllNamed(items)
    ensures ResolveFromItems(query, items) == CoreMetadata.ResolveFromItems(query, AsNamed(items))
  {
    ExactPassIsFirstIndex(NormText(query), items);
  }

  /** A `None` name the exact pass reaches before any hit raises. */
  lemma {:induction false} UnnamedBeforeHitRaises(query: string, items: seq<Ref>, k: nat)
    requires k < |items| && items[k].name.None?
    requires forall j :: 0 <= j < k ==> items[j].name.Some? && NormText(items[j].name.value) != NormText(query)
    ensures ResolveFromItems(query, items) == Err(TypeErr)
  {
    ExactPassRaises(NormText(query), items, k);
  }

  lemma {:induction false} ExactPassRaises(q: string, items: seq<Ref>, k: nat)
    requires k < |items| && items[k].name.None?
    requires forall j :: 0 <= j < k ==> items[j].name.Some? && NormText(items[j].name.value) != q
    ensures ExactPass(q, items) == Err(TypeErr)
  {
    if k > 0 {
      ExactPassRaises(q, items[1..], k - 1);
    }
  }

  /** An exact hit ahead of every `None` name is returned: later items are never looked at. */
  lemma {:induction false} ExactHitBeforeUnnamed(query: string, items: seq<Ref>, k: nat)
    requires k < |items| && items[k].name == Some(query)
    requires forall j :: 0 <= j < k ==> items[j].name.Some? && NormText(items[j].name.value) != NormText(query)
    ensures ResolveFromItems(query, items) == Ok(items[k].id)
  {
    ExactPassHit(NormText(query), items, k);
  }

  lemma {:induction false} ExactPassHit(q: string, items: seq<Ref>, k: nat)
    requires k < |items| && items[k].name.Some? && NormText(items[k].name.value) == q
    requires forall j :: 0 <= j < k ==> items[j].name.Some? && NormText(items[j].name.value) != q
    ensures ExactPass(q, items) == Ok(Some(items[k].id))
  {
    if k > 0 {
      ExactPassHit(q, items[1..], k - 1);
    }
  }

  /**
   * `resolve_type_for_project`: the project id, its type listing (`None` on
   * 404, 405 or 501), the global type list in that case, and the older
   * resolver on the list used.
   */
  function ResolveTypeForProject(project: CoreMetadata.ProjectArg, projects: Result<seq<CoreMetadata.ProjectRef>>,
                                 scopedTypes: int -> Result<seq<Ref>>,
                                 globalTypes: Result<seq<Ref>>, typeName: string): Result<int>
  {
    var projectId :- CoreMetadata.ResolveProjectIdForTypes(project, projects);
    var projectTypes :- CoreMetadata.FetchProjectTypes(scopedTypes(projectId));
    var items :- if projectTypes.None? then globalTypes else Ok(projectTypes.value);
    ResolveFromItems(typeName, items)
  }

  /**
   * The fall-back to the global list happens exactly on 404, 405 or 501;
   * any other failure of the scoped listing propagates unchanged.
   */
  lemma TypeFallback(project: CoreMetadata.ProjectArg, projects: Result<seq<CoreMetadata.ProjectRef>>,
                     scopedTypes: int -> Result<seq<Ref>>, globalTypes: Result<seq<Ref>>, typeName: string)
    requires CoreMetadata.ResolveProjectIdForTypes(project, projects).Ok?
    ensures var id := CoreMetadata.ResolveProjectIdForTypes(project, projects).value;
      var r := ResolveTypeForProject(project, projects, scopedTypes, globalTypes, typeName);
      && (scopedTypes(id).Err? && StatusIn(scopedTypes(id).error, {404, 405, 501}) ==>
            r == (if globalTypes.Ok? then ResolveFromItems(typeName, globalTypes.value) else Err(globalTypes.error)))
      && (scopedTypes(id).Err? && !StatusIn(scopedTypes(id).error, {404, 405, 501}) ==> r == Err(scopedTypes(id).error))
      && (scopedTypes(id).Ok? ==> r == ResolveFromItems(typeName, scopedTypes(id).value))
  {
  }
}
