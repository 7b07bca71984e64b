/** The element list of a HAL collection resource (`embedded_elements`). */
module Collections {
  import opened Py
  import opened Lists

  predicate IsDict(j: Json) { j.JDict? }

  function Fields(j: Json): map<string, Json>
    requires j.JDict?
  {
    j.fields
  }

  /** `[e for e in items if isinstance(e, dict)]`. */
  function Dicts(items: seq<Json>): (r: seq<map<string, Json>>)
    ensures |r| <= |items|
  {
    if items == [] then []
    else (if items[0].JDict? then [items[0].fields] else []) + Dicts(items[1..])
  }

  /** The dictionaries kept are exactly the dict elements, in their original order. */
  lemma {:induction false} DictsAreTheDictElements(items: seq<Json>)
    ensures Map(Dicts(items), (m: map<string, Json>) => JDict(m)) == Filter(items, IsDict)
  {
    if items != [] {
      DictsAreTheDictElements(items[1..]);
      var rest := Dicts(items[1..]);
      if items[0].JDict? {
        assert Dicts(items) == [items[0].fields] + rest;
        MapAppend([items[0].fields], rest, (m: map<string, Json>) => JDict(m));
      }
    }
  }

  /** Nothing is dropped exactly when every element is a dict. */
  lemma {:induction false} DictsKeepAllIffAllDicts(items: seq<Json>)
    ensures |Dicts(items)| == |items| <==> forall i :: 0 <= i < |items| ==> items[i].JDict?
  {
    if items != [] {
      DictsKeepAllIffAllDicts(items[1..]);
      if forall i :: 0 <= i < |items| ==> items[i].JDict? {
        assert forall i :: 0 <= i < |items[1..]| ==> items[1..][i].JDict? by {
          forall i | 0 <= i < |items[1..]| ensures items[1..][i].JDict? { assert items[1..][i] == items[i + 1]; }
        }
      } else if items[0].JDict? {
        var k :| 0 <= k < |items| && !items[k].JDict?;
        assert items[1..][k - 1] == items[k];
      }
    }
  }

  /**
   * `payload.get("_embedded", {}).get("elements", [])`, which must be a list
   * (ValueError otherwise), reduced to its dict elements.
   */
  function EmbeddedElements(payload: map<string, Json>): (r: Result<seq<map<string, Json>>>)
    ensures "_embedded" !in payload ==> r == Ok([])
    ensures ("_embedded" in payload && payload["_embedded"].JDict?
             && "elements" !in payload["_embedded"].fields) ==> r == Ok([])
    ensures r.Ok? && "_embedded" in payload ==>
              payload["_embedded"].JDict? &&
              ("elements" in payload["_embedded"].fields ==>
                 payload["_embedded"].fields["elements"].JList? &&
                 |r.value| <= |payload["_embedded"].fields["elements"].items|)
    ensures ("_embedded" in payload && payload["_embedded"].JDict?
             && "elements" in payload["_embedded"].fields
             && !payload["_embedded"].fields["elements"].JList?)
            ==> r == Err(ValueErr("Expected _embedded.elements to be a list."))
  {
    var embedded := DictGet(payload, "_embedded", JDict(map[]));
    var elements :- Get(embedded, "elements", JList([]));
    if !elements.JList? then Err(ValueErr("Expected _embedded.elements to be a list."))
    else Ok(Dicts(elements.items))
  }

  /** A collection page built from dict elements gives those elements back. */
  lemma {:induction false} EmbeddedElementsOfPage(elements: seq<map<string, Json>>)
    ensures EmbeddedElements(map["_embedded" := JDict(map["elements" := JList(Map(elements, (m: map<string, Json>) => JDict(m)))])])
            == Ok(elements)
  {
    DictsOfDicts(elements);
  }

  lemma {:induction false} DictsOfDicts(elements: seq<map<string, Json>>)
    ensures Dicts(Map(elements, (m: map<string, Json>) => JDict(m))) == elements
  {
    if elements != [] {
      DictsOfDicts(elements[1..]);
      assert Map(elements, (m: map<string, Json>) => JDict(m))[1..] == Map(elements[1..], (m: map<string, Json>) => JDict(m));
    }
  }
}
