/**
 * What every name resolver of the metadata tools shares once its exact passes
 * have failed: one match is the answer, several raise the ambiguity error
 * whose candidates are the matching names ordered by `(norm(name), id)`, and
 * none raises the not-found error listing every name ordered by `norm(name)`.
 */
module Resolution {
  import opened Text
  import opened Py
  import opened Sorting
  import opened Lists

  /** `s.strip().casefold()`, the normalisation of names and queries. */
  function NormText(s: string): string
  {
    Lower(Strip(s))
  }

  /** A name without surrounding whitespace normalises to its letter-by-letter lowering. */
  lemma NormWord(s: string, t: string)
    requires |s| > 0 && !IsSpace(s[0]) && !IsSpace(s[|s| - 1])
    requires |s| == |t| && forall i :: 0 <= i < |s| ==> LowerChar(s[i]) == t[i]
    ensures NormText(s) == t
  {
    StripTrimmed(s);
    LowerPointwise(s, t);
  }

  /** The sort key `(norm(name), id)` of ambiguity candidates. */
  function CandidateKey<T>(name: T -> string, id: T -> int): T -> Key
  {
    (t: T) => [Txt(NormText(name(t))), Num(id(t))]
  }

  /** The sort key `norm(name)` of the not-found list. */
  function NameKey(n: string): Key
  {
    [Txt(NormText(n))]
  }

  /** The names of the matches, ordered by `(norm(name), id)`. */
  function Candidates<T>(matches: seq<T>, id: T -> int, name: T -> string): seq<string>
  {
    Map(SortBy(matches, CandidateKey(name, id)), name)
  }

  /** `sorted([name(i) for i in items], key=norm)`. */
  function AvailableNames<T>(items: seq<T>, name: T -> string): seq<string>
  {
    SortBy(Map(items, name), NameKey)
  }

  /** The outcome of the substring pass. */
  function Conclude<T>(query: string, items: seq<T>, matches: seq<T>, id: T -> int, name: T -> string): (r: Result<int>)
    ensures r.Ok? <==> |matches| == 1
    ensures |matches| == 1 ==> r.value == id(matches[0])
    ensures |matches| > 1 ==> r.error.AmbiguousErr? && r.error.query == query
    ensures |matches| == 0 ==> r.error.NotFoundErr? && r.error.query == query
  {
    if |matches| == 1 then Ok(id(matches[0]))
    else if |matches| > 1 then Err(AmbiguousErr(query, Candidates(matches, id, name)))
    else Err(NotFoundErr(query, AvailableNames(items, name)))
  }

  /**
   * The ambiguity candidates are the names of the matches, each once, read
   * off a stable sort of the matches by `(norm(name), id)`.
   */
  lemma CandidatesSorted<T>(matches: seq<T>, id: T -> int, name: T -> string)
    ensures multiset(Candidates(matches, id, name)) == multiset(Map(matches, name))
    ensures exists sorted: seq<T> ::
              SortedBy(sorted, CandidateKey(name, id)) && multiset(sorted) == multiset(matches)
              && Candidates(matches, id, name) == Map(sorted, name)
  {
    var sorted := SortBy(matches, CandidateKey(name, id));
    SortBySorted(matches, CandidateKey(name, id));
    SortByPermutes(matches, CandidateKey(name, id));
    MapPermutation(sorted, matches, name);
  }

  /** The not-found list holds every name, each as often as it occurs, ordered by `norm(name)`. */
  lemma AvailableSorted<T>(items: seq<T>, name: T -> string)
    ensures multiset(AvailableNames(items, name)) == multiset(Map(items, name))
    ensures SortedBy(AvailableNames(items, name), NameKey)
    ensures |AvailableNames(items, name)| == |items|
  {
    SortBySorted(Map(items, name), NameKey);
    SortByPermutes(Map(items, name), NameKey);
    var a := AvailableNames(items, name);
    assert |a| == |multiset(a)| == |multiset(Map(items, name))| == |Map(items, name)|;
  }

  /** A successful substring pass names an item whose id it returns. */
  lemma ConcludeOk<T>(query: string, items: seq<T>, matches: seq<T>, id: T -> int, name: T -> string)
    requires forall t :: t in matches ==> t in items
    requires Conclude(query, items, matches, id, name).Ok?
    ensures exists k :: 0 <= k < |items| && id(items[k]) == Conclude(query, items, matches, id, name).value
  {
    assert matches[0] in items;
  }
}
