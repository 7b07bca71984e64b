/**
 * The user tools: custom-field extraction from a user payload (identical in
 * both generations), the profile mapping, the error rewriting of
 * `get_user_by_id`, the principal name matcher and the argument checks and
 * email filter of `get_users`.
 *
 * A custom-field accumulator is a record value here; `_merge_cf_link`
 * updates it and the extraction writes it back under its key.
 */
module Users {
  import opened Wrappers
  import opened Py
  import opened Text
  import opened Lists
  import opened Sorting
  import Hal
  import Paging
  import WorkPackages

  // ---- `_CUSTOM_FIELD_RE` ----

  const CfPrefix := "customField"

  /**
   * The group `^customField(\d+)$` captures in `k`. Python's `$` also
   * matches just before a final newline, so a key with one trailing "\n"
   * matches too.
   */
  function CfDigits(k: string): (r: Option<string>)
    ensures r.Some? ==> IsDigits(r.value) && (k == CfPrefix + r.value || k == CfPrefix + r.value + "\n")
  {
    if |k| <= |CfPrefix| || k[..|CfPrefix|] != CfPrefix then None
    else
      var rest := k[|CfPrefix|..];
      var body := if rest[|rest| - 1] == '\n' then rest[..|rest| - 1] else rest;
      if IsDigits(body) then Some(body) else None
  }

  predicate IsCfKey(k: string) { CfDigits(k).Some? }

  /** Every `customField<digits>` key matches, with or without one final newline, and captures its digits. */
  lemma CfDigitsMatch(d: string)
    requires IsDigits(d)
    ensures CfDigits(CfPrefix + d) == Some(d)
    ensures CfDigits(CfPrefix + d + "\n") == Some(d)
  {
    var k := CfPrefix + d;
    assert k[..|CfPrefix|] == CfPrefix;
    assert k[|CfPrefix|..] == d;
    var n := CfPrefix + d + "\n";
    assert n[..|CfPrefix|] == CfPrefix;
    assert n[|CfPrefix|..] == d + "\n";
    assert (d + "\n")[..|d|] == d;
  }

  // ---- the accumulator ----

  /** One `{"title": ..., "href": ...}` entry of a field's `links`. */
  datatype LinkEntry = LinkEntry(title: Json, href: Json)

  /** The accumulator dict of one custom field; `JNull` is Python's `None`. */
  datatype CustomField = CustomField(key: string, id: Option<int>, value: Json, title: Json, href: Json,
                                     links: seq<LinkEntry>)

  /** `_init_custom_field`: the id is the integer of an all-digit id part; everything else is empty. */
  function InitField(key: string, idPart: Option<string>): (cf: CustomField)
    ensures cf.key == key && cf.value == JNull && cf.title == JNull && cf.href == JNull && cf.links == []
    ensures cf.id.Some? <==> idPart.Some? && IsDigits(idPart.value)
  {
    var id := if idPart.Some? && IsDigits(idPart.value) then Some(DigitsValue(idPart.value) as int) else None;
    CustomField(key, id, JNull, JNull, JNull, [])
  }

  /** The key of a field numbered `n` gets the id `n`. */
  lemma InitFieldNumbered(n: nat)
    ensures InitField(CfPrefix + NatToString(n), CfDigits(CfPrefix + NatToString(n))).id == Some(n)
  {
    CfDigitsMatch(NatToString(n));
    NatToStringRoundTrip(n);
  }

  /** The entry a link item contributes. */
  function EntryOf(item: Json): LinkEntry
  {
    if item.JDict? then LinkEntry(DictGet(item.fields, "title", JNull), DictGet(item.fields, "href", JNull))
    else LinkEntry(JNull, JNull)
  }

  /**
   * `_merge_cf_link`: a non-dict item changes nothing; a dict appends its
   * entry, and title, href and value are filled only while still `None`
   * (first value wins).
   */
  function MergeLink(cf: CustomField, item: Json): (r: CustomField)
    ensures !item.JDict? ==> r == cf
    ensures item.JDict? ==> r.links == cf.links + [EntryOf(item)]
    ensures r.key == cf.key && r.id == cf.id
    ensures cf.value != JNull ==> r.value == cf.value
    ensures cf.title != JNull ==> r.title == cf.title
    ensures cf.href != JNull ==> r.href == cf.href
  {
    if !item.JDict? then cf
    else
      var e := EntryOf(item);
      cf.(links := cf.links + [e],
          title := if cf.title == JNull && Truthy(e.title) then e.title else cf.title,
          href := if cf.href == JNull && Truthy(e.href) then e.href else cf.href,
          value := if cf.value == JNull && e.title != JNull then e.title else cf.value)
  }

  /** Merging the items of a link list one after the other, in order. */
  function MergeAll(cf: CustomField, items: seq<Json>): CustomField
    decreases |items|
  {
    if items == [] then cf else MergeAll(MergeLink(cf, items[0]), items[1..])
  }

  /** The inner `for item in link_val: _merge_cf_link(cf, item)` loop. */
  method MergeLinks(cf: CustomField, items: seq<Json>) returns (r: CustomField)
    ensures r == MergeAll(cf, items)
  {
    r := cf;
    var i := 0;
    while i < |items|
      invariant 0 <= i <= |items|
      invariant MergeAll(r, items[i..]) == MergeAll(cf, items)
    {
      assert items[i..][1..] == items[i + 1..];
      r := MergeLink(r, items[i]);
      i := i + 1;
    }
  }

  // ---- reference definitions of what the merge keeps ----

  predicate IsDictItem(j: Json) { j.JDict? }

  /** The first non-`None` title among the dict items, or `None`. */
  function FirstTitle(items: seq<Json>): Json
  {
    if items == [] then JNull
    else if items[0].JDict? && EntryOf(items[0]).title != JNull then EntryOf(items[0]).title
    else FirstTitle(items[1..])
  }

  /** The first truthy value of `attr` among the dict items, or `None`. */
  function FirstTruthy(items: seq<Json>, attr: string): Json
  {
    if items == [] then JNull
    else if items[0].JDict? && Truthy(DictGet(items[0].fields, attr, JNull)) then DictGet(items[0].fields, attr, JNull)
    else FirstTruthy(items[1..], attr)
  }

  /** After merging a list of links, `links` holds one entry per dict item, in list order. */
  lemma {:induction false} MergeAllLinks(cf: CustomField, items: seq<Json>)
    ensures MergeAll(cf, items).links == cf.links + Map(Filter(items, IsDictItem), EntryOf)
    decreases |items|
  {
    if items != [] {
      MergeAllLinks(MergeLink(cf, items[0]), items[1..]);
      MapFilterCons(items, IsDictItem, EntryOf);
    }
  }

  /** The value is the earlier one if set, else the first non-`None` title of the items. */
  lemma {:induction false} MergeAllValue(cf: CustomField, items: seq<Json>)
    ensures MergeAll(cf, items).value == (if cf.value != JNull then cf.value else FirstTitle(items))
    decreases |items|
  {
    if items != [] {
      MergeAllValue(MergeLink(cf, items[0]), items[1..]);
    }
  }

  /** The title is the earlier one if set, else the first truthy title of the items. */
  lemma {:induction false} MergeAllTitle(cf: CustomField, items: seq<Json>)
    ensures MergeAll(cf, items).title == (if cf.title != JNull then cf.title else FirstTruthy(items, "title"))
    decreases |items|
  {
    if items != [] {
      MergeAllTitle(MergeLink(cf, items[0]), items[1..]);
    }
  }

  /** The href is the earlier one if set, else the first truthy href of the items. */
  lemma {:induction false} MergeAllHref(cf: CustomField, items: seq<Json>)
    ensures MergeAll(cf, items).href == (if cf.href != JNull then cf.href else FirstTruthy(items, "href"))
    decreases |items|
  {
    if items != [] {
      MergeAllHref(MergeLink(cf, items[0]), items[1..]);
    }
  }

  /** Merging never changes the key or the id. */
  lemma {:induction false} MergeAllKey(cf: CustomField, items: seq<Json>)
    ensures MergeAll(cf, items).key == cf.key && MergeAll(cf, items).id == cf.id
    decreases |items|
  {
    if items != [] {
      MergeAllKey(MergeLink(cf, items[0]), items[1..]);
    }
  }

  // ---- `_extract_custom_fields` ----

  /** `payload.get("_links")` when it is a dict, else no links. */
  function LinksOf(payload: map<string, Json>): map<string, Json>
  {
    if "_links" in payload && payload["_links"].JDict? then payload["_links"].fields else map[]
  }

  /** A list-valued link is merged item by item; any other value as one item. */
  function LinkItems(v: Json): seq<Json>
  {
    if v.JList? then v.items else [v]
  }

  /** The keys that get an accumulator: matching root properties and matching link names. */
  function CfKeys(payload: map<string, Json>): set<string>
  {
    (set k | k in payload && IsCfKey(k)) + (set k | k in LinksOf(payload) && IsCfKey(k))
  }

  /** A field after the root pass: its root value, if the payload has one. */
  function RootStage(payload: map<string, Json>, k: string): CustomField
  {
    var cf := InitField(k, CfDigits(k));
    if k in payload then cf.(value := payload[k]) else cf
  }

  /** The accumulator of `k` once both passes are over. */
  function Accumulated(payload: map<string, Json>, k: string): (cf: CustomField)
    ensures cf.key == k
  {
    var links := LinksOf(payload);
    var root := RootStage(payload, k);
    MergeAllKey(root, if k in links then LinkItems(links[k]) else []);
    if k in links then MergeAll(root, LinkItems(links[k])) else root
  }

  /** The sort key `((c.get("id") or 0), c.get("key") or "")`. */
  function CfSortKey(c: CustomField): Key
  {
    [Num(if c.id.Some? then c.id.value else 0), Txt(c.key)]
  }

  ghost predicate StrictlySorted(s: seq<CustomField>)
  {
    forall i, j :: 0 <= i < j < |s| ==> KeyLt(CfSortKey(s[i]), CfSortKey(s[j]))
  }

  /**
   * What `_extract_custom_fields` returns for `payload`: one accumulator per
   * matching key, each as both passes leave it, in increasing (id or 0, key)
   * order.
   */
  ghost predicate IsFieldsOf(payload: map<string, Json>, r: seq<CustomField>)
  {
    (forall i :: 0 <= i < |r| ==> r[i].key in CfKeys(payload) && r[i] == Accumulated(payload, r[i].key))
    && (forall k :: k in CfKeys(payload) ==> Accumulated(payload, k) in r)
    && StrictlySorted(r)
  }

  /** Inserting a field whose sort key is new keeps a strictly sorted list strictly sorted. */
  lemma {:induction false} InsertStrict(x: CustomField, s: seq<CustomField>)
    requires StrictlySorted(s)
    requires forall i :: 0 <= i < |s| ==> CfSortKey(s[i]) != CfSortKey(x)
    ensures StrictlySorted(Insert(x, s, CfSortKey))
  {
    if s == [] {
    } else if KeyLe(CfSortKey(x), CfSortKey(s[0])) {
      forall j | 0 < j < |s|
        ensures KeyLt(CfSortKey(x), CfSortKey(s[j]))
      {
        KeyLtTrans(CfSortKey(x), CfSortKey(s[0]), CfSortKey(s[j]));
      }
    } else {
      KeyNotLe(CfSortKey(x), CfSortKey(s[0]));
      InsertStrict(x, s[1..]);
      InsertAbove(x, s[1..], CfSortKey, CfSortKey(s[0]));
    }
  }

  /** Fields with different keys have different sort keys. */
  lemma SortKeysDiffer(a: CustomField, b: CustomField)
    requires a.key != b.key
    ensures CfSortKey(a) != CfSortKey(b)
  {
    assert CfSortKey(a)[1] != CfSortKey(b)[1];
  }

  /** `sorted(fields.values(), key=...)` for accumulators stored under their own keys. */
  method SortFields(fields: map<string, CustomField>) returns (r: seq<CustomField>)
    requires forall k :: k in fields ==> fields[k].key == k
    ensures StrictlySorted(r)
    ensures forall y :: y in r <==> y in fields.Values
  {
    r := [];
    var todo := fields.Keys;
    while todo != {}
      invariant todo <= fields.Keys
      invariant StrictlySorted(r)
      invariant forall y :: y in r <==> y in fields.Values && y.key !in todo
      decreases |todo|
    {
      var k :| k in todo;
      todo := todo - {k};
      forall i | 0 <= i < |r|
        ensures CfSortKey(r[i]) != CfSortKey(fields[k])
      {
        assert r[i] in r;
        SortKeysDiffer(r[i], fields[k]);
      }
      InsertStrict(fields[k], r);
      InsertMembers(fields[k], r, CfSortKey);
      r := Insert(fields[k], r, CfSortKey);
    }
  }

  /** The first loop of `_extract_custom_fields`: one accumulator per matching root property, holding its value. */
  method RootPass(payload: map<string, Json>) returns (fields: map<string, CustomField>)
    ensures fields.Keys == set k | k in payload && IsCfKey(k)
    ensures forall k :: k in fields ==> fields[k] == RootStage(payload, k)
  {
    fields := map[];
    var todo := payload.Keys;
    while todo != {}
      invariant todo <= payload.Keys
      invariant fields.Keys == set k | k in payload && k !in todo && IsCfKey(k)
      invariant forall k :: k in fields ==> fields[k] == RootStage(payload, k)
      decreases |todo|
    {
      var k :| k in todo;
      todo := todo - {k};
      var digits := CfDigits(k);
      if digits.Some? {
        // each key comes once, so `setdefault` always creates the accumulator
        fields := fields[k := InitField(k, digits).(value := payload[k])];
      }
    }
  }

  /**
   * One step of the `_links` loop: `setdefault` the accumulator of `k` (its
   * root stage) and merge the link items of `k` into it.
   */
  method MergeLinkField(payload: map<string, Json>, fields: map<string, CustomField>, k: string)
    returns (fields': map<string, CustomField>)
    requires IsCfKey(k) && k in LinksOf(payload)
    requires k in fields <==> k in payload
    requires k in fields ==> fields[k] == RootStage(payload, k)
    ensures fields' == fields[k := Accumulated(payload, k)]
  {
    var cf := if k in fields then fields[k] else InitField(k, CfDigits(k));
    cf := MergeLinks(cf, LinkItems(LinksOf(payload)[k]));
    fields' := fields[k := cf];
  }

  /**
   * The `_links` loop of `_extract_custom_fields`: each matching link name
   * gets its accumulator (the root one, or a new one) and merges its items.
   */
  method LinkPass(payload: map<string, Json>, roots: map<string, CustomField>) returns (fields: map<string, CustomField>)
    requires roots.Keys == set k | k in payload && IsCfKey(k)
    requires forall k :: k in roots ==> roots[k] == RootStage(payload, k)
    ensures fields.Keys == CfKeys(payload)
    ensures forall k :: k in fields ==> fields[k] == Accumulated(payload, k)
  {
    fields := roots;
    var links := LinksOf(payload);
    var todo := links.Keys;
    while todo != {}
      invariant todo <= links.Keys
      invariant forall k :: k in fields <==> k in roots || (k in links && k !in todo && IsCfKey(k))
      invariant forall k :: k in fields ==> fields[k] == (if k in links && k !in todo then Accumulated(payload, k) else RootStage(payload, k))
      decreases |todo|
    {
      var k :| k in todo;
      todo := todo - {k};
      if IsCfKey(k) {
        var next := MergeLinkField(payload, fields, k);
        forall j | j in next
          ensures next[j] == (if j in links && j !in todo then Accumulated(payload, j) else RootStage(payload, j))
        {
          if j != k {
            assert next[j] == fields[j];
          }
        }
        fields := next;
      }
    }
    assert forall k :: k in fields <==> k in CfKeys(payload);
  }

  /**
   * `_extract_custom_fields`: the root pass, the `_links` pass with its
   * per-item merge, then the sort by (id or 0, key).
   */
  method ExtractCustomFields(payload: map<string, Json>) returns (r: seq<CustomField>)
    ensures IsFieldsOf(payload, r)
  {
    var roots := RootPass(payload);
    var fields := LinkPass(payload, roots);
    r := SortFields(fields);
    forall i | 0 <= i < |r|
      ensures r[i].key in CfKeys(payload) && r[i] == Accumulated(payload, r[i].key)
    {
      assert r[i] in r;
    }
    forall k | k in CfKeys(payload)
      ensures Accumulated(payload, k) in r
    {
      assert fields[k] in fields.Values;
    }
  }

  // ---- what the extraction keeps ----

  /** A non-`None` root value is the field's value even when links for the same key exist. */
  lemma RootValueKept(payload: map<string, Json>, k: string)
    requires k in payload && payload[k] != JNull
    ensures Accumulated(payload, k).value == payload[k]
  {
    var links := LinksOf(payload);
    if k in links {
      MergeAllValue(RootStage(payload, k), LinkItems(links[k]));
    }
  }

  /**
   * A field that only has links takes the first non-`None` link title as
   * its value and the first truthy title and href, and lists one entry per
   * dict item in order.
   */
  lemma LinkOnlyField(payload: map<string, Json>, k: string)
    requires k !in payload && k in LinksOf(payload)
    ensures var items := LinkItems(LinksOf(payload)[k]);
      var cf := Accumulated(payload, k);
      cf.value == FirstTitle(items) && cf.title == FirstTruthy(items, "title")
      && cf.href == FirstTruthy(items, "href") && cf.links == Map(Filter(items, IsDictItem), EntryOf)
  {
    var items := LinkItems(LinksOf(payload)[k]);
    MergeAllValue(RootStage(payload, k), items);
    MergeAllTitle(RootStage(payload, k), items);
    MergeAllHref(RootStage(payload, k), items);
    MergeAllLinks(RootStage(payload, k), items);
  }

  /** No two fields of the result share a key. */
  lemma FieldsDistinct(payload: map<string, Json>, r: seq<CustomField>, i: nat, j: nat)
    requires IsFieldsOf(payload, r) && i < j < |r|
    ensures r[i].key != r[j].key
  {
    KeyLtIrreflexive(CfSortKey(r[i]));
  }

  // ---- `_user_payload_to_profile` ----

  /** The profile dict; `customFields` holds the extracted fields. */
  datatype Profile = Profile(id: Json, name: Json, login: Json, status: Json, email: Json, admin: Json,
                             createdAt: Json, updatedAt: Json, lastLogin: Json, href: Json,
                             customFields: seq<CustomField>)

  /** `payload.get("mail") or payload.get("email")`. */
  function ContactEmail(payload: map<string, Json>): (e: Json)
    ensures Truthy(DictGet(payload, "mail", JNull)) ==> e == payload["mail"]
    ensures !Truthy(DictGet(payload, "mail", JNull)) ==> e == DictGet(payload, "email", JNull)
  {
    var mail := DictGet(payload, "mail", JNull);
    if Truthy(mail) then mail else DictGet(payload, "email", JNull)
  }

  /** An email is reported exactly when "mail" or "email" is truthy. */
  lemma ContactEmailVisible(payload: map<string, Json>)
    ensures Truthy(ContactEmail(payload)) <==> Truthy(DictGet(payload, "mail", JNull)) || Truthy(DictGet(payload, "email", JNull))
  {
  }

  /** The profile of `payload` with the self-link `href` and the fields `cfs`. */
  function ProfileOf(payload: map<string, Json>, href: Json, cfs: seq<CustomField>): Profile
  {
    Profile(DictGet(payload, "id", JNull), DictGet(payload, "name", JNull), DictGet(payload, "login", JNull),
            DictGet(payload, "status", JNull), ContactEmail(payload), DictGet(payload, "admin", JNull),
            DictGet(payload, "createdAt", JNull), DictGet(payload, "updatedAt", JNull),
            DictGet(payload, "lastLogin", JNull), href, cfs)
  }

  /**
   * `_user_payload_to_profile`: raises only where reading the self link
   * does; otherwise copies the user's attributes, takes the email and the
   * self href, and extracts the custom fields.
   */
  method UserPayloadToProfile(payload: map<string, Json>) returns (r: Result<Profile>)
    ensures r.Ok? <==> Hal.GetLinkHref(payload, "self").Ok?
    ensures r.Err? ==> r == Err(Hal.GetLinkHref(payload, "self").error)
    ensures r.Ok? ==> r.value == ProfileOf(payload, Hal.GetLinkHref(payload, "self").value, r.value.customFields)
                      && IsFieldsOf(payload, r.value.customFields)
  {
    var href := Hal.GetLinkHref(payload, "self");
    if href.Err? {
      return Err(href.error);
    }
    var cfs := ExtractCustomFields(payload);
    r := Ok(ProfileOf(payload, href.value, cfs));
  }

  // ---- `get_user_by_id` ----

  const UserPermissionDenied := "Permission denied: unable to view this user."
  const UserNotVisible := "User not found or insufficient permissions to view this user."

  function UserUrl(baseUrl: string, userId: int): string
  {
    baseUrl + "/api/v3/users/" + IntToString(userId)
  }

  /** The error `get_user_by_id` raises for the error `e` of its GET. */
  function UserLookupError(e: Error, url: string): (r: Error)
    ensures StatusIn(e, {403}) ==> r.HttpErr? && r.detail == JStr(UserPermissionDenied)
    ensures StatusIn(e, {404}) ==> r.HttpErr? && r.detail == JStr(UserNotVisible)
    ensures !StatusIn(e, {403, 404}) ==> r == e
  {
    if StatusIn(e, {403, 404}) then
      HttpErr(e.status, "GET", url, JStr(if e.status == 403 then UserPermissionDenied else UserNotVisible),
              e.responseJson, e.responseText)
    else e
  }

  /** The rewrite keeps the status code and both response bodies and names the GET of the user. */
  lemma UserLookupErrorKeeps(e: Error, url: string)
    requires e.HttpErr?
    ensures var r := UserLookupError(e, url);
      r.HttpErr? && r.status == e.status && r.responseJson == e.responseJson && r.responseText == e.responseText
      && (e.status in {403, 404} ==> r.verb == "GET" && r.url == url)
  {
  }

  /**
   * `get_user_by_id`: the GET answered `response`; a 403 or 404 is
   * rewritten, any other error propagates, and a payload becomes a profile.
   */
  method GetUserById(baseUrl: string, userId: int, response: Result<map<string, Json>>) returns (r: Result<Profile>)
    ensures response.Err? ==> r == Err(UserLookupError(response.error, UserUrl(baseUrl, userId)))
    ensures response.Ok? ==> (r.Ok? <==> Hal.GetLinkHref(response.value, "self").Ok?)
    ensures response.Ok? && r.Ok? ==>
              r.value == ProfileOf(response.value, Hal.GetLinkHref(response.value, "self").value, r.value.customFields)
              && IsFieldsOf(response.value, r.value.customFields)
  {
    if response.Err? {
      return Err(UserLookupError(response.error, UserUrl(baseUrl, userId)));
    }
    r := UserPayloadToProfile(response.value);
  }

  // ---- `_match_principal_by_name` ----

  function UserNameAmbiguous(name: string): string { "User name '" + name + "' is ambiguous; please provide a numeric user id." }
  function UserNameNotFound(name: string): string { "User '" + name + "' not found; provide a numeric user id." }

  /**
   * `_match_principal_by_name`: the exact-then-unique-partial rules of the
   * work-package matchers with the user tool's messages.
   */
  function MatchPrincipalByName(name: string, principals: seq<WorkPackages.Named>): (r: Result<int>)
    ensures r.Err? ==> r.error == ValueErr(UserNameAmbiguous(name)) || r.error == ValueErr(UserNameNotFound(name))
  {
    WorkPackages.MatchByName(name, principals, UserNameAmbiguous(name), UserNameNotFound(name))
  }

  /** An id returned belongs to a principal whose name matched exactly or partially. */
  lemma MatchPrincipalByNameSound(name: string, principals: seq<WorkPackages.Named>)
    requires MatchPrincipalByName(name, principals).Ok?
    ensures exists p :: p in principals && p.id == Some(MatchPrincipalByName(name, principals).value)
                        && (WorkPackages.ExactName(p, WorkPackages.NormCollapsed(name))
                            || WorkPackages.PartialName(p, WorkPackages.NormCollapsed(name)))
  {
    WorkPackages.MatchByNameSound(name, principals, UserNameAmbiguous(name), UserNameNotFound(name));
  }

  // ---- `get_users`: arguments and the email filter ----

  const OffsetNegative := "offset must be >= 0"

  /** The checks `get_users` makes first: a negative offset raises; the page size is clamped. */
  function UsersPageSize(offset: int, pageSize: int): (r: Result<int>)
    ensures r.Err? <==> offset < 0
    ensures r.Err? ==> r.error == ValueErr(OffsetNegative)
    ensures r.Ok? ==> 1 <= r.value <= Paging.MaxPageSize
    ensures r.Ok? && 1 <= pageSize <= Paging.MaxPageSize ==> r.value == pageSize
  {
    if offset < 0 then Err(ValueErr(OffsetNegative)) else Ok(Paging.ClampPageSize(pageSize))
  }

  /** One listed user, as `get_users` builds it; `email` is already `mail or email`. */
  datatype UserItem = UserItem(id: Json, name: Json, login: Json, email: Json, admin: Json, status: Json)

  /** The user shows an email. */
  predicate HasEmail(u: UserItem) { Truthy(u.email) }

  /** A shown email that is not a string: `.casefold()` raises on it. */
  predicate BadEmail(u: UserItem) { Truthy(u.email) && !u.email.JStr? }

  /** `(u.get("email") or u.get("mail") or "")` as text. */
  function MailText(u: UserItem): string
  {
    if u.email.JStr? then u.email.s else ""
  }

  /** `email_filter.strip().casefold()`. */
  function Needle(emailFilter: string): string { Lower(Strip(emailFilter)) }

  predicate EmailMatches(u: UserItem, needle: string) { Contains(Lower(MailText(u)), needle) }

  /** The filter's test `mail.casefold().find(needle) != -1` for one needle. */
  function MatchesNeedle(needle: string): UserItem -> bool
  {
    (u: UserItem) => EmailMatches(u, needle)
  }

  const EmailHiddenWarning := "email not visible to this token; email_filter may be ignored and returned no matches."

  /**
   * `apply_email_filter`: without a filter the users pass unchanged;
   * otherwise exactly the users whose email contains the needle remain, in
   * order, and `warn` (the warning is appended) holds iff no user showed an
   * email. A shown email that is not a string raises.
   */
  method ApplyEmailFilter(users: seq<UserItem>, emailFilter: Option<string>) returns (r: Result<seq<UserItem>>, warn: bool)
    ensures emailFilter.None? || emailFilter.value == "" ==> r == Ok(users) && !warn
    ensures emailFilter.Some? && emailFilter.value != "" ==> (r.Ok? <==> !Any(users, BadEmail))
    ensures emailFilter.Some? && emailFilter.value != "" && r.Ok? ==>
              r.value == Filter(users, MatchesNeedle(Needle(emailFilter.value)))
              && (warn <==> !Any(users, HasEmail))
  {
    if emailFilter.None? || emailFilter.value == "" {
      return Ok(users), false;
    }
    var needle := Needle(emailFilter.value);
    var matches := MatchesNeedle(needle);
    var filtered: seq<UserItem> := [];
    var seen := false;
    var i := 0;
    while i < |users|
      invariant 0 <= i <= |users|
      invariant filtered == Filter(users[..i], matches)
      invariant seen <==> Any(users[..i], HasEmail)
      invariant !Any(users[..i], BadEmail)
    {
      var u := users[i];
      FilterSnoc(users, i, matches);
      AnySnocAt(users, i, HasEmail);
      AnySnocAt(users, i, BadEmail);
      if HasEmail(u) {
        seen := true;
      }
      if BadEmail(u) {
        return Err(TypeErr), false;
      }
      if matches(u) {
        filtered := filtered + [u];
      }
      i := i + 1;
    }
    assert users[..|users|] == users;
    warn := !seen;
    r := Ok(filtered);
  }

  /** A filter that is only whitespace keeps every user. */
  lemma BlankFilterKeepsAll(users: seq<UserItem>, emailFilter: string)
    requires Strip(emailFilter) == ""
    ensures Filter(users, MatchesNeedle(Needle(emailFilter))) == users
  {
    assert Needle(emailFilter) == "";
    forall u: UserItem
      ensures EmailMatches(u, "")
    {
      ContainsEmpty(Lower(MailText(u)));
    }
    FilterAll(users, MatchesNeedle(Needle(emailFilter)));
  }
}
