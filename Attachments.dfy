/**
 * The attachment tools of a work package: the file name of a
 * Content-Disposition header (section 4.1 of RFC 6266, simplified), the
 * upload with its argument checks and file-handle discipline, one page of
 * the attachment listing, and the bounded preview of an attachment's bytes.
 * The older tool generation has the same upload and listing code.
 *
 * The file system, `mimetypes.guess_type` and base64 decoding are the
 * `Host` parameter; each HTTP call is an oracle whose answer is a parameter.
 */
module Attachments {
  import opened Wrappers
  import opened Py
  import opened Text
  import Lists
  import Hal
  import Paging
  import Collections
  import Client
  import Memberships

  /** `DEFAULT_PREVIEW_MAX_BYTES` and `DEFAULT_PAGE_SIZE`. */
  const DefaultPreviewMaxBytes := 1024
  const DefaultPageSize := 50

  newtype Byte = b: int | 0 <= b < 256

  type Bytes = seq<Byte>

  // ---- `_parse_disposition_filename` ----

  predicate IsQuote(c: char) { c == '"' }

  /** A `;`-part that carries the file name. */
  predicate NamesFile(part: string) { Contains(part, "filename=") }

  /** `s.split(c, 1)[1]`: the text after the first `c` (empty when there is none, which callers never meet). */
  function AfterFirst(s: string, c: char): string
  {
    if s == [] then [] else if s[0] == c then s[1..] else AfterFirst(s[1..], c)
  }

  /** `part.split("=", 1)[1].strip().strip('"')`. */
  function FilenameValue(part: string): string
  {
    TrimEnd(TrimStart(Strip(AfterFirst(part, '=')), IsQuote), IsQuote)
  }

  /** What `FilenameValue` keeps neither starts nor ends with a double quote. */
  lemma FilenameUnquoted(part: string)
    ensures var v := FilenameValue(part); v != [] ==> !IsQuote(v[0]) && !IsQuote(v[|v| - 1])
  {
    var t := TrimStart(Strip(AfterFirst(part, '=')), IsQuote);
    TrimEndPrefix(t, IsQuote);
  }

  /**
   * `_parse_disposition_filename(content_disposition)`: `None` for a missing
   * or empty header; otherwise the value of the first `;`-part containing
   * `filename=`, unquoted, or `None` when that value is empty or no part
   * names a file.
   */
  function ParseDispositionFilename(header: Option<string>): (r: Option<string>)
    ensures header.None? || header == Some("") ==> r.None?
    ensures r.Some? ==> r.value != [] && !IsQuote(r.value[0]) && !IsQuote(r.value[|r.value| - 1])
  {
    if header.None? || header.value == "" then None
    else
      var parts := Split(header.value, ';');
      match Lists.FirstIndex(parts, NamesFile)
      case None => None
      case Some(k) =>
        FilenameUnquoted(parts[k]);
        var v := FilenameValue(parts[k]);
        if v == "" then None else Some(v)
  }

  lemma {:induction false} AfterFirstAppend(a: string, c: char, b: string)
    requires c !in a
    ensures AfterFirst(a + [c] + b, c) == b
  {
    if a == [] {
      assert ([c] + b)[1..] == b;
    } else {
      assert (a + [c] + b)[1..] == a[1..] + [c] + b;
      AfterFirstAppend(a[1..], c, b);
    }
  }

  /** `name`, in double quotes or bare. */
  function Quoted(name: string, quoted: bool): string
  {
    if quoted then "\"" + name + "\"" else name
  }

  /** Splitting `<type>;<part>` on `;` gives the two, when neither holds a `;`. */
  lemma SplitTwoParts(kind: string, part: string)
    requires ';' !in kind && ';' !in part
    ensures Split(kind + [';'] + part, ';') == [kind, part]
  {
    SplitAppendSep(kind, ';', part);
    SplitNoSep(kind, ';');
    SplitNoSep(part, ';');
  }

  /** The part ` filename=<v>` names a file, and its value before unquoting is `v`. */
  lemma FilenamePart(v: string)
    ensures NamesFile(" filename=" + v)
    ensures AfterFirst(" filename=" + v, '=') == v
  {
    var part := " filename=" + v;
    assert part[1..1 + |"filename="|] == "filename=";
    ContainsAt(part, "filename=", 1);
    assert part == " filename" + ['='] + v;
    AfterFirstAppend(" filename", '=', v);
  }

  /** Unquoting `"<name>"` gives `name`. */
  lemma UnquoteQuoted(name: string)
    requires name != [] && !IsQuote(name[0]) && !IsQuote(name[|name| - 1])
    ensures TrimEnd(TrimStart(Strip("\"" + name + "\""), IsQuote), IsQuote) == name
  {
    var q := "\"" + name + "\"";
    var tail := name + "\"";
    StripTrimmed(q);
    assert q[1..] == tail;
    assert tail[0] == name[0];
    assert TrimStart(tail, IsQuote) == tail;
    assert TrimStart(q, IsQuote) == tail;
    assert tail[..|tail| - 1] == name;
    assert TrimEnd(name, IsQuote) == name;
  }

  /** Unquoting a bare `name` leaves it alone. */
  lemma UnquoteBare(name: string)
    requires name != [] && !IsQuote(name[0]) && !IsQuote(name[|name| - 1])
    requires !IsSpace(name[0]) && !IsSpace(name[|name| - 1])
    ensures TrimEnd(TrimStart(Strip(name), IsQuote), IsQuote) == name
  {
    StripTrimmed(name);
    assert TrimStart(name, IsQuote) == name;
  }

  /** The value of the part ` filename=<name>` (quoted or not) is the name. */
  lemma FilenameOfPart(name: string, quoted: bool)
    requires name != [] && !IsQuote(name[0]) && !IsQuote(name[|name| - 1])
    requires !quoted ==> !IsSpace(name[0]) && !IsSpace(name[|name| - 1])
    ensures NamesFile(" filename=" + Quoted(name, quoted))
    ensures FilenameValue(" filename=" + Quoted(name, quoted)) == name
  {
    FilenamePart(Quoted(name, quoted));
    if quoted {
      UnquoteQuoted(name);
    } else {
      UnquoteBare(name);
    }
  }

  /**
   * A header built as `<type>; filename=<name>` (quoted or not) gives the
   * name back, as long as the name has no `;`, does not start or end with a
   * quote, and, when bare, does not start or end with whitespace.
   */
  lemma DispositionRoundTrip(kind: string, name: string, quoted: bool)
    requires ';' !in kind && !NamesFile(kind)
    requires name != [] && ';' !in name && !IsQuote(name[0]) && !IsQuote(name[|name| - 1])
    requires !quoted ==> !IsSpace(name[0]) && !IsSpace(name[|name| - 1])
    ensures ParseDispositionFilename(Some(kind + "; filename=" + Quoted(name, quoted))) == Some(name)
  {
    var part := " filename=" + Quoted(name, quoted);
    assert kind + "; filename=" + Quoted(name, quoted) == kind + [';'] + part;
    assert ';' !in part by {
      assert forall i :: 0 <= i < |part| ==> part[i] == (if i < 10 then " filename="[i] else Quoted(name, quoted)[i - 10]);
    }
    SplitTwoParts(kind, part);
    FilenameOfPart(name, quoted);
    assert Lists.FirstIndex([kind, part], NamesFile) == Some(1);
  }

  // ---- `attach_file_to_wp` ----

  /** `base64.b64decode`: the bytes, or the message of the exception it raises. */
  datatype Decoded = Decoded(bytes: Bytes) | Invalid(detail: string)

  /**
   * What the tool asks of its host: whether a path is a file and its size,
   * `Path(p).name`, `mimetypes.guess_type(name)[0]` and base64 decoding.
   */
  datatype Host = Host(isFile: string -> bool, fileSize: string -> nat, baseName: string -> string,
                       guessType: string -> Option<string>, decode: string -> Decoded)

  /** The tool's arguments besides the client and the work package id. */
  datatype Args = Args(filePath: Option<string>, description: Option<string>, fileName: Option<string>,
                       content: Option<Bytes>, contentBase64: Option<string>, contentType: Option<string>)

  /** The file about to be sent: its name and content type, whether it is read from disk, and its size. */
  datatype Source = Source(fileName: string, contentType: string, fromDisk: bool, size: nat)

  const BothContentsMessage := "Provide either content or content_base64, not both."
  const NothingToSendMessage := "Either file_path or content/content_base64 must be provided."
  const EmptyContentMessage := "Attachment content is empty; refusing to upload."

  /** `file_path` is truthy, so `path` is set. */
  predicate PathGiven(a: Args) { a.filePath.Some? && a.filePath.value != "" }

  /** `content_type or mimetypes.guess_type(fname)[0] or "application/octet-stream"`. */
  function ContentTypeFor(a: Args, host: Host, fileName: string): string
  {
    Client.Or(a.contentType, Client.Or(host.guessType(fileName), "application/octet-stream"))
  }

  /**
   * The checks and defaults ahead of the size test: both contents given,
   * undecodable base64, no content and no path, and a path that is not a
   * file each raise; otherwise the file to send.
   */
  function OpenSource(a: Args, host: Host): Result<Source>
  {
    if a.content.Some? && a.contentBase64.Some? then Err(ClientErr(BothContentsMessage))
    else
      var content :-
        if a.content.None? && a.contentBase64.Some? then
          match host.decode(a.contentBase64.value)
          case Decoded(b) => Ok(Some(b))
          case Invalid(d) => Err(ClientErr("Invalid base64 content: " + d))
        else Ok(a.content);
      if content.None? then
        if !PathGiven(a) then Err(ClientErr(NothingToSendMessage))
        else if !host.isFile(a.filePath.value) then Err(ClientErr("File not found: " + a.filePath.value))
        else
          var name := Client.Or(a.fileName, host.baseName(a.filePath.value));
          Ok(Source(name, ContentTypeFor(a, host, name), true, host.fileSize(a.filePath.value)))
      else
        var name := Client.Or(a.fileName, if PathGiven(a) then host.baseName(a.filePath.value) else "attachment.bin");
        Ok(Source(name, ContentTypeFor(a, host, name), false, |content.value|))
  }

  /** The JSON metadata part: always `fileName`, and `description` only when it is non-empty. */
  function Metadata(fileName: string, description: Option<string>): (m: map<string, string>)
    ensures "fileName" in m && m["fileName"] == fileName
    ensures "description" in m <==> description.Some? && description.value != ""
    ensures "description" in m ==> m["description"] == description.value
    ensures m.Keys <= {"fileName", "description"}
  {
    var m := map["fileName" := fileName];
    if description.Some? && description.value != "" then m["description" := description.value] else m
  }

  /** `f"/api/v3/work_packages/{wp_id}/attachments"`. */
  function AttachmentsPath(wpId: int): string
  {
    "/api/v3/work_packages/" + IntToString(wpId) + "/attachments"
  }

  /** What the single POST turns into: a raised error is wrapped, a non-2xx answer becomes an HTTP error. */
  function UploadResult(outcome: Client.Attempt): (r: Result<map<string, Json>>)
    ensures !outcome.Answer? ==> r.Err? && r.error.ClientErr?
    ensures outcome.Answer? ==> r == Client.Finish("POST", outcome.resp)
  {
    match outcome
    case Answer(resp) => Client.Finish("POST", resp)
    case NetworkError(d) => Err(ClientErr("Failed to upload attachment: " + d))
    case OtherError(d) => Err(ClientErr("Failed to upload attachment: " + d))
  }

  /** Whether the arguments get as far as the POST. */
  predicate Uploads(a: Args, host: Host)
  {
    OpenSource(a, host).Ok? && OpenSource(a, host).value.size > 0
  }

  /** `attach_file_to_wp`: the checks, then the POST whose answer is `outcome`. */
  function Attach(a: Args, host: Host, outcome: Client.Attempt): Result<map<string, Json>>
  {
    var src :- OpenSource(a, host);
    if src.size == 0 then Err(ClientErr(EmptyContentMessage)) else UploadResult(outcome)
  }

  /**
   * Every rejected call is rejected before the request, with a client error
   * that does not depend on what the server would have answered; each of
   * the four argument problems gives its own message.
   */
  lemma RejectedBeforeRequest(a: Args, host: Host, outcome: Client.Attempt, other: Client.Attempt)
    requires !Uploads(a, host)
    ensures Attach(a, host, outcome) == Attach(a, host, other)
    ensures Attach(a, host, outcome).Err? && Attach(a, host, outcome).error.ClientErr?
    ensures a.content.Some? && a.contentBase64.Some? ==> Attach(a, host, outcome) == Err(ClientErr(BothContentsMessage))
    ensures a.content.None? && a.contentBase64.None? && !PathGiven(a) ==>
              Attach(a, host, outcome) == Err(ClientErr(NothingToSendMessage))
    ensures a.content.None? && a.contentBase64.None? && PathGiven(a) && !host.isFile(a.filePath.value) ==>
              Attach(a, host, outcome) == Err(ClientErr("File not found: " + a.filePath.value))
    ensures OpenSource(a, host).Ok? ==> Attach(a, host, outcome) == Err(ClientErr(EmptyContentMessage))
  {
  }

  /**
   * The defaults: the file name is `file_name`, else the path's name, else
   * "attachment.bin" (in-memory content only); the content type is
   * `content_type`, else the guessed type, else "application/octet-stream";
   * the file is read from disk exactly when no content was given.
   */
  lemma SourceDefaults(a: Args, host: Host)
    requires OpenSource(a, host).Ok?
    ensures var s := OpenSource(a, host).value;
      && s.fromDisk == (a.content.None? && a.contentBase64.None?)
      && s.fileName == (if a.fileName.Some? && a.fileName.value != "" then a.fileName.value
                        else if PathGiven(a) then host.baseName(a.filePath.value)
                        else "attachment.bin")
      && s.contentType == (if a.contentType.Some? && a.contentType.value != "" then a.contentType.value
                           else if host.guessType(s.fileName).Some? && host.guessType(s.fileName).value != ""
                           then host.guessType(s.fileName).value
                           else "application/octet-stream")
      && (s.fromDisk ==> host.isFile(a.filePath.value) && s.size == host.fileSize(a.filePath.value))
  {
  }

  /** An open file: read from disk (the tool must close it) or in memory. */
  class FileHandle {
    const fromDisk: bool
    const size: nat
    var closed: bool

    constructor(fromDisk: bool, size: nat)
      ensures this.fromDisk == fromDisk && this.size == size && !closed
    {
      this.fromDisk := fromDisk;
      this.size := size;
      closed := false;
    }

    method Close()
      modifies this
      ensures closed
    {
      closed := true;
    }
  }

  /**
   * The tool as it runs. No handle is opened for a call rejected by the
   * argument checks; a handle opened from disk is closed on every path out
   * (empty content, failed upload, success) and an in-memory one never is.
   * The session's Content-Type is dropped for the POST and put back after.
   */
  method AttachFileToWp(session: Client.Session, wpId: int, a: Args, host: Host, outcome: Client.Attempt)
    returns (r: Result<map<string, Json>>, handle: FileHandle?)
    modifies session
    ensures r == Attach(a, host, outcome)
    ensures session.headers == old(session.headers)
    ensures !Uploads(a, host) ==> session.uploads == old(session.uploads)
    ensures Uploads(a, host) ==>
      var s := OpenSource(a, host).value;
      session.uploads == old(session.uploads) + [Client.Upload(AttachmentsPath(wpId), "file", s.fileName, s.contentType,
        old(session.headers) - {"Content-Type"}, Client.AcceptOf(old(session.headers)),
        Some(Metadata(s.fileName, a.description)))]
    ensures (handle == null) == OpenSource(a, host).Err?
    ensures handle != null ==> fresh(handle) && handle.fromDisk == OpenSource(a, host).value.fromDisk
                               && handle.size == OpenSource(a, host).value.size
                               && handle.closed == handle.fromDisk
  {
    var src := OpenSource(a, host);
    if src.Err? {
      return Err(src.error), null;
    }
    handle := new FileHandle(src.value.fromDisk, src.value.size);
    if handle.size == 0 {
      if handle.fromDisk {
        handle.Close();
      }
      return Err(ClientErr(EmptyContentMessage)), handle;
    }
    session.Send(AttachmentsPath(wpId), "file", src.value.fileName, src.value.contentType,
                 Some(Metadata(src.value.fileName, a.description)));
    if handle.fromDisk {
      handle.Close();
    }
    r := UploadResult(outcome);
  }

  // ---- `list_attachments` ----

  /** One listed attachment: `id`, `file_name`, `file_size`, `download_href`. */
  datatype Item = Item(id: Json, fileName: Json, fileSize: Json, downloadHref: Json)

  /** `el.get("_links", {}).get("self", {}).get(attr, default)`. */
  function SelfAttr(el: map<string, Json>, attr: string, default: Json): Result<Json>
  {
    var self :- Get(DictGet(el, "_links", JDict(map[])), "self", JDict(map[]));
    Get(self, attr, default)
  }

  /**
   * The item of one attachment: a falsy `id` falls back to the id in the
   * self link, a falsy `fileName` to the self link's title, and the download
   * href is read only when `_links` is a dict.
   */
  function ItemOf(el: map<string, Json>): Result<Item>
  {
    var id :- if Truthy(DictGet(el, "id", JNull)) then Ok(DictGet(el, "id", JNull))
              else var href :- SelfAttr(el, "href", JStr("")); var parsed :- Hal.HrefId(href); Ok(OptInt(parsed));
    var name :- if Truthy(DictGet(el, "fileName", JNull)) then Ok(DictGet(el, "fileName", JNull))
                else SelfAttr(el, "title", JNull);
    var links := DictGet(el, "_links", JDict(map[]));
    var download :- if links.JDict? then Get(DictGet(links.fields, "downloadLocation", JDict(map[])), "href", JNull)
                    else Ok(JNull);
    Ok(Item(id, name, DictGet(el, "fileSize", JNull), download))
  }

  /** An attachment without an id and file name takes both from its self link `prefix/attachments/n`. */
  lemma ItemFromSelfLink(el: map<string, Json>, self: map<string, Json>, prefix: string, n: nat)
    requires !Truthy(DictGet(el, "id", JNull)) && !Truthy(DictGet(el, "fileName", JNull))
    requires "_links" in el && el["_links"] == JDict(map["self" := JDict(self)])
    requires DictGet(self, "href", JNull) == JStr(prefix + "/attachments/" + NatToString(n))
    ensures ItemOf(el) == Ok(Item(JInt(n), DictGet(self, "title", JNull), DictGet(el, "fileSize", JNull), JNull))
  {
    var h := prefix + "/attachments/" + NatToString(n);
    Hal.HrefRoundTrip(prefix + "/attachments", n);
    assert prefix + "/attachments" + "/" + NatToString(n) == h;
    assert |h| > 0 by { assert h[|prefix|] == '/'; }
  }

  /** What the tool returns. */
  datatype Listing = Listing(items: seq<Item>, offset: int, pageSize: int, total: Option<int>, nextOffset: Option<int>)

  const NegativeOffsetMessage := "offset must be >= 0"

  /**
   * `list_attachments`: a negative offset raises before any request; the
   * page size is clamped; `fetch(offset, pageSize)` is the one page read;
   * `next_offset` is set only when the next page starts below an integer
   * total.
   */
  function ListAttachments(fetch: (int, int) -> Result<map<string, Json>>, offset: int, pageSize: int): (r: Result<Listing>)
    ensures offset < 0 ==> r == Err(ValueErr(NegativeOffsetMessage))
    ensures r.Ok? ==> r.value.offset == offset && 1 <= r.value.pageSize <= Paging.MaxPageSize
    ensures r.Ok? ==> (r.value.nextOffset.Some? <==> r.value.total.Some? && offset + r.value.pageSize < r.value.total.value)
    ensures r.Ok? && r.value.nextOffset.Some? ==> r.value.nextOffset.value == offset + r.value.pageSize
  {
    if offset < 0 then Err(ValueErr(NegativeOffsetMessage))
    else
      var ps := Paging.ClampPageSize(pageSize);
      var payload :- fetch(offset, ps);
      var elements :- Collections.EmbeddedElements(payload);
      var items :- MapResult(elements, ItemOf);
      var total := AsInt(DictGet(payload, "total", JNull));
      Ok(Listing(items, offset, ps, total, Paging.NextOffset(offset, ps, total)))
  }

  /**
   * Only the page at `(offset, clamped page size)` is read, and the items
   * are those of its dict elements, one each, in order.
   */
  lemma ListingReadsOnePage(fetch: (int, int) -> Result<map<string, Json>>, other: (int, int) -> Result<map<string, Json>>,
                            offset: int, pageSize: int)
    requires offset >= 0
    requires other(offset, Paging.ClampPageSize(pageSize)) == fetch(offset, Paging.ClampPageSize(pageSize))
    ensures ListAttachments(fetch, offset, pageSize) == ListAttachments(other, offset, pageSize)
    ensures var r := ListAttachments(fetch, offset, pageSize);
      r.Ok? ==> var elements := Collections.EmbeddedElements(fetch(offset, Paging.ClampPageSize(pageSize)).value).value;
        |r.value.items| == |elements| && forall i :: 0 <= i < |elements| ==> ItemOf(elements[i]) == Ok(r.value.items[i])
  {
  }

  /** The tool as it runs: the items are appended one element at a time. */
  method ListAttachmentsPage(fetch: (int, int) -> Result<map<string, Json>>, offset: int, pageSize: int)
    returns (r: Result<Listing>)
    ensures r == ListAttachments(fetch, offset, pageSize)
  {
    if offset < 0 {
      return Err(ValueErr(NegativeOffsetMessage));
    }
    var ps := Paging.ClampPageSize(pageSize);
    var payload := fetch(offset, ps);
    if payload.Err? {
      return Err(payload.error);
    }
    var elements := Collections.EmbeddedElements(payload.value);
    if elements.Err? {
      return Err(elements.error);
    }
    var items := Memberships.AppendMembers([], elements.value, ItemOf);
    if items.Err? {
      return Err(items.error);
    }
    assert [] + MapResult(elements.value, ItemOf).value == MapResult(elements.value, ItemOf).value;
    var total := AsInt(DictGet(payload.value, "total", JNull));
    r := Ok(Listing(items.value, offset, ps, total, Paging.NextOffset(offset, ps, total)));
  }

  // ---- `get_attachment_content` ----

  /** A download response: the response, its Content-Type header and its body bytes. */
  datatype Fetched = Fetched(resp: Client.Response, contentType: Option<string>, body: Bytes)

  /** One GET of the download location: an answer, or the message of a raised error. */
  datatype Download = Got(f: Fetched) | Raised(detail: string)

  /** What the tool returns: the preview bytes (base64-encoded by the tool), their count and the content type. */
  datatype Preview = Preview(content: Bytes, size: nat, contentType: Option<string>)

  const NonPositiveMaxMessage := "max_bytes must be > 0"
  const MissingDownloadMessage := "Attachment downloadLocation missing."

  /** `_attachment_download_url`: the truthy `downloadLocation` href of the attachment, or a client error. */
  function DownloadHref(meta: Result<map<string, Json>>): (r: Result<Json>)
    ensures r.Ok? ==> Truthy(r.value)
  {
    var payload :- meta;
    var links := DictGet(payload, "_links", JDict(map[]));
    var href :- if links.JDict? then Get(DictGet(links.fields, "downloadLocation", JDict(map[])), "href", JNull)
                else Ok(JNull);
    if !Truthy(href) then Err(ClientErr(MissingDownloadMessage)) else Ok(href)
  }

  /** `f"bytes=0-{max_bytes-1}"`. */
  function RangeHeader(maxBytes: int): string
  {
    "bytes=0-" + IntToString(maxBytes - 1)
  }

  /** The range asked for ends at byte `max_bytes - 1`: exactly `max_bytes` bytes from the start. */
  lemma RangeCoversMaxBytes(maxBytes: int)
    requires maxBytes > 0
    ensures var h := RangeHeader(maxBytes);
      StartsWith(h, "bytes=0-") && ParseInt(h[|"bytes=0-"|..]) == Some(maxBytes - 1)
  {
    var h := RangeHeader(maxBytes);
    assert h[|"bytes=0-"|..] == NatToString(maxBytes - 1);
    ParseIntOfNat(maxBytes - 1);
  }

  /** The GET actually used: the ranged one, or the plain one when the server answered 416 to it. */
  function UsedDownload(href: Json, maxBytes: int, get: (Json, Option<string>) -> Download): Download
  {
    var first := get(href, Some(RangeHeader(maxBytes)));
    if first.Got? && first.f.resp.status == 416 then get(href, None) else first
  }

  /**
   * `get_attachment_content`: a non-positive `max_bytes` raises before any
   * request; the download location comes from the attachment (`meta`); the
   * ranged GET is repeated once without a range on 416; a raised error is
   * wrapped, a non-2xx answer becomes an HTTP error, and at most
   * `max_bytes` bytes of the body are kept.
   */
  function GetAttachmentContent(maxBytes: int, meta: Result<map<string, Json>>, get: (Json, Option<string>) -> Download)
    : (r: Result<Preview>)
    ensures maxBytes <= 0 ==> r == Err(ValueErr(NonPositiveMaxMessage))
    ensures r.Ok? ==> r.value.size == |r.value.content| <= maxBytes
  {
    if maxBytes <= 0 then Err(ValueErr(NonPositiveMaxMessage))
    else
      var href :- DownloadHref(meta);
      match UsedDownload(href, maxBytes, get)
      case Raised(d) => Err(ClientErr("Failed to fetch attachment content: " + d))
      case Got(f) =>
        if f.resp.status < 200 || f.resp.status >= 300 then Err(Client.ToHttpError("GET", f.resp))
        else
          var content := if |f.body| <= maxBytes then f.body else f.body[..maxBytes];
          Ok(Preview(content, |content|, f.contentType))
  }

  /**
   * The preview is the start of the body of the GET used: all of it when it
   * fits in `max_bytes`, and its first `max_bytes` bytes otherwise. The plain
   * GET is made only after a 416.
   */
  lemma PreviewIsBodyPrefix(maxBytes: int, meta: Result<map<string, Json>>, get: (Json, Option<string>) -> Download,
                            other: (Json, Option<string>) -> Download)
    requires maxBytes > 0 && DownloadHref(meta).Ok?
    requires var href := DownloadHref(meta).value;
      other(href, Some(RangeHeader(maxBytes))) == get(href, Some(RangeHeader(maxBytes)))
    ensures var href := DownloadHref(meta).value;
      var first := get(href, Some(RangeHeader(maxBytes)));
      !(first.Got? && first.f.resp.status == 416) ==>
        GetAttachmentContent(maxBytes, meta, get) == GetAttachmentContent(maxBytes, meta, other)
    ensures var r := GetAttachmentContent(maxBytes, meta, get);
      var used := UsedDownload(DownloadHref(meta).value, maxBytes, get);
      r.Ok? ==> (used.Got? && 200 <= used.f.resp.status < 300
                 && r.value.content == used.f.body[..r.value.size]
                 && (|used.f.body| <= maxBytes ==> r.value.content == used.f.body)
                 && r.value.contentType == used.f.contentType)
  {
  }
}
