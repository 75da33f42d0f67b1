/**
 The static-file semantics, written twice: the library that answers requests
 tunnelled from the edge, and the command line server that writes to a socket.
 */
module HttpRender {
  import opened Prelude
  import opened Text
  import opened Decimal
  import opened HttpRange

  type Files = map<string, Body>

  /** Content hashing, compression and the media type table, each a function of its argument. */
  datatype Platform = Platform(
    digest: Body -> string,
    gzip: Body -> Option<Body>,
    contentType: string -> string)

  predicate IsHex(c: char) {
    ('0' <= c <= '9') || ('a' <= c <= 'f')
  }

  /** Digests are nonempty lower-case hexadecimal. */
  ghost predicate HexDigests(pf: Platform) {
    forall b :: pf.digest(b) != "" && forall i :: 0 <= i < |pf.digest(b)| ==> IsHex(pf.digest(b)[i])
  }

  const MIN_COMPRESSIBLE_LEN: nat := 256

  datatype Status = Complete | PartialContent | NotModified | NotFound | RangeNotSatisfiable

  datatype Name =
    | ContentType | ContentLength | ContentRange | ContentEncoding | ETag | AcceptRanges | Vary | Connection

  datatype Header = Header(name: Name, value: string)

  datatype Response = Response(status: Status, headers: seq<Header>, body: Body)

  function Lookup(headers: seq<Header>, name: Name): Option<string> {
    if headers == [] then None
    else if headers[0].name == name then Some(headers[0].value)
    else Lookup(headers[1..], name)
  }

  // ---- selecting a file ----------------------------------------------------------------------

  function LastSegment(path: string): string {
    if path == "" || path[|path| - 1] == '/' then ""
    else LastSegment(path[..|path| - 1]) + [path[|path| - 1]]
  }

  /** An asset has an extension in its last segment. */
  predicate IsAssetRequest(path: string) {
    '.' in LastSegment(path)
  }

  /** The key served and its bytes: an exact match, or the entrypoint for a route-shaped miss. */
  function Select(files: Files, path: string): (string, Option<Body>) {
    if path in files then (path, Some(files[path]))
    else if !IsAssetRequest(path) && "/" in files then ("/", Some(files["/"]))
    else (path, None)
  }

  predicate IsGet(verb: string) {
    verb == "GET"
  }

  predicate IsGetOrHead(verb: string) {
    verb == "GET" || verb == "HEAD"
  }

  function Quoted(tag: string): string {
    "\"" + tag + "\""
  }

  predicate IsCompressible(contentType: string) {
    || contentType == "application/javascript" || contentType == "application/json"
    || contentType == "image/svg+xml" || (|contentType| >= 5 && contentType[..5] == "text/")
  }

  predicate ContainsText(s: string, t: string) {
    exists i :: 0 <= i <= |s| && t <= s[i..]
  }

  // ---- what is asked, and what is answered ----------------------------------------------------

  /** A request reduced to what decides its answer. */
  datatype Asked = Asked(
    verb: string,
    key: string,
    file: Option<Body>,
    tagMatches: bool,
    range: Option<RangeSpec>,
    acceptsGzip: bool)
  {
    ghost predicate Valid() {
      && (tagMatches ==> file.Some?)
      && (file.Some? && range.Some? && range.value.Bytes? ==> range.value.start <= range.value.end < |file.value|)
    }
  }

  datatype Outcome =
    | Unchanged(tag: string)
    | Missing
    | OutOfRange(len: nat)
    | Slice(start: nat, end: nat, file: Body, tag: string)
    | Whole(payload: Body, gzipped: bool, tag: string)

  function Compressed(pf: Platform, a: Asked, body: Body): Option<Body> {
    if a.acceptsGzip && |body| >= MIN_COMPRESSIBLE_LEN && IsCompressible(pf.contentType(a.key)) then
      match pf.gzip(body)
      case Some(gz) => if |gz| < |body| then Some(gz) else None
      case None => None
    else None
  }

  /** The precondition first, then the range, then the whole representation (section 6 of RFC 7232). */
  function Decide(pf: Platform, a: Asked): (o: Outcome)
    requires a.Valid()
    ensures o.Slice? ==> o.start <= o.end < |o.file|
  {
    if IsGetOrHead(a.verb) && a.tagMatches then Unchanged(pf.digest(a.file.value))
    else
      match a.file
      case None => Missing
      case Some(body) =>
        if IsGet(a.verb) && a.range == Some(Unsatisfiable) then OutOfRange(|body|)
        else if IsGet(a.verb) && a.range.Some? then
          Slice(a.range.value.start, a.range.value.end, body, pf.digest(body))
        else
          match Compressed(pf, a, body)
          case Some(gz) => Whole(gz, true, pf.digest(body))
          case None => Whole(body, false, pf.digest(body))
  }

  function SliceText(start: nat, end: nat, len: nat): string {
    "bytes " + Print(start) + "-" + Print(end) + "/" + Print(len)
  }

  function UnsatisfiedText(len: nat): string {
    "bytes */" + Print(len)
  }

  function VaryHeaders(pf: Platform, key: string, gzipped: bool): seq<Header> {
    if !IsCompressible(pf.contentType(key)) then []
    else [Header(Vary, "Accept-Encoding")] + if gzipped then [Header(ContentEncoding, "gzip")] else []
  }

  /** The library's answer: a header list without `Connection`, and no length where there is no body. */
  function LibraryResponse(pf: Platform, a: Asked): Response
    requires a.Valid()
  {
    var kind := Header(ContentType, pf.contentType(a.key));
    match Decide(pf, a)
    case Unchanged(tag) => Response(NotModified, [kind, Header(ETag, Quoted(tag))], [])
    case Missing => Response(NotFound, [kind], [])
    case OutOfRange(len) =>
      Response(RangeNotSatisfiable,
               [kind, Header(AcceptRanges, "bytes"), Header(ContentRange, UnsatisfiedText(len))], [])
    case Slice(start, end, file, tag) =>
      Response(PartialContent,
               [kind, Header(ContentLength, Print(end - start + 1)), Header(AcceptRanges, "bytes"),
                Header(ContentRange, SliceText(start, end, |file|)), Header(ETag, Quoted(tag))],
               file[start..end + 1])
    case Whole(payload, gzipped, tag) =>
      Response(Complete,
               [kind, Header(ContentLength, Print(|payload|)), Header(ETag, Quoted(tag)),
                Header(AcceptRanges, "bytes")] + VaryHeaders(pf, a.key, gzipped),
               if IsGet(a.verb) then payload else [])
  }

  /** The command line server's: `Connection` throughout, and a zero length on refusals. */
  function CliResponse(pf: Platform, a: Asked, connection: string): Response
    requires a.Valid()
  {
    var kind, link := Header(ContentType, pf.contentType(a.key)), Header(Connection, connection);
    match Decide(pf, a)
    case Unchanged(tag) => Response(NotModified, [kind, link, Header(ETag, Quoted(tag))], [])
    case Missing => Response(NotFound, [kind, Header(ContentLength, Print(0)), link], [])
    case OutOfRange(len) =>
      Response(RangeNotSatisfiable,
               [kind, Header(ContentLength, Print(0)), link, Header(AcceptRanges, "bytes"),
                Header(ContentRange, UnsatisfiedText(len))], [])
    case Slice(start, end, file, tag) =>
      Response(PartialContent,
               [kind, Header(ContentLength, Print(end - start + 1)), link, Header(AcceptRanges, "bytes"),
                Header(ContentRange, SliceText(start, end, |file|)), Header(ETag, Quoted(tag))],
               file[start..end + 1])
    case Whole(payload, gzipped, tag) =>
      Response(Complete,
               [kind, Header(ContentLength, Print(|payload|)), link, Header(ETag, Quoted(tag)),
                Header(AcceptRanges, "bytes")] + VaryHeaders(pf, a.key, gzipped),
               if IsGet(a.verb) then payload else [])
  }

  // ---- the library ---------------------------------------------------------------------------

  /** The first header of that name, whatever its case. */
  function RequestHeader(headers: seq<(string, string)>, want: string): Option<string> {
    if headers == [] then None
    else if EqualIgnoringCase(headers[0].0, want) then Some(headers[0].1)
    else RequestHeader(headers[1..], want)
  }

  predicate LibraryTagMatches(pf: Platform, file: Option<Body>, sent: Option<string>) {
    && file.Some? && sent.Some?
    && Trim(TrimMatches(sent.value, '"')) == TrimMatches(Quoted(pf.digest(file.value)), '"')
  }

  function LibraryAsked(pf: Platform, files: Files, verb: string, path: string,
                        gzip: Option<string>, range: Option<string>, sent: Option<string>): (a: Asked)
    ensures a.Valid()
  {
    var (key, file) := Select(files, path);
    Asked(verb, key, file, LibraryTagMatches(pf, file, sent),
          if file.Some? then ParseValue(range, |file.value|) else None,
          gzip.Some? && ContainsText(gzip.value, "gzip"))
  }

  method RenderResponse(pf: Platform, files: Files, verb: string, path: string, headers: seq<(string, string)>)
    returns (response: Response)
    ensures response == LibraryResponse(pf, LibraryAsked(pf, files, verb, path,
                          RequestHeader(headers, "accept-encoding"), RequestHeader(headers, "range"),
                          RequestHeader(headers, "if-none-match")))
  {
    var gzip := RequestHeader(headers, "accept-encoding");
    var range := RequestHeader(headers, "range");
    var ifNoneMatch := RequestHeader(headers, "if-none-match");
    var key, found := path, None;
    if path in files {
      found := Some(files[path]);
    } else if !IsAssetRequest(path) && "/" in files {
      key, found := "/", Some(files["/"]);
    }
    var pushed := [Header(ContentType, pf.contentType(key))];

    var etag := if found.Some? then Some(Quoted(pf.digest(found.value))) else None;
    var matches := etag.Some? && ifNoneMatch.Some?
      && Trim(TrimMatches(ifNoneMatch.value, '"')) == TrimMatches(etag.value, '"');
    var a := Asked(verb, key, found, matches,
                   if found.Some? then ParseValue(range, |found.value|) else None,
                   gzip.Some? && ContainsText(gzip.value, "gzip"));
    assert a == LibraryAsked(pf, files, verb, path, gzip, range, ifNoneMatch);
    hide LibraryAsked, ParseValue, RequestHeader, ContainsText, TrimMatches, Trim, IsGetOrHead, Quoted;
    if IsGetOrHead(verb) && matches {
      pushed := pushed + [Header(ETag, etag.value)];
      return Response(NotModified, pushed, []);
    }
    if found.None? {
      return Response(NotFound, pushed, []);
    }
    response := RenderFound(pf, a, found.value, pushed, etag.value);
  }

  /** The rest of the rendering, once there is a file and no precondition failed. */
  method RenderFound(pf: Platform, a: Asked, body: Body, headers: seq<Header>, etag: string)
    returns (response: Response)
    requires a.Valid() && a.file == Some(body) && !(IsGetOrHead(a.verb) && a.tagMatches)
    requires headers == [Header(ContentType, pf.contentType(a.key))] && etag == Quoted(pf.digest(body))
    ensures response == LibraryResponse(pf, a)
  {
    hide Print, IsCompressible, IsGet, IsGetOrHead, Quoted, SliceText, UnsatisfiedText, VaryHeaders;
    var pushed, contentType := headers, pf.contentType(a.key);
    if IsGet(a.verb) {
      match a.range {
        case Some(Unsatisfiable) =>
          pushed := pushed + [Header(AcceptRanges, "bytes")];
          pushed := pushed + [Header(ContentRange, UnsatisfiedText(|body|))];
          return Response(RangeNotSatisfiable, pushed, []);
        case Some(Bytes(start, end)) =>
          pushed := pushed + [Header(ContentLength, Print(end - start + 1))];
          pushed := pushed + [Header(AcceptRanges, "bytes")];
          pushed := pushed + [Header(ContentRange, SliceText(start, end, |body|))];
          pushed := pushed + [Header(ETag, etag)];
          return Response(PartialContent, pushed, body[start..end + 1]);
        case None =>
      }
    }
    var payload, encoded := body, false;
    if a.acceptsGzip && |body| >= MIN_COMPRESSIBLE_LEN && IsCompressible(contentType) {
      var gz := pf.gzip(body);
      if gz.Some? && |gz.value| < |body| {
        payload, encoded := gz.value, true;
      }
    }
    pushed := PushWhole(pf, a.key, contentType, pushed, payload, etag, encoded);
    return Response(Complete, pushed, if IsGet(a.verb) then payload else []);
  }

  method PushWhole(pf: Platform, key: string, contentType: string, headers: seq<Header>,
                   payload: Body, etag: string, encoded: bool)
    returns (pushed: seq<Header>)
    requires contentType == pf.contentType(key)
    ensures pushed == headers + [Header(ContentLength, Print(|payload|)), Header(ETag, etag),
                                 Header(AcceptRanges, "bytes")] + VaryHeaders(pf, key, encoded)
  {
    hide Print, IsCompressible;
    pushed := headers + [Header(ContentLength, Print(|payload|))];
    pushed := pushed + [Header(ETag, etag)];
    pushed := pushed + [Header(AcceptRanges, "bytes")];
    if IsCompressible(contentType) {
      pushed := pushed + [Header(Vary, "Accept-Encoding")];
      if encoded {
        pushed := pushed + [Header(ContentEncoding, "gzip")];
      }
    }
  }

  // ---- the command line server ---------------------------------------------------------------

  datatype Request = Request(
    verb: string,
    path: string,
    closeAfterResponse: bool,
    range: Option<string>,
    acceptsGzip: bool,
    ifNoneMatch: Option<string>)

  function ComputeEtags(pf: Platform, files: Files): map<string, string> {
    map path | path in files :: pf.digest(files[path])
  }

  predicate CliTagMatches(etags: map<string, string>, key: string, sent: Option<string>) {
    key in etags && sent.Some? && TrimMatches(sent.value, '"') == etags[key]
  }

  function CliAsked(pf: Platform, files: Files, r: Request): (a: Asked)
    ensures a.Valid()
  {
    var (key, file) := Select(files, r.path);
    Asked(r.verb, key, file, CliTagMatches(ComputeEtags(pf, files), key, r.ifNoneMatch),
          if file.Some? then ParseLine(r.range, |file.value|) else None, r.acceptsGzip)
  }

  function Phrase(status: Status): string {
    match status
    case Complete => "200 OK"
    case PartialContent => "206 Partial Content"
    case NotModified => "304 Not Modified"
    case NotFound => "404 Not Found"
    case RangeNotSatisfiable => "416 Range Not Satisfiable"
  }

  function NameText(name: Name): string {
    match name
    case ContentType => "Content-Type"
    case ContentLength => "Content-Length"
    case ContentRange => "Content-Range"
    case ContentEncoding => "Content-Encoding"
    case ETag => "ETag"
    case AcceptRanges => "Accept-Ranges"
    case Vary => "Vary"
    case Connection => "Connection"
  }

  function Line(name: Name, value: string): string {
    NameText(name) + ": " + value + "\r\n"
  }

  function Lines(headers: seq<Header>): string {
    if headers == [] then ""
    else
      var last := headers[|headers| - 1];
      Lines(headers[..|headers| - 1]) + Line(last.name, last.value)
  }

  function StatusLine(status: Status): string {
    "HTTP/1.1 " + Phrase(status) + "\r\n"
  }

  /** A status line and header lines, still open for more. */
  function Head(status: Status, headers: seq<Header>): string {
    StatusLine(status) + Lines(headers)
  }

  /** The head of a response as it goes over the wire. */
  function HeadText(r: Response): string {
    Head(r.status, r.headers) + "\r\n"
  }

  lemma {:induction false} HeadGrows(status: Status, headers: seq<Header>, h: Header)
    ensures Head(status, headers + [h]) == Head(status, headers) + Line(h.name, h.value)
  {
    hide Line, StatusLine;
    assert (headers + [h])[..|headers|] == headers;
    Assoc(StatusLine(status), Lines(headers), Line(h.name, h.value));
  }

  lemma {:induction false} EmptyHead(status: Status)
    ensures Head(status, []) == StatusLine(status)
  {
    hide StatusLine;
    assert StatusLine(status) + "" == StatusLine(status);
  }

  /** The headers every response of the command line server starts with. */
  function Opening(contentType: string, contentLength: Option<nat>, connection: string): seq<Header> {
    [Header(ContentType, contentType)]
    + (if contentLength.Some? then [Header(ContentLength, Print(contentLength.value))] else [])
    + [Header(Connection, connection)]
  }

  method PushHeader(status: Status, contentType: string, contentLength: Option<nat>, connection: string)
    returns (header: string)
    ensures header == Head(status, Opening(contentType, contentLength, connection))
  {
    EmptyHead(status);
    hide Head, Line, StatusLine, Print;
    header := StatusLine(status);
    ghost var sent: seq<Header> := [];
    HeadGrows(status, sent, Header(ContentType, contentType));
    header, sent := header + Line(ContentType, contentType), sent + [Header(ContentType, contentType)];
    if contentLength.Some? {
      HeadGrows(status, sent, Header(ContentLength, Print(contentLength.value)));
      header := header + Line(ContentLength, Print(contentLength.value));
      sent := sent + [Header(ContentLength, Print(contentLength.value))];
    }
    HeadGrows(status, sent, Header(Connection, connection));
    header := header + Line(Connection, connection);
    assert sent + [Header(Connection, connection)] == Opening(contentType, contentLength, connection);
  }

  function ConnectionText(closeAfterResponse: bool): string {
    if closeAfterResponse then "close" else "keep-alive"
  }

  method PrepareResponse(pf: Platform, request: Request, files: Files, etags: map<string, string>)
    returns (header: string, body: Option<Body>)
    requires etags == ComputeEtags(pf, files)
    ensures var r := CliResponse(pf, CliAsked(pf, files, request), ConnectionText(request.closeAfterResponse));
            && header == HeadText(r)
            && r.body == (if body.Some? then body.value else [])
            && (body.Some? <==> r.status.PartialContent? || (r.status.Complete? && IsGet(request.verb)))
  {
    var key, found := request.path, None;
    if request.path in files {
      found := Some(files[request.path]);
    } else if !IsAssetRequest(request.path) && "/" in files {
      key, found := "/", Some(files["/"]);
    }
    var connection := ConnectionText(request.closeAfterResponse);
    var matches := key in etags && request.ifNoneMatch.Some?
      && TrimMatches(request.ifNoneMatch.value, '"') == etags[key];
    var a := Asked(request.verb, key, found, matches,
                   if found.Some? then ParseLine(request.range, |found.value|) else None, request.acceptsGzip);
    assert a == CliAsked(pf, files, request);
    header, body := PrepareAsked(pf, a, if key in etags then Some(etags[key]) else None, connection);
  }

  method PrepareAsked(pf: Platform, a: Asked, etag: Option<string>, connection: string)
    returns (header: string, body: Option<Body>)
    requires a.Valid() && etag == (if a.file.Some? then Some(pf.digest(a.file.value)) else None)
    ensures var r := CliResponse(pf, a, connection);
            && header == HeadText(r)
            && r.body == (if body.Some? then body.value else [])
            && (body.Some? <==> r.status.PartialContent? || (r.status.Complete? && IsGet(a.verb)))
  {
    hide Head, Line, Print, Quoted, IsGetOrHead;
    var contentType := pf.contentType(a.key);
    if etag.Some? && IsGetOrHead(a.verb) && a.tagMatches {
      header := PushHeader(NotModified, contentType, None, connection);
      HeadGrows(NotModified, Opening(contentType, None, connection), Header(ETag, Quoted(etag.value)));
      header := header + Line(ETag, Quoted(etag.value));
      assert Opening(contentType, None, connection) + [Header(ETag, Quoted(etag.value))]
          == [Header(ContentType, contentType), Header(Connection, connection), Header(ETag, Quoted(etag.value))];
      return header + "\r\n", None;
    }
    if a.file.None? {
      header := PushHeader(NotFound, contentType, Some(0), connection);
      assert Opening(contentType, Some(0), connection)
          == [Header(ContentType, contentType), Header(ContentLength, Print(0)), Header(Connection, connection)];
      return header + "\r\n", None;
    }
    header, body := PrepareFound(pf, a, a.file.value, etag.value, connection);
  }

  method PrepareFound(pf: Platform, a: Asked, file: Body, etag: string, connection: string)
    returns (header: string, body: Option<Body>)
    requires a.Valid() && a.file == Some(file) && !(IsGetOrHead(a.verb) && a.tagMatches) && etag == pf.digest(file)
    ensures var r := CliResponse(pf, a, connection);
            && header == HeadText(r)
            && r.body == (if body.Some? then body.value else [])
            && (body.Some? <==> r.status.PartialContent? || (r.status.Complete? && IsGet(a.verb)))
  {
    hide Print, Head, Line, IsCompressible, IsGet, IsGetOrHead, Quoted, SliceText, UnsatisfiedText, VaryHeaders;
    var contentType := pf.contentType(a.key);
    if IsGet(a.verb) {
      match a.range {
        case Some(Unsatisfiable) =>
          header := PushHeader(RangeNotSatisfiable, contentType, Some(0), connection);
          header := PushLines(RangeNotSatisfiable, header, Opening(contentType, Some(0), connection),
                              [Header(AcceptRanges, "bytes"), Header(ContentRange, UnsatisfiedText(|file|))]);
          assert Opening(contentType, Some(0), connection)
               + [Header(AcceptRanges, "bytes"), Header(ContentRange, UnsatisfiedText(|file|))]
              == CliResponse(pf, a, connection).headers;
          return header + "\r\n", None;
        case Some(Bytes(start, end)) =>
          var part := file[start..end + 1];
          header := PushHeader(PartialContent, contentType, Some(|part|), connection);
          header := PushLines(PartialContent, header, Opening(contentType, Some(|part|), connection),
                              [Header(AcceptRanges, "bytes"), Header(ContentRange, SliceText(start, end, |file|)),
                               Header(ETag, Quoted(etag))]);
          assert Opening(contentType, Some(|part|), connection)
               + [Header(AcceptRanges, "bytes"), Header(ContentRange, SliceText(start, end, |file|)),
                  Header(ETag, Quoted(etag))]
              == CliResponse(pf, a, connection).headers;
          return header + "\r\n", Some(part);
        case None =>
      }
    }
    var payload, encoded := file, false;
    if a.acceptsGzip && |file| >= MIN_COMPRESSIBLE_LEN && IsCompressible(contentType) {
      var gz := pf.gzip(file);
      if gz.Some? && |gz.value| < |file| {
        payload, encoded := gz.value, true;
      }
    }
    header := PushHeader(Complete, contentType, Some(|payload|), connection);
    var rest := [Header(ETag, Quoted(etag)), Header(AcceptRanges, "bytes")] + VaryHeaders(pf, a.key, encoded);
    header := PushLines(Complete, header, Opening(contentType, Some(|payload|), connection), rest);
    assert Opening(contentType, Some(|payload|), connection) + rest
        == [Header(ContentType, contentType), Header(ContentLength, Print(|payload|)), Header(Connection, connection),
            Header(ETag, Quoted(etag)), Header(AcceptRanges, "bytes")] + VaryHeaders(pf, a.key, encoded);
    return header + "\r\n", if IsGet(a.verb) then Some(payload) else None;
  }

  /** Appends header lines one at a time. */
  method PushLines(status: Status, header: string, ghost sent: seq<Header>, more: seq<Header>) returns (longer: string)
    requires header == Head(status, sent)
    ensures longer == Head(status, sent + more)
  {
    hide Head, Line;
    longer := header;
    assert sent + more[..0] == sent;
    for i := 0 to |more|
      invariant longer == Head(status, sent + more[..i])
    {
      HeadGrows(status, sent + more[..i], more[i]);
      assert sent + more[..i + 1] == sent + more[..i] + [more[i]];
      longer := longer + Line(more[i].name, more[i].value);
    }
    assert more[..|more|] == more;
  }

  // ---- agreement -----------------------------------------------------------------------------

  /** A headers list with every header of one name taken out. */
  function Without(headers: seq<Header>, name: Name): seq<Header> {
    if headers == [] then []
    else (if headers[0].name == name then [] else [headers[0]]) + Without(headers[1..], name)
  }

  lemma {:induction false} WithoutOne(before: seq<Header>, h: Header, after: seq<Header>)
    requires forall x :: x in before || x in after ==> x.name != h.name
    ensures Without(before + [h] + after, h.name) == before + after
  {
    var all := before + [h] + after;
    if before != [] {
      assert all[1..] == before[1..] + [h] + after && all[0] == before[0];
      WithoutOne(before[1..], h, after);
    } else {
      assert all[0] == h && all[1..] == after;
      WithoutNone(after, h.name);
    }
  }

  lemma {:induction false} WithoutNone(headers: seq<Header>, name: Name)
    requires forall x :: x in headers ==> x.name != name
    ensures Without(headers, name) == headers
  {
    if headers != [] {
      WithoutNone(headers[1..], name);
    }
  }

  /** The library's answer is the command line server's without `Connection`, and on a refusal without the zero length. */
  predicate SameAnswer(library: Response, cli: Response) {
    && library.status == cli.status && library.body == cli.body
    && library.headers == (if library.status.NotFound? || library.status.RangeNotSatisfiable?
                           then Without(Without(cli.headers, Connection), ContentLength)
                           else Without(cli.headers, Connection))
  }

  lemma {:induction false} SameAskedSameAnswer(pf: Platform, a: Asked, connection: string)
    requires a.Valid()
    ensures SameAnswer(LibraryResponse(pf, a), CliResponse(pf, a, connection))
  {
    hide LibraryResponse, CliResponse, SameAnswer;
    var o := Decide(pf, a);
    match o
    case Unchanged(_) => SameWhenUnchanged(pf, a, connection);
    case Slice(_, _, _, _) => SameWhenSliced(pf, a, connection);
    case Whole(_, _, _) => SameWhenWhole(pf, a, connection);
    case _ => SameWhenRefused(pf, a, connection);
  }

  lemma {:induction false} SameWhenRefused(pf: Platform, a: Asked, connection: string)
    requires a.Valid() && (Decide(pf, a).Missing? || Decide(pf, a).OutOfRange?)
    ensures SameAnswer(LibraryResponse(pf, a), CliResponse(pf, a, connection))
  {
    hide Decide, Print, UnsatisfiedText, SliceText, Quoted, IsGet, VaryHeaders, SameAnswer;
    SameRefusal(LibraryResponse(pf, a), CliResponse(pf, a, connection));
  }

  lemma {:induction false} SameWhenUnchanged(pf: Platform, a: Asked, connection: string)
    requires a.Valid() && Decide(pf, a).Unchanged?
    ensures SameAnswer(LibraryResponse(pf, a), CliResponse(pf, a, connection))
  {
    hide Decide, Quoted, SameAnswer;
    var library, cli := LibraryResponse(pf, a), CliResponse(pf, a, connection);
    SameService(library.status, library.body, library.headers[..1], Header(Connection, connection), library.headers[1..]);
    assert library.headers == library.headers[..1] + library.headers[1..];
    assert cli.headers == library.headers[..1] + [Header(Connection, connection)] + library.headers[1..];
  }

  lemma {:induction false} SameWhenSliced(pf: Platform, a: Asked, connection: string)
    requires a.Valid() && Decide(pf, a).Slice?
    ensures SameAnswer(LibraryResponse(pf, a), CliResponse(pf, a, connection))
  {
    hide Decide, Print, SliceText, Quoted, SameAnswer;
    var library, cli := LibraryResponse(pf, a), CliResponse(pf, a, connection);
    SameService(library.status, library.body, library.headers[..2], Header(Connection, connection), library.headers[2..]);
    assert library.headers == library.headers[..2] + library.headers[2..];
    assert cli.headers == library.headers[..2] + [Header(Connection, connection)] + library.headers[2..];
  }

  lemma {:induction false} SameWhenWhole(pf: Platform, a: Asked, connection: string)
    requires a.Valid() && Decide(pf, a).Whole?
    ensures SameAnswer(LibraryResponse(pf, a), CliResponse(pf, a, connection))
  {
    hide Decide, Print, Quoted, IsGet, IsCompressible, SameAnswer;
    var library, cli := LibraryResponse(pf, a), CliResponse(pf, a, connection);
    var link, vary := Header(Connection, connection), VaryHeaders(pf, a.key, Decide(pf, a).gzipped);
    assert forall h :: h in vary ==> h.name != Connection;
    hide VaryHeaders;
    WholeLists(library.headers[0], library.headers[1], library.headers[2], library.headers[3], link, vary);
    var after := [library.headers[2], library.headers[3]] + vary;
    SameService(library.status, library.body, [library.headers[0], library.headers[1]], link, after);
  }

  lemma {:induction false} WholeLists(a: Header, b: Header, c: Header, d: Header, link: Header, vary: seq<Header>)
    ensures [a, b, c, d] + vary == [a, b] + ([c, d] + vary)
    ensures [a, b, link, c, d] + vary == [a, b] + [link] + ([c, d] + vary)
  {
  }

  lemma {:induction false} SameRefusal(library: Response, cli: Response)
    requires library.status == cli.status && library.body == cli.body
    requires library.status.NotFound? || library.status.RangeNotSatisfiable?
    requires |cli.headers| >= 3 && cli.headers[1].name == ContentLength && cli.headers[2].name == Connection
    requires library.headers == [cli.headers[0]] + cli.headers[3..]
    requires forall h :: h in library.headers ==> h.name != Connection && h.name != ContentLength
    ensures SameAnswer(library, cli)
  {
    hide Without;
    var first, rest := [cli.headers[0]], cli.headers[3..];
    var zero, link := cli.headers[1], cli.headers[2];
    assert cli.headers == (first + [zero]) + [link] + rest;
    WithoutOne(first + [zero], link, rest);
    WithoutOne(first, zero, rest);
  }

  lemma {:induction false} SameService(status: Status, body: Body, before: seq<Header>, link: Header, after: seq<Header>)
    requires !status.NotFound? && !status.RangeNotSatisfiable? && link.name == Connection
    requires forall h :: h in before || h in after ==> h.name != Connection
    ensures SameAnswer(Response(status, before + after, body), Response(status, before + [link] + after, body))
  {
    hide Without;
    WithoutOne(before, link, after);
  }
}
