/** What the static-file servers read out of a request and what they answer, literally. */
module HttpAnswers {
  import opened Prelude
  import opened Text
  import opened Decimal
  import opened HttpRange
  import opened HttpRender
  import opened HttpLaws

  // ---- texts -----------------------------------------------------------------------------------

  lemma {:induction false} ContainsIff(s: string, t: string)
    ensures ContainsText(s, t) <==> exists before, after :: s == before + t + after
  {
    if ContainsText(s, t) {
      var i :| 0 <= i <= |s| && t <= s[i..];
      assert s == s[..i] + t + s[i + |t|..];
    }
    forall before, after | s == before + t + after ensures ContainsText(s, t) {
      assert t <= s[|before|..];
    }
  }

  // ---- ranges ----------------------------------------------------------------------------------

  /** `bytes=` in any case. */
  predicate IsUnit(s: string) {
    EqualIgnoringCase(s, "bytes=")
  }

  /** What two bounds select: the first is the start, or if there is none the last is a count from the end. */
  predicate Selects(first: string, last: string, len: nat, start: nat, end: nat) {
    if first == "" then
      && ParseU64(last).Some? && ParseU64(last).value > 0 && end + 1 == len
      && (start + ParseU64(last).value == len || (start == 0 && ParseU64(last).value > len))
    else
      && ParseU64(first) == Some(start) && start < len
      && if last == "" then end + 1 == len
         else
           && ParseU64(last).Some? && start <= ParseU64(last).value
           && (end == ParseU64(last).value < len || end + 1 == len <= ParseU64(last).value)
  }

  /** A start past the end, a count of zero, or nothing to count from. */
  predicate Misses(first: string, last: string, len: nat) {
    if first == "" then len == 0 || ParseU64(last) == Some(0)
    else ParseU64(first).Some? && ParseU64(first).value >= len
  }

  /** A range selects what its bounds say, misses, or is ignored; and an open range may leave out its dash. */
  lemma {:induction false} SpecMeans(unit: string, first: string, last: string, len: nat, start: nat, end: nat)
    requires IsUnit(unit) && '-' !in first && ',' !in first && ',' !in last
    ensures var r := ParseSpec(unit + first + "-" + last, len);
      && (r == Some(Bytes(start, end)) <==> Selects(first, last, len, start, end))
      && (r == Some(Unsatisfiable) <==> Misses(first, last, len))
    ensures ParseSpec(unit + first, len) == ParseSpec(unit + first + "-" + "", len)
  {
    hide Lower, ParseU64, SplitOnce;
    var s, t := unit + first + "-" + last, unit + first + "-" + "";
    assert s[..6] == unit && t[..6] == unit && (unit + first)[..6] == unit;
    assert s[6..] == first + ['-'] + last && t[6..] == first + ['-'] + "" && (unit + first)[6..] == first;
    SplitOnceIs(first, '-', last);
    SplitOnceIs(first, '-', "");
  }

  /** Another unit, or a list of ranges, is ignored. */
  lemma {:induction false} OtherSpecsAreIgnored(spec: string, len: nat)
    ensures |spec| < 6 || !IsUnit(spec[..6]) || ',' in spec[6..] ==> ParseSpec(spec, len) == None
  {
    hide Lower, SplitOnce, ParseBounds;
  }

  /** The library reads a value without blanks around it, or what follows its first colon; the other server only the latter. */
  lemma {:induction false} ValueMeans(left: string, spec: string, right: string, key: string, len: nat)
    requires AllBlank(left) && AllBlank(right) && IsTrimmed(spec) && ':' !in spec
    requires ':' !in key && IsTrimmed(key + ":" + left + spec)
    ensures ParseValue(Some(left + spec + right), len) == ParseSpec(spec, len)
    ensures ParseLine(Some(left + spec + right), len) == None
    ensures ParseValue(Some(key + ":" + left + spec), len) == ParseSpec(spec, len)
    ensures ParseLine(Some(key + ":" + left + spec), len) == ParseSpec(spec, len)
    ensures ParseValue(None, len) == None && ParseLine(None, len) == None
  {
    hide ParseSpec, SplitOnce, Trim;
    TrimIs(left, spec, right);
    var keyed := key + ":" + left + spec;
    TrimIs("", keyed, "");
    assert "" + keyed + "" == keyed;
    assert keyed == key + [':'] + (left + spec);
    SplitOnceIs(key, ':', left + spec);
    TrimIs(left, spec, "");
    assert left + spec + "" == left + spec;
  }

  // ---- paths and files ---------------------------------------------------------------------------

  /** A query goes; what is then not rooted is the root. */
  lemma {:induction false} TargetMeans(path: string, query: string)
    requires '?' !in path
    ensures PathOf(path) == path && PathOf(path + "?" + query) == path
    ensures ServePath(path) == ServePath(path + "?" + query) == if path != "" && path[0] == '/' then path else "/"
  {
    SplitOnceIs(path, '?', query);
    assert path + "?" + query == path + ['?'] + query;
  }

  /** A path selects its own file, or the root's unless its last segment has a dot. */
  lemma {:induction false} SelectMeans(files: Files, path: string)
    ensures path in files ==> Select(files, path) == (path, Some(files[path]))
    ensures path !in files && "/" in files && (forall i :: !DotInLastSegment(path, i)) ==>
      Select(files, path) == ("/", Some(files["/"]))
    ensures path !in files && ("/" !in files || exists i :: DotInLastSegment(path, i)) ==> Select(files, path) == (path, None)
  {
    AssetIff(path);
    hide DotInLastSegment, IsAssetRequest;
  }

  // ---- headers of the request --------------------------------------------------------------------

  /** The value is that of the first header of the name, in any case. */
  lemma {:induction false} HeaderMeans(headers: seq<(string, string)>, want: string, i: nat)
    ensures i < |headers| && EqualIgnoringCase(headers[i].0, want) && (forall j :: 0 <= j < i ==> !EqualIgnoringCase(headers[j].0, want)) ==>
      RequestHeader(headers, want) == Some(headers[i].1)
    ensures (forall j :: 0 <= j < |headers| ==> !EqualIgnoringCase(headers[j].0, want)) ==> RequestHeader(headers, want) == None
    decreases |headers|
  {
    if headers != [] {
      hide EqualIgnoringCase;
      HeaderMeans(headers[1..], want, if i > 0 then i - 1 else 0);
      assert forall j :: 0 <= j < |headers[1..]| ==> headers[1..][j] == headers[j + 1];
    }
  }

  /** The command line server's tag is the digest, in quotes or not. */
  lemma {:induction false} CliTagIff(pf: Platform, files: Files, key: string, sent: string)
    requires HexDigests(pf)
    ensures CliTagMatches(ComputeEtags(pf, files), key, Some(sent))
       <==> key in files && exists l, r :: AllOf(l, '"') && AllOf(r, '"') && sent == l + pf.digest(files[key]) + r
  {
    if key in files {
      var d := pf.digest(files[key]);
      assert IsHex(d[0]) && IsHex(d[|d| - 1]);
      var l, r := TrimMatchesParts(sent, '"');
      forall l, r | AllOf(l, '"') && AllOf(r, '"') && sent == l + d + r ensures TrimMatches(sent, '"') == d {
        TrimMatchesIs(l, d, r, '"');
      }
      assert TrimMatches(sent, '"') == d ==> sent == l + d + r;
    }
  }

  /** The library's is the digest in blanks in quotes. */
  lemma {:induction false} LibraryTagIff(pf: Platform, file: Body, sent: string)
    requires HexDigests(pf)
    ensures LibraryTagMatches(pf, Some(file), Some(sent)) <==> exists l, m, r :: InBlanksInQuotes(l, m, r, pf.digest(file), sent)
  {
    var d := pf.digest(file);
    DigestSurvivesTrimming(pf, file);
    assert IsHex(d[0]) && IsHex(d[|d| - 1]);
    hide TrimMatches, Trim, AllOf, AllBlank;
    var l, r := TrimMatchesParts(sent, '"');
    var m := TrimMatches(sent, '"');
    var bl, br := TrimParts(m);
    if Trim(m) == d {
      assert InBlanksInQuotes(l, m, r, d, sent);
    }
    forall l, m, r | InBlanksInQuotes(l, m, r, d, sent) ensures Trim(TrimMatches(sent, '"')) == d {
      InnerIsBare(m, d);
      var bl, br :| AllBlank(bl) && AllBlank(br) && m == bl + d + br;
      TrimMatchesIs(l, m, r, '"');
      TrimIs(bl, d, br);
    }
  }

  ghost predicate Padded(m: string, d: string) {
    exists bl, br :: AllBlank(bl) && AllBlank(br) && m == bl + d + br
  }

  ghost predicate InBlanksInQuotes(l: string, m: string, r: string, d: string, sent: string) {
    AllOf(l, '"') && AllOf(r, '"') && sent == l + m + r && Padded(m, d)
  }

  lemma {:induction false} InnerIsBare(m: string, d: string)
    requires d != "" && IsHex(d[0]) && IsHex(d[|d| - 1]) && Padded(m, d)
    ensures m != "" && m[0] != '"' && m[|m| - 1] != '"'
  {
    var bl, br :| AllBlank(bl) && AllBlank(br) && m == bl + d + br;
    if bl != "" { assert bl[0] in bl; }
    if br != "" { assert br[|br| - 1] in br; }
    assert m[0] == (if bl != "" then bl[0] else d[0]);
    assert m[|m| - 1] == (if br != "" then br[|br| - 1] else d[|d| - 1]);
  }

  // ---- the answer --------------------------------------------------------------------------------

  /** Media types that are compressed. */
  predicate Compresses(kind: string) {
    kind in ["application/javascript", "application/json", "image/svg+xml"] || "text/" <= kind
  }

  /** Compressed is what is accepted so, is 256 bytes long or more, of such a type, and gets shorter by it. */
  predicate Shrinks(pf: Platform, a: Asked) {
    && a.file.Some? && a.acceptsGzip && |a.file.value| >= 256 && Compresses(pf.contentType(a.key))
    && pf.gzip(a.file.value).Some? && |pf.gzip(a.file.value).value| < |a.file.value|
  }

  predicate Unmodified(a: Asked) {
    (a.verb == "GET" || a.verb == "HEAD") && a.tagMatches
  }

  predicate Ranged(a: Asked) {
    a.verb == "GET" && a.range.Some?
  }

  lemma {:induction false} TextIs(kind: string)
    ensures IsCompressible(kind) <==> Compresses(kind)
  {
    assert |kind| >= 5 ==> (kind[..5] == "text/" <==> "text/" <= kind);
  }

  /** The library's answer: which status, and for each the headers in order and the body. */
  lemma {:induction false} LibraryAnswerMeans(pf: Platform, a: Asked)
    requires a.Valid()
    ensures var r := LibraryResponse(pf, a);
      var kind := Header(ContentType, pf.contentType(a.key));
      && (r.status == NotModified <==> Unmodified(a))
      && (r.status == NotFound <==> !Unmodified(a) && a.file == None)
      && (r.status == RangeNotSatisfiable
          <==> !Unmodified(a) && a.file.Some? && Ranged(a) && a.range.value == Unsatisfiable)
      && (r.status == PartialContent <==> !Unmodified(a) && a.file.Some? && Ranged(a) && a.range.value.Bytes?)
      && (r.status == Complete <==> !Unmodified(a) && a.file.Some? && !Ranged(a))
      && (Unmodified(a) ==>
            r.headers == [kind, Header(ETag, "\"" + pf.digest(a.file.value) + "\"")] && r.body == [])
      && (r.status == NotFound ==> r.headers == [kind] && r.body == [])
      && (r.status == RangeNotSatisfiable ==>
            && r.headers == [kind, Header(AcceptRanges, "bytes"), Header(ContentRange, "bytes */" + Print(|a.file.value|))]
            && r.body == [])
      && (r.status == PartialContent ==>
            var file, from, to := a.file.value, a.range.value.start, a.range.value.end;
            && r.headers == [kind, Header(ContentLength, Print(to + 1 - from)), Header(AcceptRanges, "bytes"),
                             Header(ContentRange, "bytes " + Print(from) + "-" + Print(to) + "/" + Print(|file|)),
                             Header(ETag, "\"" + pf.digest(file) + "\"")]
            && r.body == file[from..to + 1])
      && (r.status == Complete ==>
            var file, short := a.file.value, Shrinks(pf, a);
            var sent := if short then pf.gzip(file).value else file;
            && r.headers == [kind, Header(ContentLength, Print(|sent|)), Header(ETag, "\"" + pf.digest(file) + "\""),
                             Header(AcceptRanges, "bytes")]
                            + (if Compresses(pf.contentType(a.key)) then [Header(Vary, "Accept-Encoding")] else [])
                            + (if short then [Header(ContentEncoding, "gzip")] else [])
            && r.body == if a.verb == "GET" then sent else [])
  {
    TextIs(pf.contentType(a.key));
    hide Print, Compresses, IsCompressible;
  }

  /** The other server's: the same but for `Connection` in every answer and a zero length with refusals. */
  lemma {:induction false} CliAnswerMeans(pf: Platform, a: Asked, connection: string)
    requires a.Valid()
    ensures var r, l := CliResponse(pf, a, connection), LibraryResponse(pf, a);
      var link := Header(Connection, connection);
      && r.status == l.status && r.body == l.body
      && r.headers == (match l.status
                       case NotModified => l.headers[..1] + [link] + l.headers[1..]
                       case NotFound => l.headers + [Header(ContentLength, "0"), link]
                       case RangeNotSatisfiable => l.headers[..1] + [Header(ContentLength, "0"), link] + l.headers[1..]
                       case PartialContent => l.headers[..2] + [link] + l.headers[2..]
                       case Complete => l.headers[..2] + [link] + l.headers[2..])
  {
    PrintMeans(0, 0);
    hide Print, IsCompressible, Quoted, SliceText, UnsatisfiedText, VaryHeaders;
  }

  /** What is asked of the library: each field from the request. */
  lemma {:induction false} LibraryAskedMeans(pf: Platform, files: Files, verb: string, path: string,
                                             gzip: Option<string>, range: Option<string>, sent: Option<string>)
    ensures var a := LibraryAsked(pf, files, verb, path, gzip, range, sent);
      && a.verb == verb && (a.key, a.file) == Select(files, path)
      && (a.tagMatches <==> a.file.Some? && sent.Some? && LibraryTagMatches(pf, a.file, sent))
      && a.range == (if a.file.Some? then ParseValue(range, |a.file.value|) else None)
      && (a.acceptsGzip <==> gzip.Some? && exists before, after :: gzip.value == before + "gzip" + after)
  {
    if gzip.Some? { ContainsIff(gzip.value, "gzip"); }
    hide Select, ParseValue, LibraryTagMatches, ContainsText;
  }

  /** And of the command line server, whose request came as lines: the tag and the encodings in lower case. */
  lemma {:induction false} CliAskedMeans(pf: Platform, files: Files, verb: string, target: string,
                                         gzip: Option<string>, range: Option<string>, sent: Option<string>, close: bool)
    ensures var a := CliAsked(pf, files, Received(verb, target, gzip, range, sent, close));
      && a.verb == verb && (a.key, a.file) == Select(files, PathOf(target))
      && (a.tagMatches <==> sent.Some? && CliTagMatches(ComputeEtags(pf, files), a.key, Some(Trim(Lower(sent.value)))))
      && a.range == (if a.file.None? || range.None? then None else ParseLine(Some("Range: " + range.value), |a.file.value|))
      && (a.acceptsGzip <==> gzip.Some? && exists before, after :: Lower(gzip.value) == before + "gzip" + after)
    ensures ConnectionText(true) == "close" && ConnectionText(false) == "keep-alive"
  {
    if gzip.Some? { ContainsIff(Lower(gzip.value), "gzip"); }
    hide Select, Trim, Lower, PathOf, ContainsText;
  }

  // ---- the head as text --------------------------------------------------------------------------

  predicate StatusReads(status: Status, phrase: string) {
    match status
    case Complete => phrase == "200 OK"
    case PartialContent => phrase == "206 Partial Content"
    case NotModified => phrase == "304 Not Modified"
    case NotFound => phrase == "404 Not Found"
    case RangeNotSatisfiable => phrase == "416 Range Not Satisfiable"
  }

  function FieldText(name: Name): string {
    match name
    case ContentType => "Content-Type: "
    case ContentLength => "Content-Length: "
    case ContentRange => "Content-Range: "
    case ContentEncoding => "Content-Encoding: "
    case ETag => "ETag: "
    case AcceptRanges => "Accept-Ranges: "
    case Vary => "Vary: "
    case Connection => "Connection: "
  }

  lemma {:induction false} LineIs(h: Header)
    ensures Line(h.name, h.value) == FieldText(h.name) + h.value + "\r\n"
  {
    Assoc(NameText(h.name), ": ", h.value);
    assert NameText(h.name) + ": " == FieldText(h.name);
  }

  /** Over any head without its last two characters, the end of line. */
  lemma {:induction false} HeadWithout(head: string, end: string)
    ensures (head + end)[..|head|] == head && |head + end| - |end| == |head|
  {
  }

  /** The head is its status line, a line for each header in order, and an empty line. */
  lemma {:induction false} HeadMeans(status: Status, phrase: string, headers: seq<Header>, h: Header, body: Body)
    requires StatusReads(status, phrase)
    ensures HeadText(Response(status, [], body)) == "HTTP/1.1 " + phrase + "\r\n" + "\r\n"
    ensures var text := HeadText(Response(status, headers, body));
      |text| >= 2
      && HeadText(Response(status, headers + [h], body))
         == text[..|text| - 2] + (FieldText(h.name) + h.value + "\r\n") + "\r\n"
  {
    LineIs(h);
    HeadGrows(status, headers, h);
    assert Phrase(status) == phrase;
    hide StatusReads, Phrase;
    assert Head(status, []) == StatusLine(status) + "" == StatusLine(status);
    hide Head, Line, FieldText;
    HeadWithout(Head(status, headers), "\r\n");
  }
}
