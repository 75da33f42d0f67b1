/** What a client can rely on from either static-file server, and where the two part. */
module HttpLaws {
  import opened Prelude
  import opened Text
  import opened Decimal
  import opened HttpRange
  import opened HttpRender

  /** The part of a request target before any query. */
  function PathOf(target: string): string {
    match SplitOnce(target, '?')
    case Some((path, _)) => path
    case None => target
  }

  predicate Rooted(path: string) {
    path != "" && path[0] == '/'
  }

  /** The path the tunnelled session hands to the library: no query, and rooted whatever comes. */
  function ServePath(target: string): string {
    var path := if PathOf(target) == "" then target else PathOf(target);
    if Rooted(path) then path else "/"
  }

  /** The library's answer to a request target and the three headers it looks at. */
  function Library(pf: Platform, files: Files, verb: string, target: string,
                   gzip: Option<string>, range: Option<string>, sent: Option<string>): Response
  {
    LibraryResponse(pf, LibraryAsked(pf, files, verb, ServePath(target), gzip, range, sent))
  }

  /** The two servers look up the same path exactly when the path is rooted. */
  lemma {:induction false} PathsAgreeIff(target: string)
    ensures ServePath(target) == PathOf(target) <==> Rooted(PathOf(target))
  {
  }

  /**
   What the command line server makes of the same request, arriving as header lines:
   it drops the query, and looks for `gzip` and takes the tag in the lower-cased line.
   */
  function Received(verb: string, target: string, gzip: Option<string>, range: Option<string>,
                    sent: Option<string>, close: bool): Request
  {
    Request(verb, PathOf(target), close, LineOf(range),
            gzip.Some? && ContainsText(Lower(gzip.value), "gzip"),
            if sent.Some? then Some(Trim(Lower(sent.value))) else None)
  }

  function Cli(pf: Platform, files: Files, verb: string, target: string,
               gzip: Option<string>, range: Option<string>, sent: Option<string>, close: bool): Response
  {
    CliResponse(pf, CliAsked(pf, files, Received(verb, target, gzip, range, sent, close)), ConnectionText(close))
  }

  // ---- entity tags ---------------------------------------------------------------------------

  lemma {:induction false} DigestSurvivesTrimming(pf: Platform, b: Body)
    requires HexDigests(pf)
    ensures TrimMatches(Quoted(pf.digest(b)), '"') == pf.digest(b)
    ensures Trim(pf.digest(b)) == pf.digest(b) && IsTrimmed(pf.digest(b))
  {
    var d := pf.digest(b);
    assert IsHex(d[0]) && IsHex(d[|d| - 1]);
    TrimmedStays(d);
    var q := Quoted(d);
    assert q[1..] == d + "\"" && (d + "\"")[..|d|] == d;
    assert TrimMatches(d, '"') == d;
    assert TrimMatches(d + "\"", '"') == d;
  }

  /** The tag, once every quote and blank around it is gone and its case is ignored. */
  predicate RightTag(digest: string, sent: string) {
    Lower(Core(sent)) == digest
  }

  /** The library strips quotes and then blanks, and heeds case: is that all there is to strip? */
  predicate LibraryReaches(sent: string) {
    Trim(TrimMatches(sent, '"')) == Core(sent) && Lower(Core(sent)) == Core(sent)
  }

  /** The command line server strips blanks and then quotes, and ignores case. */
  predicate CliReaches(sent: string) {
    TrimMatches(Trim(sent), '"') == Core(sent)
  }

  predicate IsDigest(d: string) {
    d != "" && forall i :: 0 <= i < |d| ==> IsHex(d[i])
  }

  lemma {:induction false} LibraryMatchesIff(d: string, sent: string)
    requires IsDigest(d)
    ensures Trim(TrimMatches(sent, '"')) == d <==> RightTag(d, sent) && LibraryReaches(sent)
  {
    hide Core, Trim, TrimMatches, Lower, IsTrimmed;
    var ql, qr := TrimMatchesParts(sent, '"');
    var bl, br := TrimParts(TrimMatches(sent, '"'));
    DigestIsPlain(d);
    if Trim(TrimMatches(sent, '"')) == d {
      BlanksArePads(bl);
      BlanksArePads(br);
      QuotesArePads(ql);
      QuotesArePads(qr);
      hide AllPad, AllBlank, AllOf, IsDigest;
      CoreInPads(sent, ql, bl, d, br, qr);
    }
  }

  lemma {:induction false} CliMatchesIff(d: string, sent: string)
    requires IsDigest(d)
    ensures TrimMatches(Trim(Lower(sent)), '"') == d <==> RightTag(d, sent) && CliReaches(sent)
  {
    hide Core, Trim, TrimMatches, IsTrimmed;
    LowerCommutesWithTrim(sent);
    LowerCommutesWithTrimMatches(Trim(sent));
    var x := TrimMatches(Trim(sent), '"');
    var bl, br := TrimParts(sent);
    var ql, qr := TrimMatchesParts(Trim(sent), '"');
    if Lower(x) == d {
      LoweredDigestIsPlain(d, x);
      BlanksArePads(bl);
      BlanksArePads(br);
      QuotesArePads(ql);
      QuotesArePads(qr);
      hide Lower, AllPad, AllBlank, AllOf, IsDigest;
      CoreInPads(sent, bl, ql, x, qr, br);
    }
  }

  lemma {:induction false} CoreInPads(s: string, a: string, b: string, x: string, c: string, d: string)
    requires AllPad(a) && AllPad(b) && AllPad(c) && AllPad(d)
    requires s == a + (b + x + c) + d && x != "" && !IsPad(x[0]) && !IsPad(x[|x| - 1])
    ensures Core(s) == x
  {
    hide Core;
    assert s == (a + b) + x + (c + d);
    CoreIs(a + b, x, c + d);
  }

  lemma {:induction false} DigestIsPlain(d: string)
    requires IsDigest(d)
    ensures Lower(d) == d && d != "" && !IsPad(d[0]) && !IsPad(d[|d| - 1])
  {
    assert IsHex(d[0]) && IsHex(d[|d| - 1]);
  }

  lemma {:induction false} LoweredDigestIsPlain(d: string, x: string)
    requires IsDigest(d) && Lower(x) == d
    ensures x != "" && !IsPad(x[0]) && !IsPad(x[|x| - 1])
  {
    assert IsHex(LowerChar(x[0])) && IsHex(LowerChar(x[|x| - 1]));
  }

  lemma {:induction false} QuotesArePads(s: string)
    requires AllOf(s, '"')
    ensures AllPad(s)
  {
  }

  lemma {:induction false} BlanksArePads(s: string)
    requires AllBlank(s)
    ensures AllPad(s)
  {
    assert forall i :: 0 <= i < |s| ==> s[i] in s;
  }

  /** The right tag, reached by just one of the two ways of stripping. */
  predicate TagSplits(pf: Platform, file: Body, sent: Option<string>) {
    sent.Some? && RightTag(pf.digest(file), sent.value) && LibraryReaches(sent.value) != CliReaches(sent.value)
  }

  /**
   The two comparisons, each on the value as its server gets it, differ exactly when the
   tag is right but for quotes, blanks and case, and just one of them strips it down.
   */
  lemma {:induction false} TagsAgreeIff(pf: Platform, files: Files, key: string, sent: Option<string>)
    requires HexDigests(pf) && key in files
    ensures (LibraryTagMatches(pf, Some(files[key]), sent)
             <==> CliTagMatches(ComputeEtags(pf, files), key, Received("", "", None, None, sent, false).ifNoneMatch))
       <==> !TagSplits(pf, files[key], sent)
  {
    hide Trim, TrimMatches, Core, Lower, Quoted, LibraryReaches, CliReaches, RightTag;
    DigestSurvivesTrimming(pf, files[key]);
    if sent.Some? {
      LibraryMatchesIff(pf.digest(files[key]), sent.value);
      CliMatchesIff(pf.digest(files[key]), sent.value);
    }
  }

  // ---- compression -----------------------------------------------------------------------------

  /** `gzip` is named, but not in lower case. */
  predicate Miscased(value: string) {
    ContainsText(Lower(value), "gzip") && !ContainsText(value, "gzip")
  }

  lemma {:induction false} LowerKeepsText(s: string, t: string)
    requires ContainsText(s, t) && Lower(t) == t
    ensures ContainsText(Lower(s), t)
  {
    var i :| 0 <= i <= |s| && t <= s[i..];
    assert forall k :: 0 <= k < |t| ==> Lower(s)[i + k] == LowerChar(s[i..][k]) == LowerChar(t[k]) == Lower(t)[k];
    assert t <= Lower(s)[i..];
  }

  /** A miscased `gzip`, for a file that compression would shorten. */
  predicate GzipSplits(pf: Platform, key: string, file: Body, gzip: Option<string>) {
    && gzip.Some? && Miscased(gzip.value)
    && |file| >= MIN_COMPRESSIBLE_LEN && IsCompressible(pf.contentType(key))
    && pf.gzip(file).Some? && |pf.gzip(file).value| < |file|
  }

  // ---- agreement -----------------------------------------------------------------------------

  /** Two requests for the same thing, but for the tag comparison and the gzip flag. */
  predicate Twins(a: Asked, b: Asked) {
    a == b.(tagMatches := a.tagMatches, acceptsGzip := a.acceptsGzip)
  }

  /** The representation itself is answered, whole. */
  predicate GivesWhole(a: Asked) {
    a.file.Some? && !(IsGetOrHead(a.verb) && a.tagMatches) && !(IsGet(a.verb) && a.range.Some?)
  }

  lemma {:induction false} TwinsAnswerAlikeIff(pf: Platform, a: Asked, b: Asked, connection: string)
    requires a.Valid() && b.Valid() && Twins(a, b)
    ensures SameAnswer(LibraryResponse(pf, a), CliResponse(pf, b, connection))
       <==> && (IsGetOrHead(a.verb) ==> a.tagMatches == b.tagMatches)
            && (GivesWhole(a) ==> Compressed(pf, a, a.file.value) == Compressed(pf, b, a.file.value))
  {
    hide SameAnswer;
    SameAskedSameAnswer(pf, b, connection);
    SameLibraryIff(pf, a, b);
    SameAnswerPins(LibraryResponse(pf, a), LibraryResponse(pf, b), CliResponse(pf, b, connection));
  }

  lemma {:induction false} SameAnswerPins(a: Response, b: Response, cli: Response)
    requires SameAnswer(b, cli)
    ensures SameAnswer(a, cli) <==> a == b
  {
    hide Without;
  }

  lemma {:induction false} SameLibraryIff(pf: Platform, a: Asked, b: Asked)
    requires a.Valid() && b.Valid() && Twins(a, b)
    ensures LibraryResponse(pf, a) == LibraryResponse(pf, b)
       <==> && (IsGetOrHead(a.verb) ==> a.tagMatches == b.tagMatches)
            && (GivesWhole(a) ==> Compressed(pf, a, a.file.value) == Compressed(pf, b, a.file.value))
  {
    hide Print, Quoted, SliceText, UnsatisfiedText, IsCompressible, IsGet, IsGetOrHead, Compressed;
    if GivesWhole(a) && (IsGetOrHead(a.verb) ==> a.tagMatches == b.tagMatches) {
      WholeIsPinned(pf, a, b);
    }
  }

  /** Whether and how a whole representation was compressed shows in the answer, body or not. */
  lemma {:induction false} WholeIsPinned(pf: Platform, a: Asked, b: Asked)
    requires a.Valid() && b.Valid() && Twins(a, b) && GivesWhole(a) && GivesWhole(b)
    ensures LibraryResponse(pf, a) == LibraryResponse(pf, b)
       <==> Compressed(pf, a, a.file.value) == Compressed(pf, b, a.file.value)
  {
    hide Print, Quoted, SliceText, UnsatisfiedText;
    var x, y := LibraryResponse(pf, a), LibraryResponse(pf, b);
    assert |x.headers| == 4 + |VaryHeaders(pf, a.key, Compressed(pf, a, a.file.value).Some?)|;
    assert |y.headers| == 4 + |VaryHeaders(pf, b.key, Compressed(pf, b, a.file.value).Some?)|;
  }

  /**
   For a rooted path, with or without a query, and a range value without a colon, the two
   servers give the same answer if and only if no file is selected, or neither the tag
   comparison nor, where the whole file is answered, the gzip flag tells them apart.
   */
  lemma {:induction false} RenderersAgreeIff(
    pf: Platform, files: Files, verb: string, target: string,
    gzip: Option<string>, range: Option<string>, sent: Option<string>, close: bool)
    requires HexDigests(pf) && Rooted(PathOf(target))
    requires range.Some? ==> ':' !in range.value
    ensures var (key, file) := Select(files, ServePath(target));
            SameAnswer(Library(pf, files, verb, target, gzip, range, sent),
                       Cli(pf, files, verb, target, gzip, range, sent, close))
            <==> file.None? ||
                 (&& !(IsGetOrHead(verb) && TagSplits(pf, file.value, sent))
                  && !(GivesWhole(LibraryAsked(pf, files, verb, ServePath(target), gzip, range, sent))
                       && GzipSplits(pf, key, file.value, gzip)))
  {
    hide SameAnswer, LibraryResponse, CliResponse, TagSplits, ParseValue, ParseLine, IsAssetRequest, ContainsText;
    hide CliTagMatches, LibraryTagMatches, IsCompressible, Trim, Lower, IsGet, IsGetOrHead;
    var (key, file) := Select(files, ServePath(target));
    PathsAgreeIff(target);
    var a := LibraryAsked(pf, files, verb, ServePath(target), gzip, range, sent);
    var b := CliAsked(pf, files, Received(verb, target, gzip, range, sent, close));
    if gzip.Some? { GzipFlags(gzip.value); }
    if file.Some? {
      ReadingsAgree(range, |file.value|);
      assert file == Some(files[key]);
      TagsAgreeIff(pf, files, key, sent);
    }
    assert Twins(a, b);
    TwinsAnswerAlikeIff(pf, a, b, ConnectionText(close));
  }

  lemma {:induction false} GzipFlags(value: string)
    ensures ContainsText(value, "gzip") ==> ContainsText(Lower(value), "gzip")
  {
    if ContainsText(value, "gzip") { LowerKeepsText(value, "gzip"); }
  }

  /** In particular for a lower-case `gzip` and a tag that both strip down, or neither. */
  lemma {:induction false} RenderersAgree(
    pf: Platform, files: Files, verb: string, target: string,
    gzip: Option<string>, range: Option<string>, sent: Option<string>, close: bool)
    requires HexDigests(pf) && Rooted(PathOf(target))
    requires range.Some? ==> ':' !in range.value
    requires gzip.Some? ==> !Miscased(gzip.value)
    requires sent.Some? ==> LibraryReaches(sent.value) == CliReaches(sent.value)
    ensures SameAnswer(Library(pf, files, verb, target, gzip, range, sent),
                       Cli(pf, files, verb, target, gzip, range, sent, close))
  {
    hide SameAnswer, Library, Cli, LibraryReaches, CliReaches, RightTag, Miscased;
    RenderersAgreeIff(pf, files, verb, target, gzip, range, sent, close);
  }

  /** The same status, body and value of every header but `Connection` and, on a refusal, `Content-Length`. */
  lemma {:induction false} SameAnswerSameHeader(library: Response, cli: Response, name: Name)
    requires SameAnswer(library, cli) && name != Connection
    requires name == ContentLength ==> library.status != NotFound && library.status != RangeNotSatisfiable
    ensures Lookup(library.headers, name) == Lookup(cli.headers, name)
  {
    LookupWithout(cli.headers, Connection, name);
    if name != ContentLength {
      LookupWithout(Without(cli.headers, Connection), ContentLength, name);
    }
  }

  lemma {:induction false} LookupWithout(headers: seq<Header>, gone: Name, name: Name)
    requires name != gone
    ensures Lookup(Without(headers, gone), name) == Lookup(headers, name)
  {
    if headers != [] {
      LookupWithout(headers[1..], gone, name);
      if headers[0].name != gone {
        assert Without(headers, gone)[1..] == Without(headers[1..], gone);
      } else {
        assert Without(headers, gone) == Without(headers[1..], gone);
      }
    }
  }

  lemma {:induction false} LookupAt(headers: seq<Header>, i: nat)
    requires i < |headers| && forall j :: 0 <= j < i ==> headers[j].name != headers[i].name
    ensures Lookup(headers, headers[i].name) == Some(headers[i].value)
  {
    if i > 0 { LookupAt(headers[1..], i - 1); }
  }

  lemma {:induction false} LookupPast(headers: seq<Header>, n: nat, name: Name)
    requires n <= |headers| && forall j :: 0 <= j < n ==> headers[j].name != name
    ensures Lookup(headers, name) == Lookup(headers[n..], name)
  {
    if n > 0 {
      assert headers[1..][n - 1..] == headers[n..];
      LookupPast(headers[1..], n - 1, name);
    }
  }

  // ---- single answers --------------------------------------------------------------------------

  /** An asset request is one with a dot after its last slash. */
  lemma {:induction false} AssetIff(path: string)
    ensures IsAssetRequest(path) <==> exists i :: DotInLastSegment(path, i)
  {
    if path != "" {
      var n := |path| - 1;
      AssetIff(path[..n]);
      if path[n] == '.' {
        assert DotInLastSegment(path, n);
      } else if path[n] != '/' {
        forall i ensures DotInLastSegment(path, i) <==> DotInLastSegment(path[..n], i) {
          assert forall j :: 0 <= j < n ==> path[..n][j] == path[j];
        }
      }
    }
  }

  predicate DotInLastSegment(path: string, i: int) {
    0 <= i < |path| && path[i] == '.' && forall j :: i < j < |path| ==> path[j] != '/'
  }

  /** The bytes a target selects, if any. */
  function Selected(files: Files, target: string): Option<Body> {
    Select(files, ServePath(target)).1
  }

  ghost predicate CollisionFree(pf: Platform) {
    forall b, c :: pf.digest(b) == pf.digest(c) ==> b == c
  }

  /**
   Revalidation: sending back the tag of an earlier answer yields 304 exactly when the
   target still selects those bytes, whatever range is asked for.
   */
  lemma {:induction false} RevalidationIff(
    pf: Platform, before: Files, after: Files, verb: string, target: string,
    gzip: Option<string>, range: Option<string>, tag: string)
    requires HexDigests(pf) && CollisionFree(pf) && IsGetOrHead(verb)
    requires Library(pf, before, "GET", target, gzip, None, None).status == Complete
    requires Lookup(Library(pf, before, "GET", target, gzip, None, None).headers, ETag) == Some(tag)
    ensures Library(pf, after, verb, target, gzip, range, Some(tag)).status == NotModified
       <==> Selected(after, target) == Selected(before, target)
  {
    hide IsAssetRequest, ContainsText, ParseValue, TrimMatches, Trim, Print, Compressed, VaryHeaders, Lookup, Quoted;
    hide ServePath;
    var file := Selected(before, target).value;
    LookupAt(Library(pf, before, "GET", target, gzip, None, None).headers, 2);
    assert tag == Quoted(pf.digest(file));
    DigestSurvivesTrimming(pf, file);
    if Selected(after, target).Some? {
      DigestSurvivesTrimming(pf, Selected(after, target).value);
    }
  }

  /** A length header tells the body that a GET delivers, and a HEAD would have. */
  lemma {:induction false} LengthTellsTheBody(pf: Platform, a: Asked)
    requires a.Valid() && IsGet(a.verb)
    requires LibraryResponse(pf, a).status.Complete? || LibraryResponse(pf, a).status.PartialContent?
    ensures Lookup(LibraryResponse(pf, a).headers, ContentLength) == Some(Print(|LibraryResponse(pf, a).body|))
  {
    hide Print, Quoted, SliceText, Compressed, VaryHeaders, Lookup;
    LookupAt(LibraryResponse(pf, a).headers, 1);
  }

  lemma {:induction false} HeadMirrorsGet(pf: Platform, a: Asked)
    requires a.Valid() && a.verb == "HEAD"
    ensures var get := LibraryResponse(pf, a.(verb := "GET", range := None));
            LibraryResponse(pf, a) == get.(body := [])
  {
  }

  /** What a client makes of a body, given the encoding header. */
  function Decoded(gunzip: Body -> Body, r: Response): Body {
    if Lookup(r.headers, ContentEncoding) == Some("gzip") then gunzip(r.body) else r.body
  }

  /** A complete answer decodes to the stored file, and compression never makes it longer. */
  lemma {:induction false} CompleteDecodesToFile(pf: Platform, gunzip: Body -> Body, a: Asked)
    requires a.Valid() && IsGet(a.verb) && LibraryResponse(pf, a).status.Complete?
    requires forall b :: pf.gzip(b).Some? ==> gunzip(pf.gzip(b).value) == b
    ensures a.file == Some(Decoded(gunzip, LibraryResponse(pf, a)))
    ensures |LibraryResponse(pf, a).body| <= |a.file.value|
  {
    hide Print, Quoted, IsGet, IsGetOrHead, IsCompressible;
    LookupPast(LibraryResponse(pf, a).headers, 4, ContentEncoding);
  }

  // ---- reassembly ------------------------------------------------------------------------------

  predicate Increasing(cuts: seq<nat>) {
    forall i, j :: 0 <= i < j < |cuts| ==> cuts[i] < cuts[j]
  }

  /** Increasing positions of a file, the boundaries of its pieces. */
  predicate Cuts(cuts: seq<nat>, len: nat) {
    cuts != [] && Increasing(cuts) && cuts[|cuts| - 1] <= len
  }

  /** The bodies of the answers for every piece, in order. */
  function Fetched(pf: Platform, files: Files, target: string, gzip: Option<string>, cuts: seq<nat>): Body
    requires Increasing(cuts)
    decreases |cuts|
  {
    if |cuts| < 2 then []
    else
      var last := |cuts| - 1;
      Fetched(pf, files, target, gzip, cuts[..last])
      + Library(pf, files, "GET", target, gzip, Some(Printed(cuts[last - 1], cuts[last] - 1)), None).body
  }

  lemma {:induction false} CutsBefore(cuts: seq<nat>, len: nat)
    requires Cuts(cuts, len)
    ensures cuts[0] <= cuts[|cuts| - 1]
    ensures |cuts| > 1 ==>
      var last := |cuts| - 1;
      && Cuts(cuts[..last], len) && cuts[..last][0] == cuts[0] && cuts[..last][last - 1] == cuts[last - 1]
      && cuts[0] <= cuts[last - 1] < cuts[last]
  {
  }

  lemma {:induction false} PieceIsExact(
    pf: Platform, files: Files, target: string, gzip: Option<string>, from: nat, to: nat)
    requires Selected(files, target).Some? && from < to <= |Selected(files, target).value| <= U64_LIMIT
    ensures var r := Library(pf, files, "GET", target, gzip, Some(Printed(from, to - 1)), None);
            && r.status == PartialContent && r.body == Selected(files, target).value[from..to]
            && Lookup(r.headers, ContentRange) == Some(SliceText(from, to - 1, |Selected(files, target).value|))
            && Lookup(r.headers, ContentLength) == Some(Print(to - from))
  {
    hide IsAssetRequest, ContainsText, ParseValue, Print, Printed, SliceText, Quoted, Compressed, Lookup, VaryHeaders;
    hide ServePath;
    PrintedRangeMeans(from, to - 1, |Selected(files, target).value|);
    var r := Library(pf, files, "GET", target, gzip, Some(Printed(from, to - 1)), None);
    LookupAt(r.headers, 1);
    LookupAt(r.headers, 3);
  }

  /** Asking for a file piece by piece, at whatever boundaries, gives the file back. */
  lemma {:induction false} RangesReassemble(
    pf: Platform, files: Files, target: string, gzip: Option<string>, cuts: seq<nat>)
    requires Selected(files, target).Some? && |Selected(files, target).value| <= U64_LIMIT
    requires Cuts(cuts, |Selected(files, target).value|)
    ensures cuts[0] <= cuts[|cuts| - 1]
    ensures Fetched(pf, files, target, gzip, cuts) == Selected(files, target).value[cuts[0]..cuts[|cuts| - 1]]
    decreases |cuts|
  {
    hide Library, Selected, Printed, Increasing;
    var file, last := Selected(files, target).value, |cuts| - 1;
    CutsBefore(cuts, |file|);
    if last == 0 {
      assert file[cuts[0]..cuts[0]] == [];
    } else {
      hide Cuts;
      RangesReassemble(pf, files, target, gzip, cuts[..last]);
      PieceIsExact(pf, files, target, gzip, cuts[last - 1], cuts[last]);
      SlicesJoin(file, cuts[0], cuts[last - 1], cuts[last]);
    }
  }

  lemma {:induction false} SlicesJoin(s: Body, a: nat, b: nat, c: nat)
    requires a <= b <= c <= |s|
    ensures s[a..b] + s[b..c] == s[a..c]
  {
  }
}
