/**
 Single byte ranges (section 2.1 of RFC 7233) as both static-file servers read
 them: the header value with an optional `Key:` in front, and the raw header line.
 */
module HttpRange {
  import opened Prelude
  import opened Text
  import opened Decimal

  type Body = seq<int>

  const UNIT: string := "bytes="

  datatype RangeSpec = Unsatisfiable | Bytes(start: nat, end: nat)

  /** `None` means that the header is to be ignored. */
  function ParseBounds(first: string, last: string, len: nat): (r: Option<RangeSpec>)
    ensures r.Some? && r.value.Bytes? ==> r.value.start <= r.value.end < len
  {
    if first == "" then
      if len == 0 then Some(Unsatisfiable)
      else
        match ParseU64(last)
        case None => None
        case Some(n) =>
          if n == 0 then Some(Unsatisfiable)
          else Some(Bytes(len - (if n < len then n else len), len - 1))
    else
      match ParseU64(first)
      case None => None
      case Some(start) =>
        if start >= len then Some(Unsatisfiable)
        else if last == "" then Some(Bytes(start, len - 1))
        else
          match ParseU64(last)
          case None => None
          case Some(end) =>
            if end < start then None else Some(Bytes(start, if end < len then end else len - 1))
  }

  /** A trimmed `bytes=...` specification. */
  function ParseSpec(spec: string, len: nat): (r: Option<RangeSpec>)
    ensures r.Some? && r.value.Bytes? ==> r.value.start <= r.value.end < len
  {
    if |spec| < |UNIT| || !EqualIgnoringCase(spec[..|UNIT|], UNIT) then None
    else
      var value := spec[|UNIT|..];
      if ',' in value then None
      else
        match SplitOnce(value, '-')
        case Some((first, last)) => ParseBounds(first, last, len)
        case None => ParseBounds(value, "", len)
  }

  /** The library's reading of a header value; anything up to a colon is taken for a key. */
  function ParseValue(header: Option<string>, len: nat): (r: Option<RangeSpec>)
    ensures r.Some? && r.value.Bytes? ==> r.value.start <= r.value.end < len
  {
    match header
    case None => None
    case Some(h) =>
      var spec := Trim(h);
      match SplitOnce(spec, ':')
      case Some((_, value)) => ParseSpec(Trim(value), len)
      case None => ParseSpec(spec, len)
  }

  /** The command line server's reading of the whole header line; the key is required. */
  function ParseLine(header: Option<string>, len: nat): (r: Option<RangeSpec>)
    ensures r.Some? && r.value.Bytes? ==> r.value.start <= r.value.end < len
  {
    match header
    case None => None
    case Some(h) =>
      match SplitOnce(Trim(h), ':')
      case None => None
      case Some((_, value)) => ParseSpec(Trim(value), len)
  }

  /** The line a client sends for a value, key in its usual spelling, as read off the wire without its end. */
  function LineOf(value: Option<string>): Option<string> {
    match value
    case None => None
    case Some(v) => Some("Range: " + v)
  }

  // ---- what printed ranges mean --------------------------------------------------------------

  function Printed(first: nat, last: nat): string {
    UNIT + Print(first) + "-" + Print(last)
  }

  function PrintedSuffix(n: nat): string {
    UNIT + "-" + Print(n)
  }

  function PrintedFrom(first: nat): string {
    UNIT + Print(first) + "-"
  }

  /** A value made of the unit and plain characters reaches the bounds intact. */
  lemma {:induction false} PlainSpec(first: string, last: string, len: nat)
    requires AllDigits(first) && AllDigits(last)
    ensures var h := UNIT + first + "-" + last;
            && IsTrimmed(h) && ':' !in h
            && ParseSpec(h, len) == ParseBounds(first, last, len)
            && ParseValue(Some(h), len) == ParseBounds(first, last, len)
  {
    hide ParseBounds;
    var value := first + ['-'] + last;
    var h := UNIT + first + "-" + last;
    assert h == UNIT + value;
    assert h[0] == 'b' && (h[|h| - 1] == '-' || IsDigit(h[|h| - 1]));
    TrimmedStays(h);
    assert forall i :: 0 <= i < |value| ==> value[i] == '-' || IsDigit(value[i]);
    assert ':' !in h;
    assert h[..|UNIT|] == UNIT && h[|UNIT|..] == value;
    assert ',' !in value;
    SplitOnceIs(first, '-', last);
  }

  /** `bytes=a-b` is the bytes from `a` through `b`, as many of them as there are. */
  lemma {:induction false} PrintedRangeMeans(first: nat, last: nat, len: nat)
    requires first <= last < U64_LIMIT
    ensures ParseValue(Some(Printed(first, last)), len)
         == Some(if first >= len then Unsatisfiable else Bytes(first, if last < len then last else len - 1))
  {
    PlainSpec(Print(first), Print(last), len);
    ParseOfPrint(first);
    ParseOfPrint(last);
  }

  /** `bytes=-n` is the last `n` bytes. */
  lemma {:induction false} PrintedSuffixMeans(n: nat, len: nat)
    requires n < U64_LIMIT
    ensures ParseValue(Some(PrintedSuffix(n)), len)
         == Some(if len == 0 || n == 0 then Unsatisfiable else Bytes(if n < len then len - n else 0, len - 1))
  {
    ParseOfPrint(n);
    hide ParseValue, ParseSpec, Print, ParseU64, IsTrimmed;
    PlainSpec("", Print(n), len);
    assert UNIT + "" + "-" + Print(n) == PrintedSuffix(n);
  }

  /** `bytes=a-` is everything from `a` on. */
  lemma {:induction false} PrintedFromMeans(n: nat, len: nat)
    requires n < U64_LIMIT
    ensures ParseValue(Some(PrintedFrom(n)), len) == Some(if n >= len then Unsatisfiable else Bytes(n, len - 1))
  {
    PlainSpec(Print(n), "", len);
    ParseOfPrint(n);
    hide ParseValue, Print, ParseU64;
    assert UNIT + Print(n) + "-" + "" == PrintedFrom(n);
  }

  // ---- the two readings ----------------------------------------------------------------------

  lemma {:induction false} LineReadsItsValue(v: string, len: nat)
    ensures ParseLine(LineOf(Some(v)), len) == ParseSpec(Trim(v), len)
  {
    hide ParseSpec, Trim, SplitOnce;
    var left, right := TrimParts(v);
    var line := "Range: " + v;
    if Trim(v) == "" {
      assert line == "" + "Range:" + (" " + left + right);
      TrimIs("", "Range:", " " + left + right);
      assert "Range:" == "Range" + [':'] + "";
      SplitOnceIs("Range", ':', "");
      assert "" == "" + "" + "";
      TrimIs("", "", "");
    } else {
      LineOfNonBlank(left, Trim(v), right);
      assert line == "" + ("Range: " + left + Trim(v)) + right;
    }
  }

  lemma {:induction false} LineOfNonBlank(left: string, middle: string, right: string)
    requires AllBlank(left) && AllBlank(right) && IsTrimmed(middle) && middle != ""
    ensures Trim("" + ("Range: " + left + middle) + right) == "Range: " + left + middle
    ensures SplitOnce("Range: " + left + middle, ':') == Some(("Range", " " + left + middle))
    ensures Trim(" " + left + middle) == middle
  {
    hide Trim, SplitOnce;
    var whole, rest := "Range: " + left + middle, " " + left + middle;
    assert whole[|whole| - 1] == middle[|middle| - 1] && whole[0] == 'R';
    TrimIs("", whole, right);
    assert whole == "Range" + [':'] + rest;
    SplitOnceIs("Range", ':', rest);
    assert rest == (" " + left) + middle + "";
    TrimIs(" " + left, middle, "");
  }

  predicate SameSlice(a: Option<RangeSpec>, b: Option<RangeSpec>) {
    var wantsA, wantsB := a.Some? && a.value.Bytes?, b.Some? && b.value.Bytes?;
    wantsA == wantsB && (wantsA ==> a == b)
  }

  /** What follows the first colon of a value. */
  function PastColon(v: string): string
    requires ':' in Trim(v)
  {
    Trim(SplitOnce(Trim(v), ':').value.1)
  }

  /** Without a colon in the value the two readings are the same. */
  lemma {:induction false} ReadingsAgree(value: Option<string>, len: nat)
    requires value.Some? ==> ':' !in value.value
    ensures ParseValue(value, len) == ParseLine(LineOf(value), len)
  {
    if value.Some? {
      LineReadsItsValue(value.value, len);
      var left, right := TrimParts(value.value);
    }
  }

  /** No numeral holds a colon, so a specification with one never selects bytes. */
  lemma {:induction false} ColonSelectsNothing(spec: string, len: nat)
    requires ':' in spec
    ensures ParseSpec(spec, len).Some? ==> ParseSpec(spec, len).value.Unsatisfiable?
  {
    hide SplitOnce, ParseBounds, Lower;
    if |spec| >= |UNIT| && EqualIgnoringCase(spec[..|UNIT|], UNIT) {
      var value := spec[|UNIT|..];
      assert ':' in value by {
        UnitHasNoColon(spec[..|UNIT|]);
        assert spec == spec[..|UNIT|] + value;
      }
      match SplitOnce(value, '-') {
        case Some((first, last)) =>
          assert value == first + ['-'] + last;
          ColonSelectsNoBounds(first, last, len);
        case None => ColonSelectsNoBounds(value, "", len);
      }
    }
  }

  lemma {:induction false} ColonSelectsNoBounds(first: string, last: string, len: nat)
    requires ':' in first || ':' in last
    ensures ParseBounds(first, last, len).Some? ==> ParseBounds(first, last, len).value.Unsatisfiable?
  {
  }

  lemma {:induction false} UnitHasNoColon(s: string)
    requires |s| == |UNIT| && EqualIgnoringCase(s, UNIT)
    ensures ':' !in s
  {
  }

  /**
   The two readings select the same bytes exactly when the value has no colon or
   what follows its first colon selects none: past a colon only the library looks.
   */
  lemma {:induction false} ReadingsAgreeIff(v: string, len: nat)
    ensures SameSlice(ParseValue(Some(v), len), ParseLine(LineOf(Some(v)), len))
       <==> (':' in Trim(v) ==> !SelectsBytes(PastColon(v), len))
  {
    LineReadsItsValue(v, len);
    if ':' in Trim(v) {
      ColonSelectsNothing(Trim(v), len);
    }
  }

  predicate SelectsBytes(spec: string, len: nat) {
    ParseSpec(spec, len).Some? && ParseSpec(spec, len).value.Bytes?
  }

  /** So any key in front of a range, `x:bytes=0-1` say, keeps it from the command line server. */
  lemma {:induction false} KeyedRangeIsLost(key: string, first: nat, last: nat, len: nat)
    requires ':' !in key && (key != "" ==> !IsBlank(key[0])) && first <= last < len && last < U64_LIMIT
    ensures ParseValue(Some(key + [':'] + Printed(first, last)), len) == Some(Bytes(first, last))
    ensures ParseLine(LineOf(Some(key + [':'] + Printed(first, last))), len) != Some(Bytes(first, last))
  {
    var spec := Printed(first, last);
    PlainSpec(Print(first), Print(last), len);
    PrintedRangeMeans(first, last, len);
    assert spec != "";
    hide ParseSpec, ParseBounds, Print, Printed, ParseValue, ParseLine, Trim;
    KeyedSpec(key, spec, len);
  }

  lemma {:induction false} KeyedSpec(key: string, spec: string, len: nat)
    requires ':' !in key && (key != "" ==> !IsBlank(key[0])) && spec != "" && IsTrimmed(spec)
    ensures ParseValue(Some(key + [':'] + spec), len) == ParseSpec(spec, len)
    ensures ParseLine(LineOf(Some(key + [':'] + spec)), len).Some? ==>
              ParseLine(LineOf(Some(key + [':'] + spec)), len).value.Unsatisfiable?
  {
    hide ParseSpec, ParseLine, Trim;
    var v := key + [':'] + spec;
    SplitOnceIs(key, ':', spec);
    assert v[0] == (if key == "" then ':' else key[0]) && v[|v| - 1] == spec[|spec| - 1];
    TrimmedStays(v);
    TrimmedStays(spec);
    LineReadsItsValue(v, len);
    ColonSelectsNothing(v, len);
  }
}
