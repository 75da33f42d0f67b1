/** String operations on ASCII text, as the source's standard library has them. */
module Text {
  import opened Prelude

  predicate IsBlank(c: char) {
    c == ' ' || ('\t' <= c <= '\r')
  }

  /** The space, and tab through carriage return. */
  lemma {:induction false} BlankMeans(c: char)
    ensures IsBlank(c) <==> c as int == 32 || 9 <= c as int <= 13
  {
  }

  function TrimStart(s: string): (t: string)
    ensures |t| <= |s|
  {
    if s != "" && IsBlank(s[0]) then TrimStart(s[1..]) else s
  }

  function TrimEnd(s: string): (t: string)
    ensures |t| <= |s|
  {
    if s != "" && IsBlank(s[|s| - 1]) then TrimEnd(s[..|s| - 1]) else s
  }

  function Trim(s: string): string {
    TrimEnd(TrimStart(s))
  }

  /** No blank at either end. */
  predicate IsTrimmed(s: string) {
    s == "" || (!IsBlank(s[0]) && !IsBlank(s[|s| - 1]))
  }

  lemma {:induction false} TrimmedStays(s: string)
    requires IsTrimmed(s)
    ensures Trim(s) == s
  {
  }

  predicate AllBlank(s: string) {
    forall c :: c in s ==> IsBlank(c)
  }

  /** Trimming is decided by any split into blanks, a trimmed middle, and blanks. */
  lemma {:induction false} TrimIs(left: string, middle: string, right: string)
    requires AllBlank(left) && AllBlank(right) && IsTrimmed(middle)
    ensures Trim(left + middle + right) == middle
  {
    var s := left + middle + right;
    if left != "" {
      assert s[0] == left[0] && s[1..] == left[1..] + middle + right;
      TrimIs(left[1..], middle, right);
    } else if middle != "" {
      assert s[0] == middle[0];
      TrimEndDrops(middle, right);
      assert s == middle + right;
    } else if right != "" {
      assert s[0] == right[0] && s[1..] == "" + "" + right[1..];
      TrimIs("", "", right[1..]);
    }
  }

  lemma {:induction false} TrimEndDrops(middle: string, right: string)
    requires AllBlank(right) && middle != "" && !IsBlank(middle[|middle| - 1])
    ensures TrimEnd(middle + right) == middle
  {
    var s := middle + right;
    if right == "" {
      assert s == middle;
    } else {
      assert s[|s| - 1] == right[|right| - 1] && s[..|s| - 1] == middle + right[..|right| - 1];
      TrimEndDrops(middle, right[..|right| - 1]);
    }
  }

  lemma {:induction false} TrimParts(s: string) returns (left: string, right: string)
    ensures s == left + Trim(s) + right && AllBlank(left) && AllBlank(right) && IsTrimmed(Trim(s))
  {
    var l := TrimStartParts(s);
    var t := TrimStart(s);
    var r := TrimEndParts(t);
    left, right := l, r;
    assert Trim(s) != "" ==> Trim(s)[0] == t[0];
  }

  lemma {:induction false} TrimStartParts(s: string) returns (left: string)
    ensures s == left + TrimStart(s) && AllBlank(left)
    ensures TrimStart(s) != "" ==> !IsBlank(TrimStart(s)[0])
  {
    if s != "" && IsBlank(s[0]) {
      var rest := TrimStartParts(s[1..]);
      left := [s[0]] + rest;
    } else {
      left := "";
    }
  }

  lemma {:induction false} TrimEndParts(s: string) returns (right: string)
    ensures s == TrimEnd(s) + right && AllBlank(right)
    ensures TrimEnd(s) != "" ==> !IsBlank(TrimEnd(s)[|TrimEnd(s)| - 1])
  {
    if s != "" && IsBlank(s[|s| - 1]) {
      var rest := TrimEndParts(s[..|s| - 1]);
      right := rest + [s[|s| - 1]];
    } else {
      right := "";
    }
  }

  /** `trim_matches`: every leading and trailing `c` goes. */
  function TrimMatches(s: string, c: char): string
    decreases |s|
  {
    if s != "" && s[0] == c then TrimMatches(s[1..], c)
    else if s != "" && s[|s| - 1] == c then TrimMatches(s[..|s| - 1], c)
    else s
  }

  function LowerChar(c: char): char {
    if 'A' <= c <= 'Z' then c - 'A' + 'a' else c
  }

  function Lower(s: string): (l: string)
    ensures |l| == |s|
    ensures forall i :: 0 <= i < |s| ==> l[i] == LowerChar(s[i])
  {
    seq(|s|, i requires 0 <= i < |s| => LowerChar(s[i]))
  }

  /** The letters A to Z become those 32 codes on, and all else stays. */
  lemma {:induction false} LowerMeans(s: string, i: nat)
    requires i < |s|
    ensures |Lower(s)| == |s|
    ensures Lower(s)[i] as int == s[i] as int + if 65 <= s[i] as int <= 90 then 32 else 0
  {
    assert Lower(s)[i] == LowerChar(s[i]);
  }

  predicate EqualIgnoringCase(a: string, b: string) {
    Lower(a) == Lower(b)
  }

  /** Where `c` first occurs, or the length. */
  function Find(s: string, c: char): (i: nat)
    ensures i <= |s|
    ensures i < |s| ==> s[i] == c
    ensures forall j :: 0 <= j < i ==> s[j] != c
    ensures i == |s| <==> c !in s
  {
    if s == "" || s[0] == c then 0 else 1 + Find(s[1..], c)
  }

  /** `split_once`: the parts around the first occurrence. */
  function SplitOnce(s: string, c: char): (r: Option<(string, string)>)
    ensures r.None? <==> c !in s
    ensures r.Some? ==> s == r.value.0 + [c] + r.value.1 && c !in r.value.0
  {
    var i := Find(s, c);
    if i == |s| then None else Some((s[..i], s[i + 1..]))
  }

  lemma {:induction false} SplitOnceIs(before: string, c: char, after: string)
    requires c !in before
    ensures SplitOnce(before + [c] + after, c) == Some((before, after))
  {
    var s := before + [c] + after;
    assert s[|before|] == c && forall j :: 0 <= j < |before| ==> s[j] == before[j];
    assert Find(s, c) == |before|;
    assert s[..|before|] == before && s[|before| + 1..] == after;
  }

  // ---- stripping quotes and blanks ---------------------------------------------------------

  predicate IsPad(c: char) {
    IsBlank(c) || c == '"'
  }

  predicate AllPad(s: string) {
    forall i :: 0 <= i < |s| ==> IsPad(s[i])
  }

  predicate AllOf(s: string, c: char) {
    forall i :: 0 <= i < |s| ==> s[i] == c
  }

  /** What is left once every quote and blank at either end is gone. */
  function Core(s: string): string
    decreases |s|
  {
    if s != "" && IsPad(s[0]) then Core(s[1..])
    else if s != "" && IsPad(s[|s| - 1]) then Core(s[..|s| - 1])
    else s
  }

  lemma {:induction false} CoreIs(left: string, middle: string, right: string)
    requires AllPad(left) && AllPad(right)
    requires middle != "" && !IsPad(middle[0]) && !IsPad(middle[|middle| - 1])
    ensures Core(left + middle + right) == middle
    decreases |left| + |right|
  {
    var s := left + middle + right;
    if left != "" {
      assert s[0] == left[0] && s[1..] == left[1..] + middle + right;
      CoreIs(left[1..], middle, right);
    } else if right != "" {
      assert s[0] == middle[0] && s[|s| - 1] == right[|right| - 1];
      assert s[..|s| - 1] == left + middle + right[..|right| - 1];
      CoreIs(left, middle, right[..|right| - 1]);
    } else {
      assert s == middle;
    }
  }

  lemma {:induction false} TrimMatchesIs(left: string, middle: string, right: string, c: char)
    requires AllOf(left, c) && AllOf(right, c)
    requires middle == "" || (middle[0] != c && middle[|middle| - 1] != c)
    ensures TrimMatches(left + middle + right, c) == middle
    decreases |left| + |right|
  {
    var s := left + middle + right;
    if left != "" {
      assert s[0] == left[0] && s[1..] == left[1..] + middle + right;
      TrimMatchesIs(left[1..], middle, right, c);
    } else if right != "" && middle != "" {
      assert s[0] == middle[0] && s[|s| - 1] == right[|right| - 1];
      assert s[..|s| - 1] == left + middle + right[..|right| - 1];
      TrimMatchesIs(left, middle, right[..|right| - 1], c);
    } else if right != "" {
      assert s[0] == right[0] && s[1..] == left + middle + right[1..];
      TrimMatchesIs(left, middle, right[1..], c);
    } else {
      assert s == middle;
    }
  }

  lemma {:induction false} TrimMatchesParts(s: string, c: char) returns (left: string, right: string)
    ensures s == left + TrimMatches(s, c) + right && AllOf(left, c) && AllOf(right, c)
    ensures var t := TrimMatches(s, c); t != "" ==> t[0] != c && t[|t| - 1] != c
    decreases |s|
  {
    left, right := "", "";
    if s != "" && s[0] == c {
      left, right := TrimMatchesParts(s[1..], c);
      left := [c] + left;
    } else if s != "" && s[|s| - 1] == c {
      left, right := TrimMatchesParts(s[..|s| - 1], c);
      right := right + [c];
    }
  }

  lemma {:induction false} LowerJoined(x: string, y: string)
    ensures Lower(x + y) == Lower(x) + Lower(y)
  {
  }

  /** Lower-casing touches neither blanks nor quotes, so it commutes with stripping them. */
  lemma {:induction false} LowerCommutesWithTrim(s: string)
    ensures Trim(Lower(s)) == Lower(Trim(s))
  {
    var left, right := TrimParts(s);
    LowerJoined(left + Trim(s), right);
    LowerJoined(left, Trim(s));
    assert forall i :: 0 <= i < |left| ==> left[i] in left;
    assert forall i :: 0 <= i < |right| ==> right[i] in right;
    assert Lower(left) == left && Lower(right) == right;
    assert forall c :: IsBlank(LowerChar(c)) <==> IsBlank(c);
    TrimIs(left, Lower(Trim(s)), right);
  }

  lemma {:induction false} LowerCommutesWithTrimMatches(s: string)
    ensures TrimMatches(Lower(s), '"') == Lower(TrimMatches(s, '"'))
  {
    var left, right := TrimMatchesParts(s, '"');
    var t := TrimMatches(s, '"');
    LowerJoined(left + t, right);
    LowerJoined(left, t);
    assert Lower(left) == left && Lower(right) == right;
    TrimMatchesIs(left, Lower(t), right, '"');
  }
}
