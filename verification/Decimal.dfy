/** Unsigned decimal numerals, printed as `to_string` does and read as `parse::<u64>` does. */
module Decimal {
  import Bytes
  import opened Prelude

  const U64_LIMIT := Bytes.U64_LIMIT

  predicate IsDigit(c: char) {
    '0' <= c <= '9'
  }

  predicate AllDigits(s: string) {
    forall i :: 0 <= i < |s| ==> IsDigit(s[i])
  }

  function DigitChar(d: nat): char
    requires d < 10
  {
    '0' + d as char
  }

  function Print(n: nat): (s: string)
    ensures s != "" && AllDigits(s)
  {
    if n < 10 then [DigitChar(n)] else Print(n / 10) + [DigitChar(n % 10)]
  }

  function Value(s: string): nat
    requires AllDigits(s)
  {
    if s == "" then 0 else 10 * Value(s[..|s| - 1]) + (s[|s| - 1] - '0') as nat
  }

  /** An optional plus, at least one digit, nothing else, and no overflow. */
  function ParseU64(s: string): Option<nat> {
    var digits := if s != "" && s[0] == '+' then s[1..] else s;
    if digits == "" || !AllDigits(digits) || Value(digits) >= U64_LIMIT then None else Some(Value(digits))
  }

  lemma {:induction false} ValueOfPrint(n: nat)
    ensures Value(Print(n)) == n
  {
    if n >= 10 {
      var s := Print(n);
      assert s[..|s| - 1] == Print(n / 10);
      ValueOfPrint(n / 10);
    }
  }

  /** What is printed reads back, up to the largest 64-bit number and no further. */
  lemma {:induction false} ParseOfPrint(n: nat)
    ensures ParseU64(Print(n)) == if n < U64_LIMIT then Some(n) else None
  {
    ValueOfPrint(n);
    assert IsDigit(Print(n)[0]);
  }

  // ---- digit by digit ----------------------------------------------------------------------------

  const DIGITS := "0123456789"

  /** A digit is one of the ten, and counts for its place among them. */
  lemma {:induction false} DigitMeans(c: char)
    ensures IsDigit(c) <==> c in DIGITS
    ensures forall d :: 0 <= d < 10 && DIGITS[d] == c ==> Value([c]) == d
  {
    assert DIGITS[0] == '0' && DIGITS[1] == '1' && DIGITS[2] == '2' && DIGITS[3] == '3' && DIGITS[4] == '4';
    assert DIGITS[5] == '5' && DIGITS[6] == '6' && DIGITS[7] == '7' && DIGITS[8] == '8' && DIGITS[9] == '9';
    if IsDigit(c) {
      assert c == DIGITS[(c - '0') as int];
      assert [c][..0] == "";
    }
  }

  /** A numeral is that of the number without its last digit, if any, and then the last digit. */
  lemma {:induction false} PrintMeans(n: nat, d: nat)
    requires d < 10
    ensures Print(d) == [DIGITS[d]]
    ensures n > 0 ==> Print(10 * n + d) == Print(n) + [DIGITS[d]]
  {
    assert DIGITS[0] == '0' && DIGITS[1] == '1' && DIGITS[2] == '2' && DIGITS[3] == '3' && DIGITS[4] == '4';
    assert DIGITS[5] == '5' && DIGITS[6] == '6' && DIGITS[7] == '7' && DIGITS[8] == '8' && DIGITS[9] == '9';
    assert (10 * n + d) / 10 == n && (10 * n + d) % 10 == d;
  }

  /** One more digit counts ten times what came before and itself. */
  lemma {:induction false} ValueMeans(s: string, d: nat)
    requires AllDigits(s) && d < 10
    ensures AllDigits(s + [DIGITS[d]]) && Value("") == 0 && Value(s + [DIGITS[d]]) == 10 * Value(s) + d
  {
    DigitMeans(DIGITS[d]);
    assert (s + [DIGITS[d]])[..|s|] == s;
    assert [DIGITS[d]][..0] == "";
  }

  /** A number is read with or without a plus in front, digits only, at least one, and below two to the 64th. */
  lemma {:induction false} NumberReadsIff(s: string, n: nat)
    ensures ParseU64(s) == Some(n)
       <==> exists plus, digits :: s == plus + digits && (plus == "" || plus == "+")
              && digits != "" && AllDigits(digits) && Value(digits) == n && n < 18446744073709551616
  {
    assert U64_LIMIT == 18446744073709551616;
    if ParseU64(s) == Some(n) {
      var plus := if s[0] == '+' then "+" else "";
      assert s == plus + s[|plus|..];
    }
    forall plus, digits | s == plus + digits && (plus == "" || plus == "+") && digits != "" && AllDigits(digits)
      ensures ParseU64(s) == if Value(digits) < 18446744073709551616 then Some(Value(digits)) else None
    {
      assert IsDigit(digits[0]);
      assert s[|plus|..] == digits;
    }
  }
}
