/**
 * Swift's `Int(String)` initialiser as used by `saveExpense` (and the
 * decimal rendering `"\(value)"` used by the expense list), over 64-bit `Int`.
 *
 * `Int(text)` accepts an optional leading `+` or `-` followed by one or more
 * ASCII decimal digits and nothing else; it yields nil for anything else and
 * for a value outside the 64-bit range.
 */
module IntParsing {
  import opened Wrappers

  /** Bounds of Swift's 64-bit `Int`. */
  const IntMin: int := -0x8000_0000_0000_0000
  const IntMax: int := 0x7FFF_FFFF_FFFF_FFFF

  predicate IsDigit(c: char) {
    '0' <= c <= '9'
  }

  predicate AllDigits(s: string) {
    forall i :: 0 <= i < |s| ==> IsDigit(s[i])
  }

  function DigitValue(c: char): (d: nat)
    requires IsDigit(c)
    ensures d < 10
  {
    c as int - '0' as int
  }

  function DigitChar(d: nat): (c: char)
    requires d < 10
    ensures IsDigit(c) && DigitValue(c) == d
  {
    ('0' as int + d) as char
  }

  /** The value of a run of decimal digits, most significant first. */
  function DigitsValue(s: string): nat
    requires AllDigits(s)
  {
    if s == [] then 0 else DigitsValue(s[..|s| - 1]) * 10 + DigitValue(s[|s| - 1])
  }

  /** The value of a run of digits under a sign. */
  function SignedValue(negative: bool, ds: string): int
    requires AllDigits(ds)
  {
    if negative then -(DigitsValue(ds) as int) else DigitsValue(ds)
  }

  /** `Int(text)`: an optional sign, one or more digits, and a value in range. */
  function ParseInt(s: string): (r: Option<int>)
    ensures r.Some? ==> IntMin <= r.value <= IntMax
    ensures r.Some? ==> 0 < |s| && (IsDigit(s[0]) || s[0] == '+' || s[0] == '-')
    ensures r.Some? ==> forall i :: 0 < i < |s| ==> IsDigit(s[i])
    ensures r.Some? && r.value < 0 ==> s[0] == '-'
  {
    var negative := 0 < |s| && s[0] == '-';
    var digits := if 0 < |s| && (s[0] == '+' || s[0] == '-') then s[1..] else s;
    if digits == [] || !AllDigits(digits) then None
    else
      var n := SignedValue(negative, digits);
      if IntMin <= n <= IntMax then Some(n) else None
  }

  /** The digits of a natural number, without leading zeros. */
  function NatDigits(n: nat): (s: string)
    ensures 0 < |s| && AllDigits(s)
  {
    if n < 10 then [DigitChar(n)] else NatDigits(n / 10) + [DigitChar(n % 10)]
  }

  /** `"\(n)"`: the decimal text Swift shows for an `Int`, as in the expense list. */
  function Format(n: int): (s: string)
    ensures 0 < |s|
    ensures (s[0] == '-') == (n < 0)
  {
    if n < 0 then "-" + NatDigits(-n) else NatDigits(n)
  }

  lemma {:induction false} NatDigitsValue(n: nat)
    ensures DigitsValue(NatDigits(n)) == n
  {
    if n >= 10 {
      var s := NatDigits(n);
      assert s[..|s| - 1] == NatDigits(n / 10);
      NatDigitsValue(n / 10);
    }
  }

  /** Every 64-bit amount, shown as text and typed back, parses to itself. */
  lemma ParseFormat(n: int)
    requires IntMin <= n <= IntMax
    ensures ParseInt(Format(n)) == Some(n)
  {
    if n < 0 {
      NatDigitsValue(-n);
      ParseAccepts("-", NatDigits(-n));
    } else {
      NatDigitsValue(n);
      ParseAccepts("", NatDigits(n));
      assert "" + NatDigits(n) == Format(n);
    }
  }

  /**
   * Every text made of an optional sign and one or more digits, whose value
   * fits in 64 bits, parses, to the value of its digits under its sign. This
   * covers non-canonical texts such as "+5", "007" and "-0".
   */
  lemma ParseAccepts(sign: string, ds: string)
    requires sign == "" || sign == "+" || sign == "-"
    requires ds != [] && AllDigits(ds)
    requires IntMin <= SignedValue(sign == "-", ds) <= IntMax
    ensures ParseInt(sign + ds) == Some(SignedValue(sign == "-", ds))
  {
    if sign == "" {
      assert sign + ds == ds;
    } else {
      assert (sign + ds)[1..] == ds;
    }
  }

  /**
   * Every successful parse comes from such a text: an optional sign, then
   * one or more digits, and the result is their signed value.
   */
  lemma ParseSound(s: string)
    requires ParseInt(s).Some?
    ensures exists n ::
              && 0 <= n <= 1 && n <= |s|
              && (s[..n] == "" || s[..n] == "+" || s[..n] == "-")
              && s[n..] != [] && AllDigits(s[n..])
              && ParseInt(s).value == SignedValue(s[..n] == "-", s[n..])
  {
    var n := if s[0] == '+' || s[0] == '-' then 1 else 0;
    assert s[..n] == "" || s[..n] == "+" || s[..n] == "-";
    assert (s[..n] == "-") == (n == 1 && s[0] == '-');
  }

  /** The amounts typed in the examples: "50" and "75" parse, "abc" does not. */
  lemma ParseExamples()
    ensures ParseInt("50") == Some(50)
    ensures ParseInt("75") == Some(75)
    ensures ParseInt("abc") == None
  {
    assert "50"[..1] == "5" && DigitsValue("50") == 50;
    assert "75"[..1] == "7" && DigitsValue("75") == 75;
    ParseAccepts("", "50");
    ParseAccepts("", "75");
    assert "" + "50" == "50" && "" + "75" == "75";
  }

  /** An amount field holding only a sign, or no text at all, is rejected. */
  lemma ParseRejectsBare(s: string)
    requires s == "" || s == "+" || s == "-"
    ensures ParseInt(s) == None
  {
  }

  /** A character other than a digit after the first position makes the parse fail. */
  lemma ParseRejectsNonDigit(s: string, i: int)
    requires 0 < i < |s| && !IsDigit(s[i])
    ensures ParseInt(s) == None
  {
  }
}
