/**
 * Decimal text of arbitrary-precision integers: the `Display` of `BigInt`
 * and `str::parse::<BigInt>` (num-bigint's `from_str_radix` with radix 10).
 */
module Numerals {
  import opened Errors

  predicate IsDigit(c: char) {
    '0' <= c <= '9'
  }

  function DigitChar(d: nat): (c: char)
    requires d < 10
    ensures IsDigit(c) && c as int - '0' as int == d
  {
    ('0' as int + d) as char
  }

  /** Decimal digits of `n`, most significant first, without leading zeros. */
  function NatToString(n: nat): (s: string)
    ensures |s| > 0 && forall k :: 0 <= k < |s| ==> IsDigit(s[k])
    ensures s[0] != '0' || n == 0
  {
    if n < 10 then [DigitChar(n)] else NatToString(n / 10) + [DigitChar(n % 10)]
  }

  /** `format!("{}", i)` for a `BigInt`. */
  function IntToString(i: int): (s: string)
    ensures |s| > 0 && (s[0] == '-' <==> i < 0)
  {
    if i < 0 then "-" + NatToString(-i) else NatToString(i)
  }

  /** The value of a run of digits and `_` separators (separators are skipped). */
  function DigitsValue(s: string): nat
    requires forall k :: 0 <= k < |s| ==> IsDigit(s[k]) || s[k] == '_'
  {
    if s == [] then 0
    else if s[|s| - 1] == '_' then DigitsValue(s[..|s| - 1])
    else DigitsValue(s[..|s| - 1]) * 10 + DigitValue(s[|s| - 1])
  }

  function DigitValue(c: char): (d: nat)
    requires IsDigit(c)
    ensures d < 10
  {
    c as int - '0' as int
  }

  /** `BigUint::from_str_radix(s, 10)`: one optional `+`, then digits and `_`, not starting with `_`. */
  function ParseBigUint(s: string): Option<nat> {
    if |s| > 0 && s[0] == '+' && !(|s| > 1 && s[1] == '+') then ParseDigits(s[1..]) else ParseDigits(s)
  }

  /** The digits and `_` separators of an unsigned number, which may not start with `_`. */
  function ParseDigits(body: string): Option<nat> {
    if body == [] || body[0] == '_' then None
    else if forall k :: 0 <= k < |body| ==> IsDigit(body[k]) || body[k] == '_' then Some(DigitsValue(body))
    else None
  }

  /** `s.parse::<BigInt>()`: an optional `-` (not followed by `+`), then an unsigned number. */
  function ParseBigInt(s: string): Option<int> {
    if |s| > 0 && s[0] == '-' then
      var tail := if |s| > 1 && s[1] == '+' then s else s[1..];
      match ParseBigUint(tail)
      case Some(m) => Some(0 - m)
      case None => None
    else
      match ParseBigUint(s)
      case Some(m) => Some(m)
      case None => None
  }

  lemma {:induction false} DigitsOfNat(n: nat)
    ensures DigitsValue(NatToString(n)) == n
  {
    var s := NatToString(n);
    if n >= 10 {
      DigitsOfNat(n / 10);
      assert s[..|s| - 1] == NatToString(n / 10);
    }
  }

  /** The digits of a natural number parse back as that number. */
  lemma NatTextRoundTrip(n: nat)
    ensures ParseBigUint(NatToString(n)) == Some(n)
  {
    var s := NatToString(n);
    DigitsOfNat(n);
    assert IsDigit(s[0]) && s[0] != '+' && s[0] != '_';
    assert ParseDigits(s) == Some(DigitsValue(s));
  }

  /** Printing an integer and parsing the text back gives the integer. */
  lemma IntTextRoundTrip(i: int)
    ensures ParseBigInt(IntToString(i)) == Some(i)
  {
    var s := IntToString(i);
    if i < 0 {
      var digits := NatToString(-i);
      assert s[0] == '-' && s[1..] == digits && s[1] == digits[0];
      NatTextRoundTrip(-i);
    } else {
      assert s[0] != '-';
      NatTextRoundTrip(i);
    }
  }

  /** `ParseBigUint` reads its text from an offset past any signs: a bad character before it is kept. */
  lemma UnsignedRejects(s: string, k: nat)
    requires k < |s| && !IsDigit(s[k]) && s[k] != '_' && s[k] != '+'
    ensures ParseBigUint(s) == None
  {
    if |s| > 0 && s[0] == '+' && !(|s| > 1 && s[1] == '+') {
      assert s[1..][k - 1] == s[k];
    }
  }

  /** A character other than a digit, `_` or a sign makes a text no integer. */
  lemma NotAnInteger(s: string, k: nat)
    requires k < |s| && !IsDigit(s[k]) && s[k] != '_' && s[k] != '+' && s[k] != '-'
    ensures ParseBigInt(s) == None
  {
    if |s| > 0 && s[0] == '-' {
      var tail := if |s| > 1 && s[1] == '+' then s else s[1..];
      UnsignedRejects(tail, k - (|s| - |tail|));
    } else {
      UnsignedRejects(s, k);
    }
  }

  /** The text of forty-two, the answer `meaning-of-life?` gives. */
  lemma FortyTwoText()
    ensures IntToString(42) == "42"
  {
    assert NatToString(42) == NatToString(4) + [DigitChar(2)];
    assert NatToString(4) == "4" && DigitChar(2) == '2';
  }
}
