/**
 * Decimal text of numbers, as a JavaScript template literal prints an
 * integral number (`${n}`), and the inverse reading of such text.
 */
module Text {
  import opened Wrappers

  predicate IsDigit(c: char) {
    '0' <= c <= '9'
  }

  predicate AllDigits(s: string) {
    forall i :: 0 <= i < |s| ==> IsDigit(s[i])
  }

  function DigitChar(d: nat): (c: char)
    requires d < 10
    ensures IsDigit(c) && c as int - '0' as int == d
  {
    ('0' as int + d) as char
  }

  /** The decimal digits of `n`, most significant first, without leading zeros. */
  function NatToString(n: nat): (s: string)
    ensures s != [] && AllDigits(s)
    ensures s[0] == '0' ==> n == 0
  {
    if n < 10 then [DigitChar(n)] else NatToString(n / 10) + [DigitChar(n % 10)]
  }

  /** The number a string of decimal digits denotes. */
  function DigitsValue(s: string): nat
    requires AllDigits(s)
  {
    if s == [] then 0 else 10 * DigitsValue(s[..|s| - 1]) + (s[|s| - 1] as int - '0' as int)
  }

  /** Reading back the decimal text of a number gives the number. */
  lemma {:induction false} DigitsValueOfNatToString(n: nat)
    ensures DigitsValue(NatToString(n)) == n
  {
    if n >= 10 {
      var s := NatToString(n);
      assert s[..|s| - 1] == NatToString(n / 10);
      DigitsValueOfNatToString(n / 10);
    }
  }

  /** Decimal text of a JavaScript integral number, with a minus sign when negative. */
  function IntToString(i: int): string
  {
    if i < 0 then "-" + NatToString(-i) else NatToString(i)
  }

  /** The position of the first '-' in `s` at or after `from`, or |s| when there is none. */
  function DashFrom(s: string, from: nat): (r: nat)
    requires from <= |s|
    ensures from <= r <= |s|
    ensures r < |s| ==> s[r] == '-'
    ensures forall p :: from <= p < r ==> s[p] != '-'
    decreases |s| - from
  {
    if from == |s| then |s| else if s[from] == '-' then from else DashFrom(s, from + 1)
  }

  /** The integer a string of an optional minus sign and one or more decimal digits denotes. */
  function ParseInt(s: string): (r: Option<int>)
    ensures r.Some? ==> s != []
  {
    if s != [] && s[0] == '-' then
      if |s| > 1 && AllDigits(s[1..]) then Some(0 - DigitsValue(s[1..]) as int) else None
    else if s != [] && AllDigits(s) then Some(DigitsValue(s) as int)
    else None
  }

  /** Reading back the text of an integer gives the integer, negative ones included. */
  lemma IntToStringRoundTrip(i: int)
    ensures ParseInt(IntToString(i)) == Some(i)
  {
    if i < 0 {
      var t := NatToString(-i);
      assert ("-" + t)[1..] == t;
      DigitsValueOfNatToString(-i);
    } else {
      DigitsValueOfNatToString(i);
    }
  }

  /**
   * The integer written at the start of `s`, up to the first '-' that is not
   * its own sign.
   */
  function LeadingInt(s: string): Option<int> {
    var start := if s != [] && s[0] == '-' then 1 else 0;
    ParseInt(s[..DashFrom(s, start)])
  }

  lemma {:induction false} DashFromReaches(s: string, from: nat, e: nat)
    requires from <= e < |s| && s[e] == '-'
    requires forall p :: from <= p < e ==> s[p] != '-'
    ensures DashFrom(s, from) == e
    decreases e - from
  {
    if from < e {
      DashFromReaches(s, from + 1, e);
    }
  }

  /**
   * The text of an integer followed by '-' and anything else still reads back
   * as that integer: the separator after it cannot be mistaken for a digit.
   */
  lemma LeadingIntOfIntToString(i: int, rest: string)
    requires rest != [] && rest[0] == '-'
    ensures LeadingInt(IntToString(i) + rest) == Some(i)
  {
    var t := IntToString(i);
    var s := t + rest;
    var digits := NatToString(if i < 0 then -i else i);
    var start := if i < 0 then 1 else 0;
    assert t[start..] == digits;
    assert s[0] == t[0];
    assert start == if s != [] && s[0] == '-' then 1 else 0 by {
      assert IsDigit(digits[0]);
    }
    forall p | start <= p < |t| ensures s[p] != '-' {
      assert s[p] == digits[p - start];
      assert IsDigit(digits[p - start]);
    }
    DashFromReaches(s, start, |t|);
    assert s[..|t|] == t;
    IntToStringRoundTrip(i);
  }
}
