/**
 * Decimal text of integers: the digit strings that big.Rat and strconv
 * print and parse. Only plain decimal notation is modelled.
 */
module Decimal {
  import opened Wrappers

  predicate IsDigit(c: char) { '0' <= c <= '9' }

  function DigitValue(c: char): (d: nat)
    requires IsDigit(c)
    ensures d < 10
  {
    (c as int - '0' as int) as nat
  }

  function DigitChar(d: nat): (c: char)
    requires d < 10
    ensures IsDigit(c) && DigitValue(c) == d
  {
    (d + '0' as int) as char
  }

  predicate AllDigits(s: string) { forall i :: 0 <= i < |s| ==> IsDigit(s[i]) }

  /** The number a string of decimal digits denotes, most significant digit first. */
  function DigitsValue(s: string): nat
    requires AllDigits(s)
  {
    if s == [] then 0 else DigitsValue(s[..|s| - 1]) * 10 + DigitValue(s[|s| - 1])
  }

  /** A digit string without superfluous leading zeros. */
  predicate Canonical(s: string)
  {
    |s| > 0 && AllDigits(s) && (s[0] == '0' ==> |s| == 1)
  }

  /** Decimal text of a natural number, as big.Int and strconv print it. */
  function NatToString(n: nat): (s: string)
    ensures Canonical(s)
    ensures DigitsValue(s) == n
  {
    if n < 10 then [DigitChar(n)]
    else
      var prefix := NatToString(n / 10);
      var s := prefix + [DigitChar(n % 10)];
      assert s[..|s| - 1] == prefix;
      s
  }

  /** Decimal text of an integer: a minus sign for negative values. */
  function IntToString(i: int): (s: string)
    ensures |s| > 0
  {
    if i < 0 then "-" + NatToString(-i) else NatToString(i)
  }

  /** Splits an optional leading sign off: (negative?, rest). */
  function SplitSign(s: string): (bool, string)
  {
    if |s| > 0 && (s[0] == '-' || s[0] == '+') then (s[0] == '-', s[1..]) else (false, s)
  }

  /** A digit string that starts with a non-zero digit denotes a positive number. */
  lemma {:induction false} LeadingDigitPositive(s: string)
    requires |s| > 0 && AllDigits(s) && s[0] != '0'
    ensures DigitsValue(s) > 0
    decreases |s|
  {
    if |s| > 1 {
      LeadingDigitPositive(s[..|s| - 1]);
    }
  }

  lemma DigitRoundTrip(c: char)
    requires IsDigit(c)
    ensures DigitChar(DigitValue(c)) == c
  {
  }

  /** A canonical digit string is the decimal text of its own value. */
  lemma {:induction false} CanonicalIsText(s: string)
    requires Canonical(s)
    ensures NatToString(DigitsValue(s)) == s
    decreases |s|
  {
    var n := DigitsValue(s);
    if |s| == 1 {
      assert s[..0] == [];
      DigitRoundTrip(s[0]);
      assert s == [s[0]];
    } else {
      var init := s[..|s| - 1];
      assert init[0] == s[0];
      LeadingDigitPositive(init);
      CanonicalIsText(init);
      assert n / 10 == DigitsValue(init) && n % 10 == DigitValue(s[|s| - 1]);
      DigitRoundTrip(s[|s| - 1]);
      assert s == init + [s[|s| - 1]];
    }
  }

  /** Decimal text starts with a digit, so no sign can be split off it. */
  lemma SignOfText(n: nat)
    ensures SplitSign(NatToString(n)) == (false, NatToString(n))
    ensures SplitSign("+" + NatToString(n)) == (false, NatToString(n))
    ensures SplitSign("-" + NatToString(n)) == (true, NatToString(n))
  {
    var t := NatToString(n);
    assert IsDigit(t[0]);
    assert ("+" + t)[1..] == t && ("-" + t)[1..] == t;
  }

  /** A natural number in canonical decimal notation: exactly the texts NatToString prints. */
  function ParseNat(s: string): (r: Option<nat>)
    ensures r.Some? ==> s == NatToString(r.value)
    ensures forall n: nat :: s == NatToString(n) ==> r == Some(n)
  {
    if Canonical(s) then
      CanonicalIsText(s);
      Some(DigitsValue(s))
    else None
  }

  /**
   * An integer in canonical decimal notation, after an optional sign: the
   * decimal text of a natural number, alone or after "+" or "-".
   */
  function ParseInt(s: string): (r: Option<int>)
    ensures r.Some? ==> exists n: nat :: s == NatToString(n) || s == "+" + NatToString(n) || s == "-" + NatToString(n)
    ensures forall n: nat :: s == NatToString(n) || s == "+" + NatToString(n) ==> r == Some(n)
    ensures forall n: nat :: s == "-" + NatToString(n) ==> r == Some(-(n as int))
  {
    var (neg, digits) := SplitSign(s);
    assert forall n: nat :: s == NatToString(n) || s == "+" + NatToString(n) || s == "-" + NatToString(n) ==>
      digits == NatToString(n) && (neg <==> s == "-" + NatToString(n)) by {
      forall n: nat | s == NatToString(n) || s == "+" + NatToString(n) || s == "-" + NatToString(n)
        ensures digits == NatToString(n) && (neg <==> s == "-" + NatToString(n))
      {
        SignOfText(n);
      }
    }
    match ParseNat(digits)
    case None => None
    case Some(n) =>
      assert |s| > 0 && (s[0] == '-' || s[0] == '+') ==> s == [s[0]] + digits;
      assert !(|s| > 0 && (s[0] == '-' || s[0] == '+')) ==> s == digits;
      Some(if neg then -(n as int) else n)
  }

  lemma {:induction false} ParseIntOfIntToString(i: int)
    ensures ParseInt(IntToString(i)) == Some(i)
  {
    var s := IntToString(i);
    if i < 0 {
      assert s[0] == '-' && s[1..] == NatToString(-i);
    } else {
      var t := NatToString(i);
      assert IsDigit(t[0]);
      assert SplitSign(s) == (false, t);
    }
  }

  const MinInt64: int := -0x8000_0000_0000_0000
  const MaxInt64: int := 0x7fff_ffff_ffff_ffff

  /**
   * strconv.Atoi on a 64-bit platform: an optional sign, at least one decimal
   * digit (leading zeros allowed), and a value that fits in 64 bits.
   */
  function Atoi(s: string): (r: Option<int>)
    ensures r.Some? ==> MinInt64 <= r.value <= MaxInt64
  {
    var (neg, digits) := SplitSign(s);
    if |digits| == 0 || !AllDigits(digits) then None
    else
      var n: int := if neg then -(DigitsValue(digits) as int) else DigitsValue(digits);
      if MinInt64 <= n <= MaxInt64 then Some(n) else None
  }

  /** Atoi accepts every canonical integer text that fits in 64 bits, with the same value. */
  lemma AtoiOfCanonical(s: string)
    requires ParseInt(s).Some? && MinInt64 <= ParseInt(s).value <= MaxInt64
    ensures Atoi(s) == ParseInt(s)
  {
  }

  /** The decimal text of a 64-bit integer reads back through Atoi. */
  lemma AtoiOfIntToString(i: int)
    requires MinInt64 <= i <= MaxInt64
    ensures Atoi(IntToString(i)) == Some(i)
  {
    ParseIntOfIntToString(i);
    AtoiOfCanonical(IntToString(i));
  }

  /** Unlike the rational parser, Atoi takes leading zeros and a plus sign. */
  lemma AtoiLeadingZeros()
    ensures Atoi("+007") == Some(7) && ParseInt("+007").None?
  {
    assert SplitSign("+007") == (false, "007");
    assert DigitsValue("007") == 7 by {
      assert "007"[..2] == "00" && "00"[..1] == "0" && "0"[..0] == "";
    }
  }

  /** Text of an integer outside 64 bits is refused. */
  lemma AtoiOverflow(i: int)
    requires i < MinInt64 || MaxInt64 < i
    ensures Atoi(IntToString(i)).None?
  {
    var s := IntToString(i);
    if i < 0 {
      assert SplitSign(s) == (true, NatToString(-i));
    } else {
      var t := NatToString(i);
      assert IsDigit(t[0]);
      assert SplitSign(s) == (false, t);
    }
  }
}
