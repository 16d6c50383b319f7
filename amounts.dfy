/**
 * Exact amounts (types/types.go, type Amount): a big.Rat, modelled as a
 * fraction kept in lowest terms with a positive denominator, read as the
 * real number num/den. Addition is exact; String prints two decimals;
 * the JSON form is the quoted "num/den" text.
 */
module Amounts {
  import opened Wrappers
  import opened Decimal

  datatype Fraction = Fraction(num: int, den: int)

  /** A rational number as big.Rat stores it: the denominator is positive. */
  type Rat = q: Fraction | q.den > 0 witness Fraction(0, 1)

  const Zero: Rat := Fraction(0, 1)

  /** The exact value an amount stands for. */
  function Value(q: Rat): real
  {
    q.num as real / q.den as real
  }

  function Abs(n: int): nat { if n < 0 then -n else n }

  /** Euclid's algorithm on natural numbers. */
  function Gcd(a: nat, b: nat): nat
    decreases b
  {
    if b == 0 then a else Gcd(b, a % b)
  }

  lemma Combine(a: int, b: int, g: int, k: int, m: int, x: int, y: int)
    requires a == k * b + m && b == g * x && m == g * y
    ensures a == g * (k * x + y)
  {
    assert k * b == k * (g * x);
    assert k * (g * x) == g * (k * x);
  }

  /** Gcd divides both arguments; the quotients are returned. */
  lemma {:induction false} GcdDivides(a: nat, b: nat) returns (x: nat, y: nat)
    ensures a == Gcd(a, b) * x && b == Gcd(a, b) * y
    decreases b
  {
    if b == 0 {
      x, y := 1, 0;
    } else {
      var x', y' := GcdDivides(b, a % b);
      var k: nat := a / b;
      Combine(a, b, Gcd(a, b), k, a % b, x', y');
      x, y := k * x' + y', x';
    }
  }

  lemma GcdPositive(a: nat, b: nat)
    requires b > 0
    ensures Gcd(a, b) > 0
  {
    var x, y := GcdDivides(a, b);
  }

  lemma MulSign(g: int, k: int)
    requires g > 0
    ensures k >= 1 ==> g * k >= g
    ensures k <= -1 ==> g * k <= -g
  {
  }

  lemma DivideExactly(n: int, g: int, x: int)
    requires g > 0 && n == g * x
    ensures n / g == x
  {
    var q, r := n / g, n % g;
    assert n == g * q + r;
    assert g * (x - q) == r;
    MulSign(g, x - q);
  }

  /** The gcd of a fraction's parts divides both exactly. */
  lemma NormalizeFacts(n: int, d: int)
    requires d > 0
    ensures Gcd(Abs(n), d) > 0
    ensures n == Gcd(Abs(n), d) * (n / Gcd(Abs(n), d))
    ensures d == Gcd(Abs(n), d) * (d / Gcd(Abs(n), d))
    ensures d / Gcd(Abs(n), d) > 0
  {
    var g := Gcd(Abs(n), d);
    GcdPositive(Abs(n), d);
    var x, y := GcdDivides(Abs(n), d);
    var sx: int := if n < 0 then -(x as int) else x;
    assert n == g * sx;
    DivideExactly(n, g, sx);
    DivideExactly(d, g, y);
  }

  /** A fraction in lowest terms: numerator and denominator have no common factor but 1. */
  predicate Lowest(q: Rat)
  {
    Gcd(Abs(q.num), q.den) == 1
  }

  lemma MulMod(c: int, x: int)
    requires c > 0
    ensures (c * x) % c == 0
  {
    DivideExactly(c * x, c, x);
  }

  /** Every common divisor of a and b divides Gcd(a, b). */
  lemma {:induction false} GcdGreatest(a: nat, b: nat, c: int, x: int, y: int)
    requires c > 0 && a == c * x && b == c * y
    ensures Gcd(a, b) % c == 0
    decreases b
  {
    if b == 0 {
      MulMod(c, x);
    } else {
      var k := a / b;
      var m := a % b;
      assert m == a - k * b;
      assert k * b == c * (k * y);
      assert m == c * (x - k * y);
      GcdGreatest(b, m, c, y, x - k * y);
    }
  }

  /** A positive g that is a multiple of a product p = g * h, for a positive h, forces h == 1. */
  lemma MultipleOfProduct(g: int, h: int, p: int)
    requires g > 0 && h > 0 && p == g * h && g % p == 0
    ensures h == 1
  {
    MulSign(g, h);
    var k := g / p;
    assert g == p * k;
    if k <= 0 {
      MulSign(p, k);
      assert false;
    }
    MulSign(p, k);
    assert g * (h - 1) == p - g;
    MulSign(g, h - 1);
  }

  /** Dividing both parts by their gcd leaves a fraction in lowest terms. */
  lemma {:induction false} Coprime(a: nat, d: nat)
    requires d > 0
    ensures Gcd(a, d) > 0
    ensures Gcd(a / Gcd(a, d), d / Gcd(a, d)) == 1
  {
    var g := Gcd(a, d);
    GcdPositive(a, d);
    var x, y := GcdDivides(a, d);
    DivideExactly(a, g, x);
    DivideExactly(d, g, y);
    assert y > 0;
    var h := Gcd(x, y);
    GcdPositive(x, y);
    var u, v := GcdDivides(x, y);
    var p := g * h;
    MulSign(g, h);
    Associate(g, h, u, p);
    Associate(g, h, v, p);
    GcdGreatest(a, d, p, u, v);
    MultipleOfProduct(g, h, p);
  }

  lemma Associate(g: int, h: int, u: int, p: int)
    requires p == g * h
    ensures g * (h * u) == p * u
  {
  }

  /** z.norm(): divide numerator and denominator by their gcd, which leaves them in lowest terms. */
  function Normalize(n: int, d: int): (q: Rat)
    requires d > 0
    ensures Value(q) == n as real / d as real
    ensures Lowest(q)
  {
    var g := Gcd(Abs(n), d);
    NormalizeFacts(n, d);
    ScaleValue(n / g, d / g, g);
    NormalizeLowest(n, d);
    Fraction(n / g, d / g)
  }

  lemma NormalizeLowest(n: int, d: int)
    requires d > 0
    ensures Gcd(Abs(n), d) > 0
    ensures Gcd(Abs(n / Gcd(Abs(n), d)), d / Gcd(Abs(n), d)) == 1
  {
    var g := Gcd(Abs(n), d);
    Coprime(Abs(n), d);
    var x, y := GcdDivides(Abs(n), d);
    DivideExactly(Abs(n), g, x);
    DivideExactly(n, g, if n < 0 then -(x as int) else x);
    assert Abs(n / g) == Abs(n) / g;
  }

  lemma ScaleValue(x: int, y: int, g: int)
    requires y > 0 && g > 0
    ensures (g * x) as real / (g * y) as real == x as real / y as real
  {
    var gr, xr, yr := g as real, x as real, y as real;
    assert (g * x) as real == gr * xr;
    assert (g * y) as real == gr * yr;
    assert (gr * xr) / (gr * yr) == xr / yr;
  }

  /** big.Rat.Add: the exact sum, in lowest terms. */
  function Plus(a: Rat, b: Rat): (r: Rat)
    ensures Value(r) == Value(a) + Value(b)
    ensures Lowest(r)
  {
    var n := a.num * b.den + b.num * a.den;
    var d := a.den * b.den;
    SumValue(a.num, a.den, b.num, b.den);
    Normalize(n, d)
  }

  lemma SumValue(an: int, ad: int, bn: int, bd: int)
    requires ad > 0 && bd > 0
    ensures (an * bd + bn * ad) as real / (ad * bd) as real == an as real / ad as real + bn as real / bd as real
  {
    var a, b, c, d := an as real, ad as real, bn as real, bd as real;
    assert (an * bd + bn * ad) as real == a * d + c * b;
    assert (ad * bd) as real == b * d;
    assert (a * d + c * b) / (b * d) == a / b + c / d;
  }

  /** Two digits, padded with a leading zero as FloatString pads the fraction. */
  function TwoDigits(n: nat): (s: string)
    requires n < 100
    ensures |s| == 2 && AllDigits(s) && DigitsValue(s) == n
  {
    var s := [DigitChar(n / 10), DigitChar(n % 10)];
    assert s[..1] == [DigitChar(n / 10)] && s[..1][..0] == [];
    assert DigitsValue(s[..1]) == n / 10;
    s
  }

  lemma MulCancel(f: int, c: int, b: int)
    requires b > 0
    ensures f * b < c * b ==> f < c
  {
    assert (f - c) * b == f * b - c * b;
    assert f >= c ==> (f - c) * b >= 0;
  }

  /** Two decimal digits of a proper remainder are below 100. */
  lemma RemainderDigits(rem: nat, b: nat)
    requires 0 <= rem < b
    ensures (rem * 100) / b < 100
  {
    var f := (rem * 100) / b;
    assert rem * 100 == f * b + (rem * 100) % b;
    assert rem * 100 < 100 * b;
    MulCancel(f, 100, b);
  }

  /**
   * The integer part and the two rounded fraction digits of a/b, as
   * FloatString(2) computes them for a non-integer: a rounding carry out of
   * the fraction moves into the integer part.
   */
  function RoundedParts(a: nat, b: nat): (p: (nat, nat))
    requires b > 0
    ensures p.1 < 100
  {
    var whole, rem := a / b, a % b;
    RemainderDigits(rem, b);
    var frac: nat, rest := (rem * 100) / b, (rem * 100) % b;
    if b <= 2 * rest then
      (if frac + 1 >= 100 then (whole + 1, 0) else (whole, frac + 1))
    else (whole, frac)
  }

  /** Amount.String, i.e. FloatString(2): sign, integer part, '.', two digits. */
  function String(q: Rat): string
  {
    if q.den == 1 then IntToString(q.num) + ".00"
    else
      var (w, f) := RoundedParts(Abs(q.num), q.den);
      (if q.num < 0 then "-" else "") + NatToString(w) + "." + TwoDigits(f)
  }

  /** The magnitude of an amount in hundredths, as String rounds it. */
  function Cents(q: Rat): nat
  {
    var (w, f) := RoundedParts(Abs(q.num), q.den);
    100 * w + f
  }

  /**
   * The display string is the sign, then the rounded magnitude in hundredths
   * written as units '.' two digits.
   */
  lemma StringIsCents(q: Rat)
    ensures String(q) == (if q.num < 0 then "-" else "") + NatToString(Cents(q) / 100) + "." + TwoDigits(Cents(q) % 100)
  {
    var a := Abs(q.num);
    var (w, f) := RoundedParts(a, q.den);
    assert Cents(q) / 100 == w && Cents(q) % 100 == f;
    if q.den == 1 {
      assert a / 1 == a && a % 1 == 0;
      assert (w, f) == (a, 0);
    }
  }

  /**
   * Cents is the nearest number of hundredths: the error |v|*100 - c lies in
   * [-1/2, 1/2), a half being rounded away from zero.
   */
  lemma CentsNearest(q: Rat)
    ensures -(q.den as int) <= 2 * (100 * Abs(q.num) - Cents(q) * q.den) < q.den
  {
    RoundedError(Abs(q.num), q.den);
  }

  /** The rounding error of RoundedParts, in units of 1/(200 b). */
  lemma RoundedError(a: nat, b: nat)
    requires b > 0
    ensures var p := RoundedParts(a, b); -(b as int) <= 2 * (100 * a - (100 * p.0 + p.1) * b) < b
  {
    var whole, rem := a / b, a % b;
    var frac, rest := (rem * 100) / b, (rem * 100) % b;
    Distribute(a, b, whole, rem, frac, rest);
  }

  lemma Distribute(a: int, b: int, whole: int, rem: int, frac: int, rest: int)
    requires a == whole * b + rem && rem * 100 == frac * b + rest
    ensures 100 * a - (100 * whole + frac) * b == rest
    ensures (100 * whole + frac + 1) * b == (100 * whole + frac) * b + b
  {
    assert (100 * whole + frac) * b == 100 * (whole * b) + frac * b;
  }

  /** big.Rat.RatString: "num" for an integer, otherwise "num/den". */
  function RatString(q: Rat): string
  {
    if q.den == 1 then IntToString(q.num) else IntToString(q.num) + "/" + NatToString(q.den)
  }

  /** Amount.MarshalJSON: the RatString text between double quotes. */
  function MarshalJSON(q: Rat): string
  {
    "\"" + RatString(q) + "\""
  }

  /** Characters that strconv.Unquote passes through a double-quoted literal unchanged. */
  predicate Plain(s: string)
  {
    forall i :: 0 <= i < |s| ==> s[i] != '"' && s[i] != '\\' && s[i] != '\n'
  }

  /** strconv.Unquote on a double-quoted literal without escape sequences. */
  function Unquote(s: string): (r: Option<string>)
    ensures r.Some? ==> "\"" + r.value + "\"" == s && Plain(r.value)
  {
    if |s| >= 2 && s[0] == '"' && s[|s| - 1] == '"' && Plain(s[1..|s| - 1]) then
      Some(s[1..|s| - 1])
    else None
  }

  /** The index of the first c in s, or |s| when there is none. */
  function IndexOf(s: string, c: char): (k: nat)
    ensures k <= |s|
    ensures forall i :: 0 <= i < k ==> s[i] != c
    ensures k < |s| ==> s[k] == c
  {
    if s == [] then 0 else if s[0] == c then 0 else 1 + IndexOf(s[1..], c)
  }

  /**
   * big.Rat.SetString for the forms "n" and "n/d": an optionally signed
   * decimal numerator, and a decimal denominator that is not zero. The
   * result is in lowest terms.
   */
  function ParseRat(s: string): (r: Option<Rat>)
    ensures r.Some? ==> |s| > 0
    ensures r.Some? ==> Lowest(r.value)
  {
    if s == [] then None
    else
      var sep := IndexOf(s, '/');
      if sep == |s| then
        match ParseInt(s)
        case None => None
        case Some(n) => Some(Fraction(n, 1))
      else
        match (ParseInt(s[..sep]), ParseNat(s[sep + 1..]))
        case (Some(n), Some(d)) => if d == 0 then None else Some(Normalize(n, d))
        case _ => None
  }

  datatype JsonError =
    | NotQuoted(text: string)     // "invalid price string %q: %s"
    | NotRational(text: string)   // "invalid price string %q"

  /** Amount.UnmarshalJSON as a function of the input: unquote, then parse. */
  function ParseJSON(s: string): (r: Result<Rat, JsonError>)
    ensures r.Err? && r.error.NotQuoted? <==> Unquote(s).None?
    ensures r.Ok? ==> Unquote(s).Some? && ParseRat(Unquote(s).value) == Some(r.value)
    ensures r.Err? && r.error.NotRational? ==> r.error.text == Unquote(s).value && ParseRat(r.error.text).None?
  {
    match Unquote(s)
    case None => Err(NotQuoted(s))
    case Some(str) =>
      match ParseRat(str)
      case None => Err(NotRational(str))
      case Some(q) => Ok(q)
  }

  lemma DecimalTextIsPlain(s: string)
    requires AllDigits(s)
    ensures forall i :: 0 <= i < |s| ==> s[i] != '/' && s[i] != '"' && s[i] != '\\' && s[i] != '\n'
  {
  }

  lemma IntToStringPlain(i: int)
    ensures forall k :: 0 <= k < |IntToString(i)| ==> IntToString(i)[k] != '/' && Plain([IntToString(i)[k]])
  {
    var s := IntToString(i);
    if i < 0 {
      DecimalTextIsPlain(NatToString(-i));
      assert forall k :: 1 <= k < |s| ==> s[k] == NatToString(-i)[k - 1];
    } else {
      DecimalTextIsPlain(NatToString(i));
    }
  }

  /** RatString reads back as the same value. */
  lemma {:induction false} ParseRatString(q: Rat)
    ensures ParseRat(RatString(q)).Some?
    ensures Value(ParseRat(RatString(q)).value) == Value(q)
  {
    var t := IntToString(q.num);
    IntToStringPlain(q.num);
    ParseIntOfIntToString(q.num);
    if q.den == 1 {
      assert IndexOf(t, '/') == |t|;
    } else {
      SplitAtSlash(t, NatToString(q.den));
    }
  }

  /** A text of plain characters between double quotes unquotes to itself. */
  lemma UnquoteOfQuote(t: string)
    requires Plain(t)
    ensures Unquote("\"" + t + "\"") == Some(t)
  {
    var s := "\"" + t + "\"";
    assert s[1..|s| - 1] == t;
  }

  /** UnmarshalJSON of a quoted plain text: the rational parser decides. */
  lemma ParseJSONOfQuote(t: string)
    requires Plain(t)
    ensures ParseRat(t).Some? ==> ParseJSON("\"" + t + "\"") == Ok(ParseRat(t).value)
    ensures ParseRat(t).None? ==> ParseJSON("\"" + t + "\"") == Err(NotRational(t))
  {
    UnquoteOfQuote(t);
  }

  /** A text that ParseInt accepts has no '/' and only plain characters. */
  lemma {:induction false} NumeralPlain(num: string)
    requires ParseInt(num).Some?
    ensures forall k :: 0 <= k < |num| ==> num[k] != '/' && Plain([num[k]])
  {
    var n: nat :| num == NatToString(n) || num == "+" + NatToString(n) || num == "-" + NatToString(n);
    var u := NatToString(n);
    DecimalTextIsPlain(u);
    if num != u {
      assert forall k :: 1 <= k < |num| ==> num[k] == u[k - 1];
    }
  }

  lemma SplitAtSlash(t: string, u: string)
    requires forall k :: 0 <= k < |t| ==> t[k] != '/'
    ensures IndexOf(t + "/" + u, '/') == |t|
    ensures (t + "/" + u)[..|t|] == t && (t + "/" + u)[|t| + 1..] == u
  {
    var s := t + "/" + u;
    assert s[|t|] == '/';
    assert forall i :: 0 <= i < |t| ==> s[i] == t[i];
    assert s[..|t|] == t;
    assert s[|t| + 1..] == u;
  }

  /** Every integer text ParseInt accepts ("7", "+7", "-7") is a rational n/1. */
  lemma ParseRatInteger(num: string)
    requires ParseInt(num).Some?
    ensures ParseRat(num) == Some(Fraction(ParseInt(num).value, 1))
  {
    NumeralPlain(num);
    assert IndexOf(num, '/') == |num|;
  }

  /**
   * "n/d" with an accepted numerator and denominator: refused when d is
   * zero, otherwise the fraction n/d in lowest terms.
   */
  lemma ParseRatFraction(num: string, den: string)
    requires ParseInt(num).Some? && ParseNat(den).Some?
    ensures ParseNat(den).value == 0 ==> ParseRat(num + "/" + den).None?
    ensures ParseNat(den).value > 0 ==>
      ParseRat(num + "/" + den) == Some(Normalize(ParseInt(num).value, ParseNat(den).value)) &&
      Value(ParseRat(num + "/" + den).value) == ParseInt(num).value as real / ParseNat(den).value as real
  {
    NumeralPlain(num);
    SplitAtSlash(num, den);
  }

  /** A fraction already in lowest terms is left as it is by Normalize. */
  lemma NormalizeOfLowest(q: Rat)
    requires Lowest(q)
    ensures Normalize(q.num, q.den) == q
  {
  }

  /**
   * UnmarshalJSON(MarshalJSON(x)) gives back an amount equal to x in value,
   * and x itself when x is in lowest terms, as the results of Plus and
   * ParseRat are.
   */
  lemma {:induction false} JSONRoundTrip(q: Rat)
    ensures ParseJSON(MarshalJSON(q)).Ok?
    ensures Value(ParseJSON(MarshalJSON(q)).value) == Value(q)
    ensures Lowest(q) ==> ParseJSON(MarshalJSON(q)) == Ok(q)
  {
    var t := RatString(q);
    var s := MarshalJSON(q);
    assert s[1..|s| - 1] == t;
    RatStringPlain(q);
    ParseRatString(q);
    if Lowest(q) && q.den != 1 {
      ParseIntOfIntToString(q.num);
      ParseRatFraction(IntToString(q.num), NatToString(q.den));
      NormalizeOfLowest(q);
    }
  }

  lemma RatStringPlain(q: Rat)
    ensures Plain(RatString(q))
  {
    var t := RatString(q);
    IntToStringPlain(q.num);
    if q.den != 1 {
      var u := IntToString(q.num);
      DecimalTextIsPlain(NatToString(q.den));
      assert forall i :: 0 <= i < |t| ==> (i < |u| && t[i] == u[i]) || t[i] == '/' || (i > |u| && t[i] == NatToString(q.den)[i - |u| - 1]);
    }
  }

  lemma Text367()
    ensures NatToString(367) == "367" && NatToString(100) == "100"
  {
    assert NatToString(3) == "3";
    assert NatToString(36) == "36";
    assert NatToString(1) == "1";
    assert NatToString(10) == "10";
  }

  /** The JSON text "367/100" reads as the fraction 367/100. */
  lemma ParseJSONExample()
    ensures ParseJSON("\"367/100\"") == Ok(Fraction(367, 100))
  {
    var s := "\"367/100\"";
    var t := "367/100";
    assert s[1..|s| - 1] == t;
    assert Unquote(s) == Some(t);
    ParseRatExample();
  }

  lemma ParseRatExample()
    ensures ParseRat("367/100") == Some(Fraction(367, 100))
  {
    SplitExample();
    NumberTexts();
    NormalizeExample();
  }

  lemma SplitExample()
    ensures IndexOf("367/100", '/') == 3
    ensures "367/100"[..3] == "367" && "367/100"[4..] == "100"
  {
    assert IndexOf("100", '/') == 3;
  }

  lemma NormalizeExample()
    ensures Normalize(367, 100) == Fraction(367, 100)
  {
    assert Gcd(367, 100) == 1;
  }

  lemma NumberTexts()
    ensures ParseInt("367") == Some(367) && ParseNat("100") == Some(100)
  {
    Text367();
    assert SplitSign("367") == (false, "367");
  }

  lemma SmallTexts()
    ensures NatToString(1) == "1" && NatToString(2) == "2" && NatToString(3) == "3"
    ensures NatToString(4) == "4" && NatToString(5) == "5" && NatToString(10) == "10"
  {
    assert NatToString(1) == "1";
  }

  lemma SmallNumerals()
    ensures ParseInt("10") == Some(10) && ParseInt("-3") == Some(-3) && ParseInt("+5") == Some(5)
    ensures ParseNat("4") == Some(4) && ParseNat("2") == Some(2)
  {
    SmallTexts();
    assert "-3" == "-" + NatToString(3);
    assert "+5" == "+" + NatToString(5);
  }

  lemma UnreducedText()
    ensures ParseRat("10" + "/" + "4") == Some(Normalize(10, 4))
  {
    SmallNumerals();
    ParseRatFraction("10", "4");
  }

  /** gcd(10, 4) = 2, so 10/4 becomes 5/2. */
  lemma NormalizeUnreduced()
    ensures Normalize(10, 4) == Fraction(5, 2)
  {
    assert Gcd(10, 4) == 2;
  }

  /** "10/4", which MarshalJSON never writes, is read and brought to lowest terms. */
  lemma ParseRatUnreduced()
    ensures ParseRat("10/4") == Some(Fraction(5, 2))
  {
    UnreducedText();
    NormalizeUnreduced();
    assert "10" + "/" + "4" == "10/4";
  }

  lemma PlusSignText()
    ensures ParseRat("+5" + "/" + "2") == Some(Fraction(5, 2))
  {
    SmallNumerals();
    ParseRatFraction("+5", "2");
    assert Gcd(5, 2) == 1;
    NormalizeOfLowest(Fraction(5, 2));
  }

  /** A numerator with a '+' sign, "+5/2", is accepted. */
  lemma ParseRatPlusSign()
    ensures ParseRat("+5/2") == Some(Fraction(5, 2))
  {
    PlusSignText();
    assert "+5" + "/" + "2" == "+5/2";
  }

  lemma ParseRatNegative()
    ensures ParseRat("-3") == Some(Fraction(-3, 1))
  {
    SmallNumerals();
    ParseRatInteger("-3");
  }

  lemma UnquoteForms()
    ensures Unquote("\"10/4\"") == Some("10/4")
    ensures Unquote("\"-3\"") == Some("-3")
    ensures Unquote("\"+5/2\"") == Some("+5/2")
  {
    var s, t, u := "\"10/4\"", "\"-3\"", "\"+5/2\"";
    assert s[1..|s| - 1] == "10/4";
    assert t[1..|t| - 1] == "-3";
    assert u[1..|u| - 1] == "+5/2";
  }

  /**
   * UnmarshalJSON accepts texts MarshalJSON never writes: a fraction not in
   * lowest terms, which it reduces, and a signed numerator.
   */
  lemma ParseJSONForms()
    ensures ParseJSON("\"10/4\"") == Ok(Fraction(5, 2))
    ensures ParseJSON("\"-3\"") == Ok(Fraction(-3, 1))
    ensures ParseJSON("\"+5/2\"") == Ok(Fraction(5, 2))
  {
    UnquoteForms();
    ParseRatUnreduced();
    ParseRatNegative();
    ParseRatPlusSign();
  }

  /** 367/100 is written back as "367/100" and displayed as "3.67". */
  lemma ShowExample()
    ensures MarshalJSON(Fraction(367, 100)) == "\"367/100\""
    ensures String(Fraction(367, 100)) == "3.67"
  {
    Text367();
    assert RoundedParts(367, 100) == (3, 67);
    assert NatToString(3) == "3";
    assert TwoDigits(67) == "67";
  }

  /**
   * An amount that the source updates in place: Add and SetRat change the
   * receiver and return it, UnmarshalJSON overwrites it.
   */
  class Amount {
    var rat: Rat

    /** new(Amount): the zero value. */
    constructor ()
      ensures rat == Zero
    {
      rat := Zero;
    }

    /**
     * x.Add(y): x becomes the exact sum and is returned. y is passed by its
     * value, which is all Add reads of it, so y is not changed.
     */
    method Add(y: Rat) returns (r: Amount)
      modifies this
      ensures r == this
      ensures rat == Plus(old(rat), y)
      ensures Value(rat) == Value(old(rat)) + Value(y)
    {
      rat := Plus(rat, y);
      r := this;
    }

    /** SetRat copies a value into the receiver. */
    method SetRat(q: Rat) returns (r: Amount)
      modifies this
      ensures r == this && rat == q
    {
      rat := q;
      r := this;
    }

    /**
     * UnmarshalJSON: on success the receiver holds the parsed value; on
     * failure an error is returned. A text that does not unquote is refused
     * before SetString runs, so the receiver is untouched (big.Rat leaves
     * the value undefined when the text is not a rational).
     */
    method UnmarshalJSON(s: string) returns (err: Option<JsonError>)
      modifies this
      ensures err.None? <==> ParseJSON(s).Ok?
      ensures err.None? ==> rat == ParseJSON(s).value
      ensures err.Some? ==> err.value == ParseJSON(s).error
      ensures err.Some? && err.value.NotQuoted? ==> rat == old(rat)
    {
      match ParseJSON(s)
      case Ok(q) => rat := q; err := None;
      case Err(e) => err := Some(e);
    }
  }
}
