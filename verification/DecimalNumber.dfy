/** The fixed-point numbers that amounts are printed and read through: value * 10^exp, both exact.
    Only what core/assets uses of the decimal library: printing without an exponent, parsing, scaling. */
module DecimalNumber {
  import opened Wrappers
  import opened DecimalDigits

  datatype Decimal = Decimal(value: int, exp: int)

  const MIN_INT32 := -0x8000_0000
  const MAX_INT32 := 0x7FFF_FFFF

  function Abs(n: int): nat {
    if n < 0 then -n else n
  }

  /** Whether value * 10^exp is the integer n. */
  predicate Denotes(d: Decimal, n: int) {
    if d.exp >= 0 then n == d.value * Pow10(d.exp) else n * Pow10(-d.exp) == d.value
  }

  // ----- Printing -----

  function TrimZeros(s: string): (r: string)
    ensures |r| <= |s| && r == s[..|r|] && (r != "" ==> r[|r| - 1] != '0')
    ensures forall i | |r| <= i < |s| :: s[i] == '0'
  {
    if s != "" && s[|s| - 1] == '0' then TrimZeros(s[..|s| - 1]) else s
  }

  /** The digits before the point of n / 10^k. */
  function WholePart(n: nat, k: nat): string {
    if |Digits(n)| > k then Digits(n)[..|Digits(n)| - k] else "0"
  }

  /** The k digits behind the point of n / 10^k. */
  function FractionPart(n: nat, k: nat): string {
    if |Digits(n)| > k then Digits(n)[|Digits(n)| - k..] else Zeros(k - |Digits(n)|) + Digits(n)
  }

  function Unsigned(n: nat, k: nat): string {
    var fraction := TrimZeros(FractionPart(n, k));
    if fraction == "" then WholePart(n, k) else WholePart(n, k) + "." + fraction
  }

  function Sign(v: int): string {
    if v < 0 then "-" else ""
  }

  function ToString(d: Decimal): (s: string)
    ensures d.exp < 0 ==> s == FixedPoint(d.value, -d.exp)
  {
    if d.exp >= 0 then Itoa(Shifted(d.value, d.exp))
    else FixedPoint(d.value, -d.exp)
  }

  /** v * 10^k. */
  function Shifted(v: int, k: nat): int {
    if k == 0 then v else 10 * Shifted(v, k - 1)
  }

  function FixedPoint(v: int, k: nat): string {
    Sign(v) + Unsigned(Abs(v), k)
  }

  // ----- Parsing -----

  function IndexOf(s: string, c: char): (i: nat)
    ensures i <= |s|
    ensures forall j | 0 <= j < i :: s[j] != c
    ensures i < |s| ==> s[i] == c
  {
    if s == "" || s[0] == c then 0 else 1 + IndexOf(s[1..], c)
  }

  /** A mantissa with at most one point, and the exponent that was written behind it. */
  function ParseMantissa(s: string, exp: int): Option<Decimal> {
    var p := IndexOf(s, '.');
    var digits := if p == |s| then s else s[..p] + s[p + 1..];
    var scale := if p == |s| then exp else exp - (|s| - p - 1);
    if '.' in digits || !(MIN_INT32 <= scale <= MAX_INT32) then None else
    match ParseInteger(digits)
    case None => None
    case Some(v) => Some(Decimal(v, scale))
  }

  function FromString(s: string): Option<Decimal> {
    var e := Min(IndexOf(s, 'e'), IndexOf(s, 'E'));
    if e == |s| then ParseMantissa(s, 0) else
    match ParseInteger(s[e + 1..])
    case None => None
    case Some(exp) => if MIN_INT32 <= exp <= MAX_INT32 then ParseMantissa(s[..e], exp) else None
  }

  // ----- Integers among the decimals -----

  predicate IsInteger(d: Decimal) {
    d.exp >= 0 || Abs(d.value) % Pow10(-d.exp) == 0
  }

  /** The integer part: digits behind the point are dropped, whatever the sign. */
  function BigInt(d: Decimal): int {
    if d.exp >= 0 then d.value * Pow10(d.exp)
    else if d.value < 0 then -(Abs(d.value) / Pow10(-d.exp)) else d.value / Pow10(-d.exp)
  }

  function Scale(d: Decimal, k: nat): Decimal {
    Decimal(d.value, d.exp + k)
  }

  // ----- What is printed -----

  lemma DropFromEnd(s: string, c: char, k: nat)
    requires 0 < k <= |s|
    ensures (s + [c])[..|s| + 1 - k] == s[..|s| - (k - 1)]
  {
  }

  lemma {:induction false} DigitsWithoutLast(n: nat, k: nat)
    requires k < |Digits(n)|
    ensures Digits(n)[..|Digits(n)| - k] == Digits(Quotient(n, Pow10(k)))
  {
    if k == 0 {
      assert Quotient(n, 1) == n;
    } else {
      var m, p := n / 10, Pow10(k - 1);
      DivDiv(n, p);
      assert Digits(n) == Digits(m) + [CharOf(n % 10)] && k - 1 < |Digits(m)|;
      DigitsWithoutLast(m, k - 1);
      DropFromEnd(Digits(m), CharOf(n % 10), k);
    }
  }

  /** The digits before the point are those of the quotient, without leading zeros. */
  lemma WholeIsQuotient(n: nat, k: nat)
    ensures WholePart(n, k) == Digits(Quotient(n, Pow10(k)))
  {
    var s := Digits(n);
    if |s| > k {
      DigitsWithoutLast(n, k);
    } else {
      DigitsSize(n);
      Pow10Mono(|s|, k);
      DivUnique(n, Pow10(k), 0, n);
    }
  }

  /** The two parts are n split at 10^k. */
  lemma PartsOf(n: nat, k: nat)
    ensures AllDigits(WholePart(n, k)) && WholePart(n, k) != ""
    ensures |FractionPart(n, k)| == k && AllDigits(FractionPart(n, k))
    ensures Number(WholePart(n, k)) * Pow10(k) + Number(FractionPart(n, k)) == n
  {
    NumberOfDigits(n);
    if |Digits(n)| > k {
      SplitDigits(Digits(n), k);
    } else {
      PaddedDigits(Digits(n), k);
      NumberOfDigits(0);
    }
  }

  lemma SplitDigits(s: string, k: nat)
    requires AllDigits(s) && |s| > k
    ensures AllDigits(s[..|s| - k]) && AllDigits(s[|s| - k..])
    ensures Number(s[..|s| - k]) * Pow10(k) + Number(s[|s| - k..]) == Number(s)
  {
    assert s == s[..|s| - k] + s[|s| - k..];
    NumberAppend(s[..|s| - k], s[|s| - k..]);
  }

  lemma PaddedDigits(s: string, k: nat)
    requires AllDigits(s) && |s| <= k
    ensures AllDigits(Zeros(k - |s|) + s) && |Zeros(k - |s|) + s| == k && Number(Zeros(k - |s|) + s) == Number(s)
  {
    NumberZeros(k - |s|);
    NumberAppend(Zeros(k - |s|), s);
    ZeroTimes(Number(Zeros(k - |s|)), Pow10(|s|));
  }

  lemma ZeroTimes(z: nat, p: nat)
    requires z == 0
    ensures z * p == 0
  {
  }

  lemma {:induction false} NumberTrimmed(s: string)
    requires AllDigits(s)
    ensures AllDigits(TrimZeros(s))
    ensures Number(s) == Number(TrimZeros(s)) * Pow10(|s| - |TrimZeros(s)|)
  {
    if s == "" || s[|s| - 1] != '0' {
    } else {
      var t := s[..|s| - 1];
      NumberTrimmed(t);
      var z := |t| - |TrimZeros(t)|;
      MulAssoc(Number(TrimZeros(t)), Pow10(z), 10);
    }
  }

  // ----- Reading back what was printed -----

  lemma {:induction false} IndexInTail(a: string, c: char, b: string)
    requires c !in a && (b == "" || b[0] == c)
    ensures IndexOf(a + b, c) == |a|
  {
    if a == "" {
      assert a + b == b;
    } else {
      assert (a + b)[1..] == a[1..] + b;
      IndexInTail(a[1..], c, b);
    }
  }

  lemma Absent(s: string, c: char)
    requires c !in s
    ensures IndexOf(s, c) == |s|
  {
    assert s + "" == s;
    IndexInTail(s, c, "");
  }

  lemma ParseSigned(v: int, digits: string)
    requires AllDigits(digits) && digits != "" && Number(digits) == Abs(v)
    ensures ParseInteger(Sign(v) + digits) == Some(v)
  {
    if v < 0 {
      assert (Sign(v) + digits)[1..] == digits;
      assert !IsDigit((Sign(v) + digits)[0]);
    } else {
      assert Sign(v) + digits == digits;
    }
  }

  lemma ScaledUp(d: Decimal, k: nat, n: int, e: nat, p: nat)
    requires e == k + d.exp && p == Pow10(e) && d.value * p == n
    ensures Denotes(Scale(d, k), n)
  {
    assert Scale(d, k).exp == e;
  }

  /** Printing drops only zeros behind the point, so reading gives the same number, perhaps with a smaller scale. */
  lemma ReadPrinted(v: int, k: nat) returns (d: Decimal)
    requires k < MAX_INT32
    ensures FromString(ToString(Decimal(v, 0 - k))) == Some(d) && Denotes(Scale(d, k), v) && d.exp <= 0
  {
    PrintedForm(v, k);
    if k == 0 {
      d := Decimal(v, 0);
      ReadInteger(v);
      ScaledUp(d, 0, v, 0, 1);
    } else {
      d := ReadFixed(v, k);
    }
  }

  lemma TimesOne(v: int, z: nat)
    requires z == 0
    ensures v * Pow10(z) == v
  {
  }

  lemma PrintedForm(v: int, k: nat)
    ensures ToString(Decimal(v, 0 - k)) == if k == 0 then Itoa(v) else FixedPoint(v, k)
  {
    var d := Decimal(v, 0 - k);
    assert -d.exp == k;
  }

  lemma PositivePrinted(n: nat, k: nat, text: string)
    requires text == Unsigned(n, k)
    ensures FixedPoint(n, k) == text
  {
    assert Abs(n) == n;
    assert "" + text == text;
  }

  /** The value behind a mantissa of size m, with `places` of its digits behind the point. */
  lemma SignedValue(v: int, k: nat, m: nat, places: nat) returns (d: Decimal)
    requires places <= k && m * Pow10(k - places) == Abs(v)
    ensures d == Decimal(WithSign(v, m), 0 - places) && Abs(d.value) == m && Sign(d.value) == Sign(v)
    ensures Denotes(Scale(d, k), v)
  {
    var p := Pow10(k - places);
    NegatedTimes(m, p, v);
    d := Decimal(WithSign(v, m), 0 - places);
    ScaledUp(d, k, v, k - places, p);
  }

  lemma ReadFixed(v: int, k: nat) returns (d: Decimal)
    requires 0 < k < MAX_INT32
    ensures FromString(FixedPoint(v, k)) == Some(d) && Denotes(Scale(d, k), v) && d.exp <= 0
  {
    var whole, fraction := WholePart(Abs(v), k), TrimZeros(FractionPart(Abs(v), k));
    PrintedDigits(Abs(v), k, whole, fraction);
    d := SignedValue(v, k, Number(whole + fraction), |fraction|);
    if fraction == "" {
      assert whole + fraction == whole;
      ReadWhole(d, whole);
    } else {
      ReadPointed(d, whole, fraction);
    }
  }

  lemma ReadInteger(v: int)
    ensures FromString(Itoa(v)) == Some(Decimal(v, 0))
  {
    ParseItoa(v);
    Absent(Itoa(v), '.');
    Absent(Itoa(v), 'e');
    Absent(Itoa(v), 'E');
  }

  lemma Regroup(w: nat, f: nat, a: nat, b: nat, full: nat, n: nat)
    requires full == f * b && w * (a * b) + full == n
    ensures (w * a + f) * b == n
  {
    MulAssoc(w, a, b);
    MulAddRight(w * a, f, b);
  }

  lemma MulAddRight(a: int, b: int, m: int)
    ensures (a + b) * m == a * m + b * m
  {
  }

  /** The printed digits, with the point taken out, are n without the zeros that were trimmed. */
  lemma PrintedDigits(n: nat, k: nat, whole: string, fraction: string)
    requires whole == WholePart(n, k) && fraction == TrimZeros(FractionPart(n, k))
    ensures AllDigits(whole) && whole != "" && AllDigits(fraction) && |fraction| <= k && AllDigits(whole + fraction)
    ensures Number(whole + fraction) * Pow10(k - |fraction|) == n
  {
    var full := FractionPart(n, k);
    PartsOf(n, k);
    NumberTrimmed(full);
    NumberAppend(whole, fraction);
    Pow10Add(|fraction|, k - |fraction|);
    Regroup(Number(whole), Number(fraction), Pow10(|fraction|), Pow10(k - |fraction|), Number(full), n);
  }

  function WithSign(v: int, m: int): int {
    if v < 0 then -m else m
  }

  lemma NegatedTimes(m: nat, p: nat, v: int)
    requires m * p == Abs(v) && p > 0
    ensures WithSign(v, m) * p == v && Sign(WithSign(v, m)) == Sign(v)
  {
    MulAddRight(m, 0 - m, p);
  }

  lemma MantissaIs(s: string, p: nat, digits: string, v: int)
    requires IndexOf(s, '.') == p && '.' !in digits && ParseInteger(digits) == Some(v)
    requires digits == if p == |s| then s else s[..p] + s[p + 1..]
    requires |s| - p <= MAX_INT32
    ensures ParseMantissa(s, 0) == Some(Decimal(v, if p == |s| then 0 else 0 - (|s| - p - 1)))
  {
  }

  lemma NotWritten(s: string, c: char)
    requires AllDigits(s) && !IsDigit(c)
    ensures c !in s
  {
  }

  lemma ReadWhole(d: Decimal, whole: string)
    requires AllDigits(whole) && whole != "" && Number(whole) == Abs(d.value) && d.exp == 0
    ensures FromString(Sign(d.value) + whole) == Some(d)
  {
    var s := Sign(d.value) + whole;
    NotWritten(whole, '.');
    NotWritten(whole, 'e');
    NotWritten(whole, 'E');
    ParseSigned(d.value, whole);
    Absent(s, '.');
    MantissaIs(s, |s|, s, d.value);
    Absent(s, 'e');
    Absent(s, 'E');
  }

  lemma ReadPointed(d: Decimal, whole: string, fraction: string)
    requires AllDigits(whole) && whole != "" && AllDigits(fraction) && |fraction| < MAX_INT32
    requires AllDigits(whole + fraction) && Number(whole + fraction) == Abs(d.value) && d.exp == 0 - |fraction|
    ensures FromString(Sign(d.value) + (whole + "." + fraction)) == Some(d)
  {
    var s := Sign(d.value) + (whole + "." + fraction);
    var head := Sign(d.value) + whole;
    assert s == head + ("." + fraction);
    NotWritten(whole, 'e');
    NotWritten(whole, 'E');
    NotWritten(fraction, 'e');
    NotWritten(fraction, 'E');
    Absent(s, 'e');
    Absent(s, 'E');
    PointedMantissa(d, whole, fraction);
  }

  lemma CutAtPoint(sign: string, whole: string, fraction: string)
    ensures var p := |sign + whole|;
      var s := sign + whole + ("." + fraction);
      s[..p] + s[p + 1..] == sign + (whole + fraction)
  {
  }

  lemma PointedMantissa(d: Decimal, whole: string, fraction: string)
    requires AllDigits(whole) && whole != "" && AllDigits(fraction) && |fraction| < MAX_INT32
    requires AllDigits(whole + fraction) && Number(whole + fraction) == Abs(d.value) && d.exp == 0 - |fraction|
    ensures ParseMantissa(Sign(d.value) + whole + ("." + fraction), 0) == Some(d)
  {
    var head, digits := Sign(d.value) + whole, Sign(d.value) + (whole + fraction);
    var s := head + ("." + fraction);
    NotWritten(whole, '.');
    NotWritten(whole + fraction, '.');
    ParseSigned(d.value, whole + fraction);
    IndexInTail(head, '.', "." + fraction);
    CutAtPoint(Sign(d.value), whole, fraction);
    MantissaIs(s, |head|, digits, d.value);
  }

  // ----- Which decimals are integers -----

  lemma DivExact(v: int, p: nat, n: int)
    requires p > 0
    ensures n * p == v <==> Abs(v) % p == 0 && (if v < 0 then -(Abs(v) / p) else v / p) == n
  {
    var m := if n < 0 then -n else n;
    assert n * p == v ==> m * p == Abs(v) && (v < 0 <==> n < 0) by { SignOfProduct(n, p); }
    if n * p == v {
      DivUnique(Abs(v), p, m, 0);
    } else if Abs(v) % p == 0 {
      QuotientTimes(Abs(v), p);
      SignOfProduct(if v < 0 then -(Abs(v) / p) else v / p, p);
    }
  }

  lemma SignOfProduct(n: int, p: nat)
    requires p > 0
    ensures (if n < 0 then -n else n) * p == Abs(n * p) && (n * p < 0 <==> n < 0)
  {
    if n < 0 {
      MulAtLeast(p, -n);
      assert (-n) * p == -(n * p);
    }
  }

  lemma QuotientTimes(a: nat, p: nat)
    requires p > 0 && a % p == 0
    ensures a / p * p == a
  {
  }

  /** IsInteger accepts exactly the decimals that denote an integer, and BigInt gives it. */
  lemma IntegerIff(d: Decimal, n: int)
    ensures Denotes(d, n) <==> IsInteger(d) && BigInt(d) == n
  {
    if d.exp < 0 {
      DivExact(d.value, Pow10(-d.exp), n);
    }
  }

  /** Scaling first and taking the integer after agrees with taking the integer first, where that is possible. */
  lemma ScaleDenotes(d: Decimal, k: nat, n: int)
    requires Denotes(d, n)
    ensures Denotes(Scale(d, k), n * Pow10(k))
  {
    var m := n * Pow10(k);
    if d.exp >= 0 {
      ScaleUp(d, k, n, m);
    } else if d.exp + k >= 0 {
      ScaleAcross(d, k, n, m);
    } else {
      ScaleBelow(d, k, n, m);
    }
  }

  lemma ScaleUp(d: Decimal, k: nat, n: int, m: int)
    requires d.exp >= 0 && n == d.value * Pow10(d.exp) && m == n * Pow10(k)
    ensures Denotes(Scale(d, k), m)
  {
    Pow10Add(d.exp, k);
    MulAssoc(d.value, Pow10(d.exp), Pow10(k));
  }

  lemma ScaleAcross(d: Decimal, k: nat, n: int, m: int)
    requires d.exp < 0 <= d.exp + k && n * Pow10(-d.exp) == d.value && m == n * Pow10(k)
    ensures Denotes(Scale(d, k), m)
  {
    var p, q := -d.exp, d.exp + k;
    Pow10Add(p, q);
    MulAssoc(n, Pow10(p), Pow10(q));
    assert p + q == k;
  }

  lemma ScaleBelow(d: Decimal, k: nat, n: int, m: int)
    requires d.exp + k < 0 && n * Pow10(-d.exp) == d.value && m == n * Pow10(k)
    ensures Denotes(Scale(d, k), m)
  {
    var r := -(d.exp + k);
    Pow10Add(k, r);
    MulAssoc(n, Pow10(k), Pow10(r));
    assert k + r == -d.exp;
  }

  // ----- Every form of a number -----

  /** A sign, which may be left out, and its effect. */
  predicate IsSign(sign: string) {
    sign == "" || sign == "-" || sign == "+"
  }

  function Signed(sign: string, n: nat): int {
    if sign == "-" then 0 - n else n
  }

  lemma ParsePlus(digits: string)
    requires AllDigits(digits) && digits != ""
    ensures ParseInteger("+" + digits) == Some(Number(digits))
  {
    var s := "+" + digits;
    assert s[1..] == digits && !IsDigit(s[0]);
  }

  lemma ParseSignText(sign: string, digits: string, n: nat)
    requires IsSign(sign) && AllDigits(digits) && digits != "" && n == Number(digits)
    ensures ParseInteger(sign + digits) == Some(Signed(sign, n))
  {
    if sign == "+" {
      ParsePlus(digits);
    } else if sign == "-" && n == 0 {
      assert (sign + digits)[1..] == digits && !IsDigit((sign + digits)[0]);
    } else {
      ParseSigned(Signed(sign, n), digits);
    }
  }

  /** Digits with an optional sign and without a point. */
  lemma WholeIs(sign: string, whole: string)
    requires IsSign(sign) && AllDigits(whole) && whole != ""
    ensures FromString(sign + whole) == Some(Decimal(Signed(sign, Number(whole)), 0))
  {
    var s := sign + whole;
    NotWritten(whole, '.');
    NotWritten(whole, 'e');
    NotWritten(whole, 'E');
    ParseSignText(sign, whole, Number(whole));
    Absent(s, '.');
    MantissaIs(s, |s|, s, Signed(sign, Number(whole)));
    Absent(s, 'e');
    Absent(s, 'E');
  }

  lemma PointedIsMantissa(sign: string, whole: string, fraction: string, head: string, s: string)
    requires IsSign(sign) && AllDigits(whole) && AllDigits(fraction) && whole + fraction != ""
    requires AllDigits(whole + fraction) && |fraction| < MAX_INT32
    requires head == sign + whole && s == head + ("." + fraction)
    ensures ParseMantissa(s, 0) == Some(Decimal(Signed(sign, Number(whole + fraction)), 0 - |fraction|))
  {
    NotWritten(whole, '.');
    NotWritten(whole + fraction, '.');
    ParseSignText(sign, whole + fraction, Number(whole + fraction));
    IndexInTail(head, '.', "." + fraction);
    CutAtPoint(sign, whole, fraction);
    MantissaIs(s, |head|, sign + (whole + fraction), Signed(sign, Number(whole + fraction)));
  }

  /** Digits with a point anywhere among them: as many places as there are digits behind it. */
  lemma PointedIs(sign: string, whole: string, fraction: string)
    requires IsSign(sign) && AllDigits(whole) && AllDigits(fraction) && whole + fraction != ""
    requires AllDigits(whole + fraction) && |fraction| < MAX_INT32
    ensures FromString(sign + whole + ("." + fraction)) ==
            Some(Decimal(Signed(sign, Number(whole + fraction)), 0 - |fraction|))
  {
    var s := sign + whole + ("." + fraction);
    NotWritten(whole, 'e');
    NotWritten(whole, 'E');
    NotWritten(fraction, 'e');
    NotWritten(fraction, 'E');
    Absent(s, 'e');
    Absent(s, 'E');
    PointedIsMantissa(sign, whole, fraction, sign + whole, s);
  }

  predicate IsInt32(x: int) {
    MIN_INT32 <= x <= MAX_INT32
  }

  lemma IndexBefore(t: string, c: char, rest: string)
    requires c !in t
    ensures IndexOf(t + [c] + rest, c) == |t|
  {
    assert t + [c] + rest == t + ([c] + rest);
    IndexInTail(t, c, [c] + rest);
  }

  lemma MarkFound(t: string, mark: char, rest: string)
    requires 'e' !in t && 'E' !in t && (mark == 'e' || mark == 'E')
    ensures var s := t + [mark] + rest;
      Min(IndexOf(s, 'e'), IndexOf(s, 'E')) == |t| && s[..|t|] == t && s[|t| + 1..] == rest
  {
    IndexBefore(t, mark, rest);
    var s := t + [mark] + rest;
    assert forall j | 0 <= j < |t| :: s[j] == t[j];
  }

  /** d * 10^x. */
  function Scaled(d: Decimal, x: int): Decimal {
    Decimal(d.value, d.exp + x)
  }

  lemma MantissaShifts(t: string, x: int)
    requires ParseMantissa(t, 0).Some?
    ensures ParseMantissa(t, x) ==
            if IsInt32(ParseMantissa(t, 0).value.exp + x) then Some(Scaled(ParseMantissa(t, 0).value, x)) else None
  {
  }

  lemma NoMark(t: string)
    requires 'e' !in t && 'E' !in t
    ensures FromString(t) == ParseMantissa(t, 0)
  {
    Absent(t, 'e');
    Absent(t, 'E');
  }

  /** An exponent behind a number shifts it, unless it, or the sum, leaves 32 bits; then the text is rejected. */
  lemma ExponentShifts(t: string, mark: char, x: int, d: Decimal)
    requires 'e' !in t && 'E' !in t && (mark == 'e' || mark == 'E') && FromString(t) == Some(d)
    ensures FromString(t + [mark] + Itoa(x)) ==
            if IsInt32(x) && IsInt32(d.exp + x) then Some(Scaled(d, x)) else None
  {
    NoMark(t);
    MarkFound(t, mark, Itoa(x));
    ParseItoa(x);
    MantissaShifts(t, x);
    WithExponent(t + [mark] + Itoa(x), t, Itoa(x), x);
  }

  lemma WithExponent(s: string, t: string, rest: string, x: int)
    requires |t| < |s| && Min(IndexOf(s, 'e'), IndexOf(s, 'E')) == |t| && s[..|t|] == t && s[|t| + 1..] == rest
    requires ParseInteger(rest) == Some(x)
    ensures FromString(s) == if IsInt32(x) then ParseMantissa(t, x) else None
  {
  }

  /** What numbers are written with. */
  predicate InNumbers(c: char) {
    IsDigit(c) || c == '+' || c == '-' || c == '.' || c == 'e' || c == 'E'
  }

  lemma IntegerChars(s: string, i: nat)
    requires i < |s| && ParseInteger(s).Some?
    ensures IsDigit(s[i]) || s[i] == '+' || s[i] == '-'
  {
    assert i > 0 ==> s[1..][i - 1] == s[i];
  }

  /** The character at index i, behind or before the point that was taken out at p. */
  lemma CharOfDigits(s: string, p: nat, digits: string, i: nat)
    requires p < |s| && digits == s[..p] + s[p + 1..] && i < |s| && i != p
    ensures exists k: nat :: k < |digits| && digits[k] == s[i]
  {
    var k := if i < p then i else i - 1;
    assert digits[k] == s[i];
  }

  lemma PointedChars(s: string, p: nat, digits: string, i: nat)
    requires p < |s| && s[p] == '.' && digits == s[..p] + s[p + 1..] && i < |s| && ParseInteger(digits).Some?
    ensures InNumbers(s[i])
  {
    if i != p {
      CharOfDigits(s, p, digits, i);
      var k: nat :| k < |digits| && digits[k] == s[i];
      IntegerChars(digits, k);
    }
  }

  lemma MantissaChars(s: string, exp: int, i: nat)
    requires i < |s| && ParseMantissa(s, exp).Some?
    ensures InNumbers(s[i])
  {
    var p := IndexOf(s, '.');
    if p == |s| {
      IntegerChars(s, i);
    } else {
      PointedChars(s, p, s[..p] + s[p + 1..], i);
    }
  }

  lemma ExponentChars(s: string, e: nat, exp: int, i: nat)
    requires i < |s| && e < |s| && (s[e] == 'e' || s[e] == 'E') && ParseInteger(s[e + 1..]).Some?
    requires ParseMantissa(s[..e], exp).Some?
    ensures InNumbers(s[i])
  {
    if i < e {
      MantissaChars(s[..e], exp, i);
    } else if i > e {
      IntegerChars(s[e + 1..], i - e - 1);
    }
  }

  lemma MarkedParts(s: string, e: nat)
    requires e == Min(IndexOf(s, 'e'), IndexOf(s, 'E')) && FromString(s).Some?
    ensures e == |s| ==> ParseMantissa(s, 0).Some?
    ensures e < |s| ==> (s[e] == 'e' || s[e] == 'E') && ParseInteger(s[e + 1..]).Some?
    ensures e < |s| ==> ParseMantissa(s[..e], ParseInteger(s[e + 1..]).value).Some?
  {
  }

  /** A text with any other character is rejected. */
  lemma NumberChars(s: string, i: nat)
    requires i < |s| && FromString(s).Some?
    ensures InNumbers(s[i])
  {
    var e := Min(IndexOf(s, 'e'), IndexOf(s, 'E'));
    MarkedParts(s, e);
    if e == |s| {
      MantissaChars(s, 0, i);
    } else {
      ExponentChars(s, e, ParseInteger(s[e + 1..]).value, i);
    }
  }

  /** What is printed: the sign, the digits of the quotient by 10^k, and, if there is a rest, a point and the digits of
      the rest without trailing zeros. */
  lemma PrintedIs(v: int, k: nat, whole: string) returns (fraction: string)
    requires whole == Digits(Quotient(Abs(v), Pow10(k)))
    ensures ToString(Decimal(v, 0 - k)) == Sign(v) + (if fraction == "" then whole else whole + "." + fraction)
    ensures AllDigits(fraction) && |fraction| <= k && (fraction != "" ==> fraction[|fraction| - 1] != '0')
    ensures Number(fraction) * Pow10(k - |fraction|) == Abs(v) % Pow10(k)
  {
    PrintedForm(v, k);
    if k == 0 {
      fraction := "";
      ItoaIs(v, whole, Pow10(0));
    } else {
      fraction := FixedIs(v, k, whole);
    }
  }

  lemma FixedIs(v: int, k: nat, whole: string) returns (fraction: string)
    requires whole == Digits(Quotient(Abs(v), Pow10(k)))
    ensures FixedPoint(v, k) == Sign(v) + (if fraction == "" then whole else whole + "." + fraction)
    ensures AllDigits(fraction) && |fraction| <= k && (fraction != "" ==> fraction[|fraction| - 1] != '0')
    ensures Number(fraction) * Pow10(k - |fraction|) == Abs(v) % Pow10(k)
  {
    WholeIsQuotient(Abs(v), k);
    fraction := TrimZeros(FractionPart(Abs(v), k));
    RestDigits(Abs(v), k);
  }

  lemma ItoaIs(v: int, whole: string, p: nat)
    requires p == 1 && whole == Digits(Quotient(Abs(v), p))
    ensures Itoa(v) == Sign(v) + whole && Abs(v) % p == 0
  {
    assert Quotient(Abs(v), p) == Abs(v);
    assert "" + whole == whole;
  }

  /** The digits behind the point are those of the rest. */
  lemma RestDigits(n: nat, k: nat)
    ensures AllDigits(FractionPart(n, k)) && |FractionPart(n, k)| == k && Number(FractionPart(n, k)) == n % Pow10(k)
    ensures var fraction := TrimZeros(FractionPart(n, k));
            AllDigits(fraction) && |fraction| <= k && Number(fraction) * Pow10(k - |fraction|) == n % Pow10(k)
  {
    var q, full := Quotient(n, Pow10(k)), FractionPart(n, k);
    PartsOf(n, k);
    WholeIsQuotient(n, k);
    NumberOfDigits(q);
    NumberBelow(full);
    SameRest(q, Number(full), n, Pow10(k));
    NumberTrimmed(full);
  }

  lemma SameRest(q: nat, r: nat, n: nat, p: nat)
    requires p > 0 && q * p + r == n && r < p
    ensures n % p == r
  {
    DivUnique(n, p, q, r);
  }
}
