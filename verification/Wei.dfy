/** Wei amounts as text with unit suffixes (core/assets/wei.go). */
module WeiText {
  import opened Wrappers
  import opened DecimalDigits
  import opened DecimalNumber

  /** The suffixes in the order UnmarshalText tries them. */
  const SUFFIXES: seq<string> :=
    ["tether", "gether", "mether", "kether", "ether", "milli", "micro", "gwei", "mwei", "kwei", "wei"]

  /** The exponent of a suffix; anything else is a programming error in the source, and panics. */
  function SuffixExp(suffix: string): (exp: nat)
    requires suffix in SUFFIXES
    ensures exp <= 30
  {
    if suffix == "wei" then 0
    else if suffix == "kwei" then 3
    else if suffix == "mwei" then 6
    else if suffix == "gwei" then 9
    else if suffix == "micro" then 12
    else if suffix == "milli" then 15
    else if suffix == "ether" then 18
    else if suffix == "kether" then 21
    else if suffix == "mether" then 24
    else if suffix == "gether" then 27
    else 30
  }

  function TextIn(n: int, suffix: string): string
    requires suffix in SUFFIXES
  {
    if n == 0 then "0" else ToString(Decimal(n, 0 - SuffixExp(suffix))) + " " + suffix
  }

  /** Text: an empty or unknown suffix means wei. */
  function Text(n: int, suffix: string): string {
    TextIn(n, if suffix in SUFFIXES then suffix else "wei")
  }

  const U64_ETH := 1_000_000_000_000_000_000

  predicate IsUint64(n: int) {
    0 <= n < 0x1_0000_0000_0000_0000
  }

  /** The unit String picks: up to ether among the amounts of 64 bits, from kether on above them. */
  function UnitFor(n: int): (suffix: string)
    ensures suffix in SUFFIXES
  {
    if IsUint64(n) then
      if n >= U64_ETH then "ether"
      else if n >= 1_000_000_000_000_000 then "milli"
      else if n >= 1_000_000_000_000 then "micro"
      else if n >= 1_000_000_000 then "gwei"
      else if n >= 1_000_000 then "mwei"
      else if n >= 1_000 then "kwei"
      else "wei"
    else if n >= U64_ETH * 1_000_000_000_000 then "tether"
    else if n >= U64_ETH * 1_000_000_000 then "gether"
    else if n >= U64_ETH * 1_000_000 then "mether"
    else if n >= U64_ETH * 1_000 then "kether"
    else "ether"
  }

  function String(n: int): string {
    Text(n, UnitFor(n))
  }

  // ----- Reading -----

  predicate HasSuffix(s: string, suffix: string) {
    |suffix| <= |s| && s[|s| - |suffix|..] == suffix
  }

  function TrimSuffix(s: string, suffix: string): string {
    if HasSuffix(s, suffix) then s[..|s| - |suffix|] else s
  }

  /** The first suffix of the table, from position i on, that the text ends with. */
  function SuffixFrom(s: string, i: nat): (suffix: Option<string>)
    requires i <= |SUFFIXES|
    ensures suffix.Some? ==> suffix.value in SUFFIXES && HasSuffix(s, suffix.value)
    decreases |SUFFIXES| - i
  {
    if i == |SUFFIXES| then None
    else if HasSuffix(s, SUFFIXES[i]) then Some(SUFFIXES[i])
    else SuffixFrom(s, i + 1)
  }

  /** The text denotes the amount n: a decimal times the power of ten of its unit, and the product is exactly n. */
  predicate Reads(s: string, n: int) {
    match SuffixFrom(s, 0)
    case Some(suffix) =>
      var d := FromString(TrimSuffix(TrimSuffix(s, suffix), " "));
      d.Some? && Denotes(Scale(d.value, SuffixExp(suffix)), n)
    case None =>
      var d := FromString(s);
      d.Some? && Denotes(d.value, n)
  }

  class Wei {
    var amount: int

    constructor (n: int)
      ensures amount == n
    {
      amount := n;
    }

    /** The integer path and the fractional path of the source both compute what the text denotes. */
    method UnmarshalText(b: string) returns (ok: bool)
      modifies this
      ensures ok ==> Reads(b, amount)
      ensures !ok ==> amount == old(amount) && forall n :: !Reads(b, n)
    {
      var i := 0;
      while i < |SUFFIXES|
        invariant i <= |SUFFIXES|
        invariant amount == old(amount)
        invariant SuffixFrom(b, 0) == SuffixFrom(b, i)
      {
        var suffix := SUFFIXES[i];
        if HasSuffix(b, suffix) {
          var t := TrimSuffix(b, suffix);
          t := TrimSuffix(t, " ");
          var d := FromString(t);
          if d.None? {
            return false;
          }
          var exp := SuffixExp(suffix);
          ScaledAmounts(d.value, exp);
          if IsInteger(d.value) {
            amount := BigInt(d.value) * Pow10(exp);
            return true;
          }
          var scaled := Scale(d.value, exp);
          if !IsInteger(scaled) {
            return false;
          }
          amount := BigInt(scaled);
          return true;
        }
        i := i + 1;
      }
      var d := FromString(b);
      if d.None? {
        return false;
      }
      ScaledAmounts(d.value, 0);
      if IsInteger(d.value) {
        amount := BigInt(d.value);
        return true;
      }
      return false;
    }
  }

  /** Both ways of applying a unit give the integer the scaled decimal denotes, if it denotes one. */
  lemma ScaledAmounts(d: Decimal, exp: nat)
    ensures IsInteger(d) ==> Denotes(d, BigInt(d)) && Denotes(Scale(d, exp), BigInt(d) * Pow10(exp))
    ensures forall n :: Denotes(Scale(d, exp), n) <==> IsInteger(Scale(d, exp)) && BigInt(Scale(d, exp)) == n
    ensures forall n :: Denotes(d, n) <==> IsInteger(d) && BigInt(d) == n
  {
    forall n
      ensures Denotes(Scale(d, exp), n) <==> IsInteger(Scale(d, exp)) && BigInt(Scale(d, exp)) == n
      ensures Denotes(d, n) <==> IsInteger(d) && BigInt(d) == n
    {
      IntegerIff(Scale(d, exp), n);
      IntegerIff(d, n);
    }
    if IsInteger(d) {
      ScaleDenotes(d, exp, BigInt(d));
    }
  }

  // ----- The suffix table -----

  /** No suffix ends with one that is tried before it: ether is tried after tether and kether, wei after gwei. */
  lemma EarlierIsNoSuffix(i: nat, j: nat)
    requires i < j < |SUFFIXES|
    ensures !HasSuffix(SUFFIXES[j], SUFFIXES[i])
  {
    var a, b := SUFFIXES[i], SUFFIXES[j];
    if |a| <= |b| {
      var tail := b[|b| - |a|..];
      assert tail[0] != a[0] || tail[2] != a[2];
    }
  }

  lemma NoSpace(i: nat)
    requires i < |SUFFIXES|
    ensures ' ' !in SUFFIXES[i] && SUFFIXES[i] != ""
  {
  }

  lemma SpaceKeepsSuffix(t: string, a: string, b: string)
    requires ' ' !in a && !HasSuffix(b, a)
    ensures !HasSuffix(t + " " + b, a)
  {
    var s := t + " " + b;
    if |a| <= |b| {
      assert s[|s| - |a|..] == b[|b| - |a|..];
    } else if |a| <= |s| {
      assert s[|s| - |a|..][|a| - |b| - 1] == ' ';
    }
  }

  lemma {:induction false} FindsSuffix(t: string, i: nat, j: nat)
    requires i <= j < |SUFFIXES|
    ensures SuffixFrom(t + " " + SUFFIXES[j], i) == Some(SUFFIXES[j])
    decreases j - i
  {
    if i == j {
    } else {
      EarlierIsNoSuffix(i, j);
      NoSpace(i);
      SpaceKeepsSuffix(t, SUFFIXES[i], SUFFIXES[j]);
      FindsSuffix(t, i + 1, j);
    }
  }

  lemma EndsOtherwise(s: string, a: string)
    requires s != "" && a != "" && s[|s| - 1] != a[|a| - 1]
    ensures !HasSuffix(s, a)
  {
    if |a| <= |s| {
      assert s[|s| - |a|..][|a| - 1] == s[|s| - 1];
    }
  }

  lemma NoDigit(i: nat)
    requires i < |SUFFIXES|
    ensures SUFFIXES[i] != "" && !IsDigit(SUFFIXES[i][|SUFFIXES[i]| - 1])
  {
    var a := SUFFIXES[i];
    assert a[|a| - 1] == 'r' || a[|a| - 1] == 'i' || a[|a| - 1] == 'o';
  }

  lemma {:induction false} NumberHasNoSuffix(s: string, i: nat)
    requires i <= |SUFFIXES| && s != "" && IsDigit(s[|s| - 1])
    ensures SuffixFrom(s, i) == None
    decreases |SUFFIXES| - i
  {
    if i == |SUFFIXES| {
    } else {
      NoDigit(i);
      EndsOtherwise(s, SUFFIXES[i]);
      NumberHasNoSuffix(s, i + 1);
    }
  }

  // ----- Round trips -----

  lemma DenotesOne(d: Decimal, n: int, m: int)
    requires Denotes(d, n)
    ensures Denotes(d, m) <==> m == n
  {
    IntegerIff(d, n);
    IntegerIff(d, m);
  }

  lemma ZeroReads(m: int)
    ensures Reads("0", m) <==> m == 0
  {
    NumberHasNoSuffix("0", 0);
    ReadInteger(0);
    assert Itoa(0) == "0";
    TimesOne(0, 0);
    DenotesOne(Decimal(0, 0), 0, m);
  }

  /** The number before the suffix is found again. */
  lemma TrimsBack(t: string, suffix: string)
    requires suffix in SUFFIXES
    ensures SuffixFrom(t + " " + suffix, 0) == Some(suffix)
    ensures TrimSuffix(TrimSuffix(t + " " + suffix, suffix), " ") == t
  {
    var j :| 0 <= j < |SUFFIXES| && SUFFIXES[j] == suffix;
    FindsSuffix(t, 0, j);
    TrimsEnd(t + " ", suffix);
    TrimsEnd(t, " ");
  }

  lemma TrimsEnd(s: string, suffix: string)
    ensures TrimSuffix(s + suffix, suffix) == s
  {
    assert (s + suffix)[|s|..] == suffix;
    assert (s + suffix)[..|s|] == s;
  }

  lemma NumberReads(s: string, t: string, suffix: string, d: Decimal, n: int, m: int)
    requires suffix in SUFFIXES && s == t + " " + suffix
    requires FromString(t) == Some(d) && Denotes(Scale(d, SuffixExp(suffix)), n)
    ensures Reads(s, m) <==> m == n
  {
    TrimsBack(t, suffix);
    DenotesOne(Scale(d, SuffixExp(suffix)), n, m);
  }

  lemma TextInReads(n: int, suffix: string, m: int)
    requires suffix in SUFFIXES
    ensures Reads(TextIn(n, suffix), m) <==> m == n
  {
    if n == 0 {
      ZeroReads(m);
    } else {
      var exp: int := SuffixExp(suffix);
      var t := ToString(Decimal(n, 0 - exp));
      var d := ReadPrinted(n, exp);
      NumberReads(TextIn(n, suffix), t, suffix, d, n, m);
    }
  }

  /** Reading what was printed in any unit, known or not, gives the amount back, whatever its sign. */
  lemma TextRoundTrip(n: int, suffix: string, m: int)
    ensures Reads(Text(n, suffix), m) <==> m == n
    ensures Reads(String(n), m) <==> m == n
  {
    assert "wei" == SUFFIXES[10];
    TextInReads(n, if suffix in SUFFIXES then suffix else "wei", m);
    TextInReads(n, UnitFor(n), m);
  }

  // ----- The unit String picks -----

  lemma Thousands()
    ensures Pow10(0) == 1 && Pow10(3) == 1_000 && Pow10(6) == 1_000_000 && Pow10(9) == 1_000_000_000
    ensures Pow10(12) == 1_000_000_000_000 && Pow10(15) == 1_000_000_000_000_000 && Pow10(18) == U64_ETH
    ensures Pow10(21) == U64_ETH * 1_000 && Pow10(24) == U64_ETH * 1_000_000
    ensures Pow10(27) == U64_ETH * 1_000_000_000 && Pow10(30) == U64_ETH * 1_000_000_000_000
  {
    assert Pow10(3) == 1000;
    Pow10Add(3, 3);
    Pow10Add(6, 3);
    Pow10Add(9, 3);
    Pow10Add(12, 3);
    Pow10Add(15, 3);
    Pow10Add(18, 3);
    Pow10Add(21, 3);
    Pow10Add(24, 3);
    Pow10Add(27, 3);
  }

  lemma UnitBounds(n: int, p: nat)
    requires n > 0 && p == Pow10(SuffixExp(UnitFor(n)))
    ensures 0 < p <= n
    ensures UnitFor(n) != "tether" ==> n < 1000 * p
  {
    Thousands();
  }

  /** String prints a positive amount as a number from 1 up to below 1000, unless it is printed in tether. */
  lemma StringIsReadable(n: int) returns (whole: nat, fraction: string)
    requires n > 0
    ensures String(n) == Digits(whole) + (if fraction == "" then "" else "." + fraction) + " " + UnitFor(n)
    ensures whole >= 1 && (UnitFor(n) != "tether" ==> whole < 1000)
    ensures fraction != "" ==> fraction[|fraction| - 1] != '0'
  {
    var k := SuffixExp(UnitFor(n));
    var p := Pow10(k);
    UnitBounds(n, p);
    QuotientBounds(n, p);
    whole, fraction := PrintedParts(n, k);
  }

  lemma PrintedParts(n: nat, k: nat) returns (whole: nat, fraction: string)
    requires n > 0
    ensures ToString(Decimal(n, 0 - k)) == Digits(whole) + if fraction == "" then "" else "." + fraction
    ensures whole == Quotient(n, Pow10(k)) && (fraction != "" ==> fraction[|fraction| - 1] != '0')
  {
    whole := Quotient(n, Pow10(k));
    PrintedForm(n, k);
    if k == 0 {
      fraction := "";
      WholePrinted(n, Pow10(k));
    } else {
      fraction := FractionPrinted(n, k, Digits(whole));
    }
  }

  lemma WholePrinted(n: nat, p: nat)
    requires p == 1
    ensures Itoa(n) == Digits(Quotient(n, p)) + ""
  {
    assert Quotient(n, p) == n;
  }

  lemma FractionPrinted(n: nat, k: nat, whole: string) returns (fraction: string)
    requires whole == Digits(Quotient(n, Pow10(k)))
    ensures FixedPoint(n, k) == whole + if fraction == "" then "" else "." + fraction
    ensures fraction != "" ==> fraction[|fraction| - 1] != '0'
  {
    WholeIsQuotient(n, k);
    fraction := TrimZeros(FractionPart(n, k));
    PositivePrinted(n, k, whole + if fraction == "" then "" else "." + fraction);
  }

  lemma QuotientBounds(n: nat, p: nat)
    requires 0 < p <= n
    ensures Quotient(n, p) >= 1 && (n < 1000 * p ==> Quotient(n, p) < 1000)
    ensures p == 1 ==> Quotient(n, p) == n
  {
    var q := n / p;
    assert p * q + n % p == n;
    if q >= 1000 {
      MulAtLeast(p, q - 999);
      MulSub(p, q, 999);
    }
  }

  // ----- What each unit means -----

  /** The units, and the power of ten that each stands for. */
  predicate IsUnit(suffix: string, exp: nat) {
    || (suffix == "tether" && exp == 30) || (suffix == "gether" && exp == 27) || (suffix == "mether" && exp == 24)
    || (suffix == "kether" && exp == 21) || (suffix == "ether" && exp == 18) || (suffix == "milli" && exp == 15)
    || (suffix == "micro" && exp == 12) || (suffix == "gwei" && exp == 9) || (suffix == "mwei" && exp == 6)
    || (suffix == "kwei" && exp == 3) || (suffix == "wei" && exp == 0)
  }

  lemma UnitAt(i: nat)
    requires i < |SUFFIXES|
    ensures IsUnit(SUFFIXES[i], SuffixExp(SUFFIXES[i])) == true
  {
  }

  /** The table of suffixes and their exponents are these units, and no others. */
  lemma UnitsAre(suffix: string, exp: nat)
    ensures IsUnit(suffix, exp) <==> suffix in SUFFIXES && SuffixExp(suffix) == exp
  {
    if suffix in SUFFIXES {
      var i :| 0 <= i < |SUFFIXES| && SUFFIXES[i] == suffix;
      UnitAt(i);
    } else {
      assert SUFFIXES[0] == "tether" && SUFFIXES[1] == "gether" && SUFFIXES[2] == "mether" && SUFFIXES[3] == "kether";
      assert SUFFIXES[4] == "ether" && SUFFIXES[5] == "milli" && SUFFIXES[6] == "micro" && SUFFIXES[7] == "gwei";
      assert SUFFIXES[8] == "mwei" && SUFFIXES[9] == "kwei" && SUFFIXES[10] == "wei";
    }
  }

  /** Where the text of a number ends: in a digit or a point. */
  predicate EndsNumber(t: string) {
    t != "" && (IsDigit(t[|t| - 1]) || t[|t| - 1] == '.')
  }

  lemma EndsWithPart(t: string, a: string, b: string)
    requires EndsNumber(t) && a != "" && !HasSuffix(b, a) && forall i | 0 <= i < |a| :: !IsDigit(a[i]) && a[i] != '.'
    ensures !HasSuffix(t + b, a)
  {
    var s := t + b;
    if |a| <= |b| {
      assert s[|s| - |a|..] == b[|b| - |a|..];
    } else if |a| <= |s| {
      assert s[|s| - |a|..][|a| - |b| - 1] == t[|t| - 1];
    }
  }

  lemma OnlyLetters(i: nat)
    requires i < |SUFFIXES|
    ensures SUFFIXES[i] != "" && forall k | 0 <= k < |SUFFIXES[i]| :: !IsDigit(SUFFIXES[i][k]) && SUFFIXES[i][k] != '.'
  {
  }

  lemma {:induction false} FindsUnspaced(t: string, i: nat, j: nat)
    requires EndsNumber(t) && i <= j < |SUFFIXES|
    ensures SuffixFrom(t + SUFFIXES[j], i) == Some(SUFFIXES[j])
    decreases j - i
  {
    if i == j {
    } else {
      EarlierIsNoSuffix(i, j);
      OnlyLetters(i);
      EndsWithPart(t, SUFFIXES[i], SUFFIXES[j]);
      FindsUnspaced(t, i + 1, j);
    }
  }

  lemma {:induction false} NoUnit(t: string, i: nat)
    requires EndsNumber(t) && i <= |SUFFIXES|
    ensures SuffixFrom(t, i) == None
    decreases |SUFFIXES| - i
  {
    if i == |SUFFIXES| {
    } else {
      OnlyLetters(i);
      EndsOtherwise(t, SUFFIXES[i]);
      NoUnit(t, i + 1);
    }
  }

  lemma NotTrimmed(t: string)
    requires EndsNumber(t)
    ensures TrimSuffix(t, " ") == t
  {
    EndsOtherwise(t, " ");
  }

  /** A number with a unit behind it, with one space between them or none, is read as that many units. */
  lemma AmountReads(t: string, suffix: string, exp: nat, d: Decimal, m: int)
    requires IsUnit(suffix, exp) && EndsNumber(t) && FromString(t) == Some(d)
    ensures Reads(t + suffix, m) <==> Denotes(Scale(d, exp), m)
    ensures Reads(t + " " + suffix, m) <==> Denotes(Scale(d, exp), m)
  {
    UnitsAre(suffix, exp);
    TrimsUnspaced(t, suffix);
    TrimsBack(t, suffix);
  }

  lemma TrimsUnspaced(t: string, suffix: string)
    requires suffix in SUFFIXES && EndsNumber(t)
    ensures SuffixFrom(t + suffix, 0) == Some(suffix) && TrimSuffix(TrimSuffix(t + suffix, suffix), " ") == t
  {
    var j :| 0 <= j < |SUFFIXES| && SUFFIXES[j] == suffix;
    FindsUnspaced(t, 0, j);
    TrimsEnd(t, suffix);
    NotTrimmed(t);
  }

  /** A number without a unit is read as wei. */
  lemma BareReads(t: string, d: Decimal, m: int)
    requires EndsNumber(t) && FromString(t) == Some(d)
    ensures Reads(t, m) <==> Denotes(d, m)
  {
    NoUnit(t, 0);
  }

  lemma ItoaEnds(n: int)
    ensures EndsNumber(Itoa(n))
  {
  }

  /** An integer without a unit is read as that many wei. */
  lemma BareIntegerReads(n: int, m: int)
    ensures Reads(Itoa(n), m) <==> m == n
  {
    ReadInteger(n);
    ItoaEnds(n);
    TimesOne(n, 0);
    BareReads(Itoa(n), Decimal(n, 0), m);
    DenotesOne(Decimal(n, 0), n, m);
  }

  /** An integer with a unit is read as that many of the unit. */
  lemma IntegerReads(n: int, suffix: string, exp: nat, m: int)
    requires IsUnit(suffix, exp)
    ensures Reads(Itoa(n) + " " + suffix, m) <==> m == n * Pow10(exp)
    ensures Reads(Itoa(n) + suffix, m) <==> m == n * Pow10(exp)
  {
    var d := Decimal(n, 0);
    ReadInteger(n);
    ItoaEnds(n);
    AmountReads(Itoa(n), suffix, exp, d, m);
    TimesOne(n, 0);
    ScaleDenotes(d, exp, n);
    DenotesOne(Scale(d, exp), n * Pow10(exp), m);
  }

  /** m is v * 10^exp / 10^places, without a rest. */
  predicate Exactly(v: int, exp: nat, places: nat, m: int) {
    if places <= exp then m == v * Pow10(exp - places) else m * Pow10(places - exp) == v
  }

  lemma ScaledExactly(v: int, exp: nat, places: nat, m: int)
    ensures Denotes(Scale(Decimal(v, 0 - places), exp), m) <==> Exactly(v, exp, places, m)
  {
  }

  lemma EndsInFraction(head: string, fraction: string)
    requires AllDigits(fraction) && fraction != ""
    ensures EndsNumber(head + ("." + fraction))
  {
    var t := head + ("." + fraction);
    assert t[|t| - 1] == fraction[|fraction| - 1];
  }

  /** A number with places behind the point is read exactly if they do not go below one wei, as the product. */
  lemma FractionReads(t: string, sign: string, whole: string, fraction: string, suffix: string, exp: nat, v: int,
      m: int)
    requires IsUnit(suffix, exp) && IsSign(sign) && AllDigits(whole) && AllDigits(fraction) && fraction != ""
    requires AllDigits(whole + fraction) && |fraction| < MAX_INT32
    requires t == sign + whole + ("." + fraction) && v == Signed(sign, Number(whole + fraction))
    ensures Reads(t + " " + suffix, m) <==> Exactly(v, exp, |fraction|, m)
    ensures Reads(t + suffix, m) <==> Exactly(v, exp, |fraction|, m)
  {
    PointedIs(sign, whole, fraction);
    EndsInFraction(sign + whole, fraction);
    AmountReads(t, suffix, exp, Decimal(v, 0 - |fraction|), m);
    ScaledExactly(v, exp, |fraction|, m);
  }

  // ----- What each unit prints -----

  /** In a known unit an amount is printed as the quotient by its power of ten, with the rest behind the point. */
  lemma TextIs(n: int, suffix: string, exp: nat, p: nat, whole: string) returns (fraction: string)
    requires n != 0 && IsUnit(suffix, exp) && p == Pow10(exp) && whole == Digits(Quotient(Abs(n), p))
    ensures Text(n, suffix) == Sign(n) + (if fraction == "" then whole else whole + "." + fraction) + " " + suffix
    ensures AllDigits(fraction) && |fraction| <= exp && (fraction != "" ==> fraction[|fraction| - 1] != '0')
    ensures Number(fraction) * Pow10(exp - |fraction|) == Abs(n) % p
  {
    UnitsAre(suffix, exp);
    fraction := PrintedIs(n, exp, whole);
  }

  /** Zero is printed without a unit, an unknown or empty one means wei, and String prints negative amounts in ether. */
  lemma OtherTexts(n: int, suffix: string)
    ensures Text(0, suffix) == "0" && String(0) == "0"
    ensures n != 0 && (forall exp: nat :: !IsUnit(suffix, exp)) ==> Text(n, suffix) == Itoa(n) + " wei"
    ensures n < 0 ==> String(n) == Text(n, "ether")
  {
    if suffix in SUFFIXES {
      UnitsAre(suffix, SuffixExp(suffix));
    }
    assert SUFFIXES[4] == "ether" && SUFFIXES[10] == "wei";
    PrintedForm(n, 0);
  }
}
