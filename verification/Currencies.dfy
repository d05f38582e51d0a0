/** LINK and ETH amounts as text (core/assets/currencies.go). */
module CurrencyText {
  import opened Wrappers
  import opened DecimalDigits
  import opened DecimalNumber
  import opened W = WeiText

  const LINK_FMT_THRESHOLD := 1_000_000_000_000

  /** Link.MarshalText: juels below the threshold, and so for every negative amount; LINK from it on. */
  function LinkText(n: int): string {
    if n >= LINK_FMT_THRESHOLD then ToString(Decimal(n, -18)) + " link" else Itoa(n)
  }

  /** A decimal multiplied by 10^18; the library panics when the exponent leaves its 32 bits. */
  predicate CanScale(d: Decimal) {
    d.exp + 18 <= MAX_INT32
  }

  /** The text denotes n juels. */
  predicate LinkReads(s: string, n: int) {
    if HasSuffix(s, "link") then
      var d := FromString(TrimSuffix(TrimSuffix(s, "link"), " "));
      d.Some? && CanScale(d.value) && Denotes(Scale(d.value, 18), n)
    else if HasSuffix(s, "juels") then
      ParseInteger(TrimSuffix(TrimSuffix(s, "juels"), " ")) == Some(n)
    else
      ParseInteger(s) == Some(n)
  }

  datatype Outcome = Accepted | Rejected | Panicked

  class Link {
    var juels: int

    constructor (n: int)
      ensures juels == n
    {
      juels := n;
    }

    /** A failed SetString leaves the receiver with an unspecified value, so nothing is said of it then. */
    method UnmarshalText(text: string) returns (r: Outcome)
      modifies this
      ensures r.Accepted? ==> LinkReads(text, juels)
      ensures !r.Accepted? ==> forall n :: !LinkReads(text, n)
      ensures r.Panicked? <==>
                && HasSuffix(text, "link")
                && var d := FromString(TrimSuffix(TrimSuffix(text, "link"), " "));
                   d.Some? && d.value.exp + 18 > 0x7FFF_FFFF
      ensures !r.Accepted? && HasSuffix(text, "link") ==> juels == old(juels)
    {
      var s := text;
      if HasSuffix(s, "link") {
        s := TrimSuffix(s, "link");
        s := TrimSuffix(s, " ");
        var d := FromString(s);
        if d.None? {
          return Rejected;
        }
        if !CanScale(d.value) {
          return Panicked;
        }
        var scaled := Scale(d.value, 18);
        ScaledAmounts(d.value, 18);
        if !IsInteger(scaled) {
          return Rejected;
        }
        juels := BigInt(scaled);
        return Accepted;
      }
      if HasSuffix(s, "juels") {
        s := TrimSuffix(s, "juels");
        s := TrimSuffix(s, " ");
      }
      var parsed := ParseInteger(s);
      if parsed.None? {
        juels := *;
        return Rejected;
      }
      juels := parsed.value;
      return Accepted;
    }
  }

  lemma ItoaHasNoSuffix(n: int, suffix: string)
    requires suffix != "" && !IsDigit(suffix[|suffix| - 1])
    ensures !HasSuffix(Itoa(n), suffix)
  {
    var s := Itoa(n);
    assert IsDigit(s[|s| - 1]);
    if |suffix| <= |s| {
      assert s[|s| - |suffix|..][|suffix| - 1] == s[|s| - 1];
    }
  }

  lemma LinkNumberReads(s: string, t: string, d: Decimal, n: int, m: int)
    requires s == t + " link" && FromString(t) == Some(d) && d.exp <= 0 && Denotes(Scale(d, 18), n)
    ensures LinkReads(s, m) <==> m == n
  {
    assert s == (t + " ") + "link";
    TrimsEnd(t + " ", "link");
    TrimsEnd(t, " ");
    DenotesOne(Scale(d, 18), n, m);
  }

  lemma JuelsRead(n: int, m: int)
    ensures LinkReads(Itoa(n), m) <==> m == n
  {
    ItoaHasNoSuffix(n, "link");
    ItoaHasNoSuffix(n, "juels");
    ParseItoa(n);
  }

  /** Reading a printed LINK amount gives it back, on both sides of the threshold and for negative amounts. */
  lemma LinkRoundTrip(n: int, m: int)
    ensures LinkReads(LinkText(n), m) <==> m == n
  {
    if n >= LINK_FMT_THRESHOLD {
      var d := ReadPrinted(n, 18);
      LinkNumberReads(LinkText(n), ToString(Decimal(n, -18)), d, n, m);
    } else {
      JuelsRead(n, m);
    }
  }

  /** A rational with denominator 10^precision, printed with exactly that many digits behind the point. */
  function Format(n: int, precision: nat): string {
    Sign(n) + (WholePart(Abs(n), precision) + "." + FractionPart(Abs(n), precision))
  }

  function EthText(n: int): string {
    Format(n, 18)
  }

  /** NewEthValueS: what lies below one wei is dropped. */
  function EthValue(s: string): Option<int> {
    match FromString(s)
    case None => None
    case Some(d) => Some(BigInt(Decimal(d.value * Pow10(18), d.exp)))
  }

  /** An ETH amount printed with all its 18 places is read back exactly, with its sign. */
  lemma EthRoundTrip(n: int)
    ensures EthValue(EthText(n)) == Some(n)
  {
    var whole, fraction := WholePart(Abs(n), 18), FractionPart(Abs(n), 18);
    PartsOf(Abs(n), 18);
    NumberAppend(whole, fraction);
    ReadPointed(Decimal(n, -18), whole, fraction);
    IntegerIff(Decimal(n * Pow10(18), -18), n);
  }

  // ----- The forms that are read and printed -----

  /** An amount is printed in LINK from 10^12 juels on, and below that as its digits. */
  lemma LinkForm(n: int, whole: string) returns (fraction: string)
    requires whole == Digits(Quotient(Abs(n), Pow10(18)))
    ensures n < 1_000_000_000_000 ==> LinkText(n) == Itoa(n)
    ensures n >= 1_000_000_000_000 ==>
              && LinkText(n) == (if fraction == "" then whole else whole + "." + fraction) + " link"
              && AllDigits(fraction) && |fraction| <= 18 && (fraction != "" ==> fraction[|fraction| - 1] != '0')
              && Number(fraction) * Pow10(18 - |fraction|) == n % Pow10(18)
  {
    fraction := PrintedIs(n, 18, whole);
    NoSign(n, if fraction == "" then whole else whole + "." + fraction);
  }

  lemma NoSign(n: int, t: string)
    ensures n >= 0 ==> Sign(n) + t == t
  {
  }

  lemma NoLinkSuffix(t: string)
    ensures !HasSuffix(t + "juels", "link")
  {
    EndsOtherwise(t + "juels", "link");
  }

  lemma JuelsTrimmed(t: string)
    requires EndsNumber(t)
    ensures TrimSuffix(TrimSuffix(t + "juels", "juels"), " ") == t
    ensures TrimSuffix(TrimSuffix(t + " " + "juels", "juels"), " ") == t
  {
    TrimsEnd(t, "juels");
    TrimsEnd(t + " ", "juels");
    TrimsEnd(t, " ");
    NotTrimmed(t);
  }

  /** An integer is read as juels, with or without that unit. */
  lemma JuelsFormsRead(n: int, m: int)
    ensures LinkReads(Itoa(n), m) <==> m == n
    ensures LinkReads(Itoa(n) + "juels", m) <==> m == n
    ensures LinkReads(Itoa(n) + " " + "juels", m) <==> m == n
  {
    JuelsRead(n, m);
    ItoaEnds(n);
    ParseItoa(n);
    JuelsTrimmed(Itoa(n));
    NoLinkSuffix(Itoa(n));
    NoLinkSuffix(Itoa(n) + " ");
  }

  /** A number of LINK is read as 10^18 times as many juels, if that is an integer. */
  lemma LinkFormsRead(t: string, d: Decimal, m: int)
    requires EndsNumber(t) && FromString(t) == Some(d) && d.exp + 18 <= 0x7FFF_FFFF
    ensures LinkReads(t + "link", m) <==> Denotes(Scale(d, 18), m)
    ensures LinkReads(t + " " + "link", m) <==> Denotes(Scale(d, 18), m)
  {
    TrimsEnd(t, "link");
    TrimsEnd(t + " ", "link");
    TrimsEnd(t, " ");
    NotTrimmed(t);
  }

  lemma LinkIntegerReads(n: int, m: int)
    ensures LinkReads(Itoa(n) + " " + "link", m) <==> m == n * 1_000_000_000_000_000_000
  {
    var d := Decimal(n, 0);
    ReadInteger(n);
    ItoaEnds(n);
    LinkFormsRead(Itoa(n), d, m);
    TimesOne(n, 0);
    ScaleDenotes(d, 18, n);
    DenotesOne(Scale(d, 18), n * Pow10(18), m);
    Thousands();
  }

  /** ETH is printed with exactly 18 places, which are the rest by 10^18. */
  lemma EthForm(n: int, whole: string) returns (fraction: string)
    requires whole == Digits(Quotient(Abs(n), Pow10(18)))
    ensures EthText(n) == Sign(n) + (whole + "." + fraction)
    ensures |fraction| == 18 && AllDigits(fraction) && Number(fraction) == Abs(n) % Pow10(18)
  {
    fraction := FractionPart(Abs(n), 18);
    WholeIsQuotient(Abs(n), 18);
    RestDigits(Abs(n), 18);
  }

  /** A number of ETH is read as 10^18 times as many wei, and what is below one wei is dropped, towards zero. */
  lemma EthReads(s: string, v: int, places: nat, n: int)
    requires FromString(s) == Some(Decimal(v, 0 - places))
    ensures EthValue(s) == Some(n) <==>
            && Abs(n) * Pow10(places) <= Abs(v) * Pow10(18) < (Abs(n) + 1) * Pow10(places)
            && (n != 0 ==> (n < 0 <==> v < 0))
  {
    EthTruncates(v, Pow10(18), places, n);
  }

  lemma EthTruncates(v: int, unit: nat, places: nat, n: int)
    requires unit > 0
    ensures BigInt(Decimal(v * unit, 0 - places)) == n <==>
            && Abs(n) * Pow10(places) <= Abs(v) * unit < (Abs(n) + 1) * Pow10(places)
            && (n != 0 ==> (n < 0 <==> v < 0))
  {
    SignOfProduct(v, unit);
    Truncated(v * unit, Pow10(places), places, n);
  }

  lemma Truncated(w: int, p: nat, places: nat, n: int)
    requires p == Pow10(places)
    ensures BigInt(Decimal(w, 0 - places)) == n <==>
            Abs(n) * p <= Abs(w) < (Abs(n) + 1) * p && (n != 0 ==> (n < 0 <==> w < 0))
  {
    var q: int := Quotient(Abs(w), p);
    assert BigInt(Decimal(w, 0 - places)) == if w < 0 then 0 - q else q;
    QuotientIff(Abs(w), p, Abs(n));
  }

  lemma QuotientIff(a: nat, p: nat, m: nat)
    requires p > 0
    ensures Quotient(a, p) == m <==> m * p <= a < (m + 1) * p
  {
    var r := a - m * p;
    MulAddRight(m, 1, p);
    if m * p <= a < (m + 1) * p {
      DivUnique(a, p, m, r);
    }
  }
}
