/** Decimal digit strings and powers of ten, as big.Int prints and reads them. */
module DecimalDigits {
  import opened Wrappers

  function Pow10(k: nat): (r: nat)
    ensures r > 0
  {
    if k == 0 then 1 else 10 * Pow10(k - 1)
  }

  lemma MulAssoc(a: int, b: int, c: int)
    ensures (a * b) * c == a * (b * c)
  {
  }

  lemma MulSub(m: int, a: int, b: int)
    ensures m * (a - b) == m * a - m * b
  {
  }

  lemma MulAtLeast(m: nat, d: int)
    requires d >= 1
    ensures m * d >= m
  {
    MulSub(m, d, 1);
  }

  /** Division is the only way to split n into a multiple of m and a rest below m. */
  lemma DivUnique(n: nat, m: nat, q: nat, r: nat)
    requires m > 0 && n == m * q + r && r < m
    ensures n / m == q && n % m == r
  {
    var a, b := n / m, n % m;
    assert n == m * a + b;
    MulSub(m, a, q);
    if a > q {
      MulAtLeast(m, a - q);
    } else if a < q {
      MulSub(m, q, a);
      MulAtLeast(m, q - a);
    }
  }

  function Quotient(n: nat, m: nat): nat
    requires m > 0
  {
    n / m
  }

  lemma DivDiv(n: nat, m: nat)
    requires m > 0
    ensures Quotient(n / 10, m) == Quotient(n, 10 * m)
  {
    var q, r := n / 10, n % 10;
    var a, b := q / m, q % m;
    assert q == m * a + b;
    MulAssoc(10, m, a);
    DivUnique(n, 10 * m, a, 10 * b + r);
  }

  lemma {:induction false} Pow10Add(a: nat, b: nat)
    ensures Pow10(a + b) == Pow10(a) * Pow10(b)
  {
    if a == 0 {
    } else {
      Pow10Add(a - 1, b);
      assert 10 * (Pow10(a - 1) * Pow10(b)) == (10 * Pow10(a - 1)) * Pow10(b);
    }
  }

  lemma {:induction false} Pow10Mono(a: nat, b: nat)
    requires a <= b
    ensures Pow10(a) <= Pow10(b)
  {
    if a == b {
    } else {
      Pow10Mono(a, b - 1);
    }
  }

  predicate IsDigit(c: char) {
    '0' <= c <= '9'
  }

  predicate AllDigits(s: string) {
    forall i | 0 <= i < |s| :: IsDigit(s[i])
  }

  function DigitOf(c: char): (d: nat)
    requires IsDigit(c)
    ensures d < 10
  {
    (c - '0') as nat
  }

  function CharOf(d: nat): (c: char)
    requires d < 10
    ensures IsDigit(c) && DigitOf(c) == d
  {
    '0' + d as char
  }

  /** The number a digit string stands for; leading zeros do not matter, and no digits stand for 0. */
  function Number(s: string): nat
    requires AllDigits(s)
  {
    if s == "" then 0 else Number(s[..|s| - 1]) * 10 + DigitOf(s[|s| - 1])
  }

  /** The digits of n, without leading zeros. */
  function Digits(n: nat): (s: string)
    ensures s != "" && AllDigits(s)
  {
    if n < 10 then [CharOf(n)] else Digits(n / 10) + [CharOf(n % 10)]
  }

  function Zeros(k: nat): (s: string)
    ensures |s| == k && AllDigits(s) && forall i | 0 <= i < k :: s[i] == '0'
  {
    seq(k, _ => '0')
  }

  lemma {:induction false} NumberOfDigits(n: nat)
    ensures Number(Digits(n)) == n
  {
    if n < 10 {
      assert [CharOf(n)][..0] == "";
    } else {
      NumberOfDigits(n / 10);
      assert Digits(n)[..|Digits(n)| - 1] == Digits(n / 10);
    }
  }

  lemma {:induction false} DigitsSize(n: nat)
    ensures n < Pow10(|Digits(n)|)
    ensures n > 0 ==> Pow10(|Digits(n)| - 1) <= n
  {
    if n < 10 {
    } else {
      DigitsSize(n / 10);
    }
  }

  lemma {:induction false} NumberAppend(a: string, b: string)
    requires AllDigits(a) && AllDigits(b)
    ensures AllDigits(a + b)
    ensures Number(a + b) == Number(a) * Pow10(|b|) + Number(b)
  {
    if b == "" {
      assert a + b == a;
    } else {
      var c := b[..|b| - 1];
      NumberAppend(a, c);
      assert (a + b)[..|a + b| - 1] == a + c;
      OneMoreDigit(Number(a), Pow10(|c|), Number(c), DigitOf(b[|b| - 1]));
    }
  }

  lemma OneMoreDigit(n: nat, p: nat, m: nat, d: nat)
    ensures (n * p + m) * 10 + d == n * (10 * p) + (m * 10 + d)
  {
    MulAssoc(n, 10, p);
    MulAssoc(10, n, p);
  }

  lemma {:induction false} NumberZeros(k: nat)
    ensures Number(Zeros(k)) == 0
  {
    if k == 0 {
    } else {
      NumberZeros(k - 1);
      assert Zeros(k)[..k - 1] == Zeros(k - 1);
    }
  }

  lemma {:induction false} NumberBelow(s: string)
    requires AllDigits(s)
    ensures Number(s) < Pow10(|s|)
  {
    if s == "" {
    } else {
      NumberBelow(s[..|s| - 1]);
    }
  }

  /** An integer in base 10: an optional sign and at least one digit. */
  function ParseInteger(s: string): Option<int> {
    var tail := if s == "" then "" else s[1..];
    if s != "" && AllDigits(s) then Some(Number(s) as int)
    else if tail != "" && s[0] == '-' && AllDigits(tail) then Some(0 - Number(tail) as int)
    else if tail != "" && s[0] == '+' && AllDigits(tail) then Some(Number(tail) as int)
    else None
  }

  function Itoa(n: int): string {
    if n < 0 then "-" + Digits(-n) else Digits(n)
  }

  lemma ParseItoa(n: int)
    ensures ParseInteger(Itoa(n)) == Some(n)
  {
    NumberOfDigits(if n < 0 then -n else n);
    if n < 0 {
      assert Itoa(n)[1..] == Digits(-n);
      assert !IsDigit(Itoa(n)[0]);
    }
  }

  /** Digits are written with the usual characters, the most significant one first. */
  lemma DigitsAsWritten(d: nat)
    requires d < 10
    ensures Digits(d) == ["0123456789"[d]] && Number(["0123456789"[d]]) == d
    ensures Itoa(-120) == "-120"
  {
    var s := ["0123456789"[d]];
    assert s[..0] == "";
    assert Digits(12) == "12";
  }
}
