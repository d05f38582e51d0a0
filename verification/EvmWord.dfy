/** 32-byte EVM words and length-prefixed byte strings (core/utils/ethabi.go, core/utils/utils.go). */
module EvmWord {
  import opened Wrappers

  type Byte = x: int | 0 <= x < 256

  const WORD_LEN := 32
  const TWO_64 := 0x1_0000_0000_0000_0000

  function Abs(n: int): nat {
    if n < 0 then -n else n
  }

  // ----- Powers and big-endian values -----

  function Pow2(k: nat): (r: int)
    ensures r > 0
  {
    if k == 0 then 1 else 2 * Pow2(k - 1)
  }

  function Pow256(k: nat): (r: nat)
    ensures r > 0
  {
    if k == 0 then 1 else 256 * Pow256(k - 1)
  }

  lemma {:induction false} Pow256Grows(a: nat, b: nat)
    requires a <= b
    ensures Pow256(a) <= Pow256(b)
  {
    if a == b {
    } else {
      Pow256Grows(a, b - 1);
    }
  }

  lemma {:induction false} Pow2Add(a: nat, b: nat)
    ensures Pow2(a + b) == Pow2(a) * Pow2(b)
  {
    if a == 0 {
    } else {
      Pow2Add(a - 1, b);
      assert 2 * (Pow2(a - 1) * Pow2(b)) == (2 * Pow2(a - 1)) * Pow2(b);
    }
  }

  lemma {:induction false} Pow256IsPow2(k: nat)
    ensures Pow256(k) == Pow2(8 * k)
  {
    if k == 0 {
    } else {
      Pow256IsPow2(k - 1);
      Pow2Add(8, 8 * (k - 1));
      assert Pow2(8) == 256;
    }
  }

  /** The number a byte string stands for, most significant byte first. */
  function Value(bs: seq<Byte>): nat {
    if bs == [] then 0 else Value(bs[..|bs| - 1]) * 256 + bs[|bs| - 1]
  }

  function Zeros(k: nat): seq<Byte> {
    seq(k, _ => 0)
  }

  /** big.Int's Bytes: the absolute value, without leading zeros. */
  function Bytes(n: nat): seq<Byte> {
    if n == 0 then [] else Bytes(n / 256) + [n % 256]
  }

  function BitLen(n: nat): nat {
    if n == 0 then 0 else 1 + BitLen(n / 2)
  }

  function LeftPad(bs: seq<Byte>, l: nat): seq<Byte> {
    if l <= |bs| then bs else Zeros(l - |bs|) + bs
  }

  lemma {:induction false} BitLenBound(n: nat, k: nat)
    ensures BitLen(n) <= k <==> n < Pow2(k)
  {
    if n == 0 || k == 0 {
    } else {
      BitLenBound(n / 2, k - 1);
    }
  }

  lemma {:induction false} BytesValue(n: nat)
    ensures Value(Bytes(n)) == n
  {
    if n == 0 {
    } else {
      BytesValue(n / 256);
      assert Bytes(n)[..|Bytes(n)| - 1] == Bytes(n / 256);
    }
  }

  lemma {:induction false} BytesSize(n: nat, k: nat)
    ensures |Bytes(n)| <= k <==> n < Pow256(k)
  {
    if n == 0 || k == 0 {
    } else {
      BytesSize(n / 256, k - 1);
    }
  }

  lemma {:induction false} PaddedValue(k: nat, bs: seq<Byte>)
    ensures Value(Zeros(k) + bs) == Value(bs)
    decreases k + |bs|
  {
    if bs != [] {
      PaddedValue(k, bs[..|bs| - 1]);
      assert (Zeros(k) + bs)[..k + |bs| - 1] == Zeros(k) + bs[..|bs| - 1];
    } else if k > 0 {
      PaddedValue(k - 1, []);
      assert Zeros(k) + [] == Zeros(k);
      assert Zeros(k)[..k - 1] == Zeros(k - 1) + [];
    }
  }

  lemma {:induction false} ValueBelow(bs: seq<Byte>)
    ensures Value(bs) < Pow256(|bs|)
  {
    if bs == [] {
    } else {
      ValueBelow(bs[..|bs| - 1]);
    }
  }

  /** Equal lengths and equal values mean equal bytes. */
  lemma {:induction false} ValueInjective(a: seq<Byte>, b: seq<Byte>)
    requires |a| == |b| && Value(a) == Value(b)
    ensures a == b
  {
    if a == [] {
    } else {
      var n := |a| - 1;
      ValueInjective(a[..n], b[..n]);
      assert a == a[..n] + [a[n]] && b == b[..n] + [b[n]];
    }
  }

  // ----- Words -----

  /** The 32 bytes that stand for n. */
  function WordOf(n: nat): seq<Byte> {
    LeftPad(Bytes(n), WORD_LEN)
  }

  lemma WordIs(n: nat)
    ensures Value(WordOf(n)) == n
    ensures |WordOf(n)| == WORD_LEN <==> n < Pow256(WORD_LEN)
  {
    BytesValue(n);
    BytesSize(n, WORD_LEN);
    if |Bytes(n)| < WORD_LEN {
      PaddedValue(WORD_LEN - |Bytes(n)|, Bytes(n));
    }
  }

  lemma WordUnique(bs: seq<Byte>)
    requires |bs| == WORD_LEN
    ensures bs == WordOf(Value(bs))
  {
    ValueBelow(bs);
    WordIs(Value(bs));
    ValueInjective(bs, WordOf(Value(bs)));
  }

  /** The last `size` bytes of a zero word, filled with the bytes of val. */
  method FillWord(val: nat, size: nat) returns (word: array<Byte>)
    requires size <= WORD_LEN && val < Pow256(size)
    ensures fresh(word) && word[..] == WordOf(val)
  {
    word := new Byte[WORD_LEN](_ => 0);
    var rest, i := val, 0;
    ghost var tail: seq<Byte> := [];
    while i < size
      invariant i <= size && word.Length == WORD_LEN
      invariant word[..] == Zeros(WORD_LEN - i) + tail
      invariant Remains(val, size, i, tail, rest)
    {
      word[WORD_LEN - 1 - i] := rest % 256;
      TakeByte(val, size, i, tail, rest);
      tail := [rest % 256] + tail;
      rest := rest / 256;
      i := i + 1;
    }
    NothingRemains(val, size, tail, rest);
  }

  /** i bytes have been taken off val; `rest` is what they leave. */
  ghost predicate Remains(val: nat, size: nat, i: nat, tail: seq<Byte>, rest: nat) {
    i <= size && |tail| == i && rest < Pow256(size - i) && Value(tail) + rest * Pow256(i) == val
  }

  lemma TakeByte(val: nat, size: nat, i: nat, tail: seq<Byte>, rest: nat)
    requires i < size && Remains(val, size, i, tail, rest)
    ensures Remains(val, size, i + 1, [rest % 256] + tail, rest / 256)
  {
    PrependValue(rest % 256, tail);
    ShiftOut(rest, Pow256(i), Value(tail), val);
  }

  lemma NothingRemains(val: nat, size: nat, tail: seq<Byte>, rest: nat)
    requires size <= WORD_LEN && Remains(val, size, size, tail, rest)
    ensures Zeros(WORD_LEN - size) + tail == WordOf(val)
  {
    assert rest == 0;
    PaddedValue(WORD_LEN - size, tail);
    WordUnique(Zeros(WORD_LEN - size) + tail);
  }

  lemma {:induction false} PrependValue(b: Byte, bs: seq<Byte>)
    ensures Value([b] + bs) == b * Pow256(|bs|) + Value(bs)
  {
    if bs == [] {
      assert ([b] + bs)[..0] == [];
    } else {
      var n := |bs| - 1;
      PrependValue(b, bs[..n]);
      assert ([b] + bs)[..n + 1] == [b] + bs[..n];
    }
  }

  lemma ShiftOut(rest: nat, p: nat, low: nat, val: nat)
    requires low + rest * p == val
    ensures (rest % 256) * p + low + (rest / 256) * (256 * p) == val
  {
    var q, r := rest / 256, rest % 256;
    assert rest * p == (256 * q + r) * p == q * (256 * p) + r * p;
  }

  datatype Error = Overflow | Negative | Panicked

  method EVMWordUint64(val: nat) returns (word: array<Byte>)
    requires val < TWO_64
    ensures fresh(word) && word[..] == WordOf(val)
  {
    Pow256IsPow2(8);
    Constants();
    word := FillWord(val, 8);
  }

  method EVMWordUint32(val: nat) returns (word: array<Byte>)
    requires val < 0x1_0000_0000
    ensures fresh(word) && word[..] == WordOf(val)
  {
    Constants();
    word := FillWord(val, 4);
  }

  lemma Constants()
    ensures Pow256(4) == 0x1_0000_0000 && Pow256(8) == TWO_64 && Pow2(64) == TWO_64
    ensures Pow256(32) == Pow2(256) == 2 * Pow2(255) && Pow2(255) > 0
  {
    assert Pow256(4) == 0x1_0000_0000;
    assert Pow256(8) == 256 * 256 * 256 * 256 * Pow256(4);
    Pow256IsPow2(8);
    Pow256IsPow2(32);
  }

  function EVMWordUint128(val: int): Result<seq<Byte>, Error> {
    if BitLen(Abs(val)) > 128 then Err(Overflow)
    else if val < 0 then Err(Negative)
    else Ok(LeftPad(Bytes(Abs(val)), WORD_LEN))
  }

  /** Two's complement of a negative value: add 2^256 - 1, then 1. */
  function EVMWordSignedBigInt(val: int): Result<seq<Byte>, Error> {
    if BitLen(Abs(val)) > 8 * WORD_LEN - 1 then Err(Overflow)
    else if val < 0 then Ok(LeftPad(Bytes(Abs(val + (Pow2(256) - 1) + 1)), WORD_LEN))
    else Ok(LeftPad(Bytes(Abs(val)), WORD_LEN))
  }

  function EVMWordBigInt(val: int): Result<seq<Byte>, Error> {
    if val < 0 then Err(Negative)
    else if |Bytes(Abs(val))| > WORD_LEN then Err(Overflow)
    else Ok(LeftPad(Bytes(Abs(val)), WORD_LEN))
  }

  function Uint256ToBytes(x: int): Result<seq<Byte>, Error> {
    if x > Pow2(256) - 1 then Err(Overflow)
    else
      var bs := LeftPad(Bytes(Abs(x)), WORD_LEN);
      if x != Value(bs) then Err(Panicked) else Ok(bs)
  }

  function Uint256ToBytes32(n: int): Result<seq<Byte>, Error> {
    if BitLen(Abs(n)) > 256 then Err(Panicked) else Ok(LeftPad(Bytes(Abs(n)), WORD_LEN))
  }

  /** The number a word stands for when its first bit is the sign. */
  function SignedValue(bs: seq<Byte>): int
    requires |bs| == WORD_LEN
  {
    if bs[0] >= 128 then Value(bs) - Pow2(256) else Value(bs)
  }

  lemma HalfOfRange()
    ensures Pow2(255) == 128 * Pow256(31)
  {
    Pow256IsPow2(31);
    Pow2Add(7, 248);
    assert Pow2(7) == 128;
  }

  lemma FirstByte(bs: seq<Byte>)
    requires |bs| == WORD_LEN
    ensures Value(bs) == bs[0] * Pow256(31) + Value(bs[1..]) && Value(bs[1..]) < Pow256(31)
  {
    assert bs == [bs[0]] + bs[1..];
    PrependValue(bs[0], bs[1..]);
    ValueBelow(bs[1..]);
  }

  /** The first byte of a word tells on which side of 2^255 its value is. */
  lemma SignBit(bs: seq<Byte>)
    requires |bs| == WORD_LEN
    ensures bs[0] >= 128 <==> Value(bs) >= Pow2(255)
  {
    HalfOfRange();
    FirstByte(bs);
    HalfRange(bs[0], Pow256(31), Value(bs[1..]), Pow2(255), Value(bs));
  }

  lemma HalfRange(b: nat, p: nat, low: nat, half: nat, value: nat)
    requires low < p && half == 128 * p && value == b * p + low
    ensures b >= 128 <==> value >= half
  {
    if b < 128 {
      MulGap(b, 128, p);
    } else if b > 128 {
      MulGap(128, b, p);
    }
  }

  /** A larger factor gives at least one p more. */
  lemma {:induction false} MulGap(a: nat, b: nat, p: nat)
    requires a < b
    ensures a * p + p <= b * p
    decreases b
  {
    OneMore(b - 1, p);
    if a + 1 == b {
    } else {
      MulGap(a, b - 1, p);
    }
  }

  lemma OneMore(a: nat, p: nat)
    ensures (a + 1) * p == a * p + p
  {
  }

  /** The signed encoder accepts exactly the integers strictly between -2^255 and 2^255, and two's-complement
      decoding of its 32 bytes gives the integer back. */
  lemma SignedWords(val: int)
    ensures EVMWordSignedBigInt(val).Ok? <==> -Pow2(255) < val < Pow2(255)
    ensures EVMWordSignedBigInt(val).Ok? ==>
              var word := EVMWordSignedBigInt(val).value;
              |word| == WORD_LEN && SignedValue(word) == val
  {
    BitLenBound(Abs(val), 255);
    Constants();
    if EVMWordSignedBigInt(val).Ok? {
      var m: nat := if val < 0 then val + Pow2(256) else val;
      WordIs(m);
      SignBit(WordOf(m));
    }
  }

  predicate IsWordFor(bs: seq<Byte>, val: int) {
    |bs| == WORD_LEN && Value(bs) == val
  }

  lemma PaddedIsWord(n: nat)
    requires n < Pow256(WORD_LEN)
    ensures IsWordFor(LeftPad(Bytes(n), WORD_LEN), n)
  {
    WordIs(n);
  }

  /** Each unsigned encoder accepts exactly its range, and its 32 bytes have the value encoded. */
  lemma Uint128Words(val: int)
    ensures EVMWordUint128(val).Ok? <==> 0 <= val < Pow2(128)
    ensures EVMWordUint128(val).Ok? ==> IsWordFor(EVMWordUint128(val).value, val)
  {
    BitLenBound(Abs(val), 128);
    if 0 <= val < Pow2(128) {
      Pow256IsPow2(16);
      Pow256Grows(16, WORD_LEN);
      PaddedIsWord(val);
    }
  }

  lemma UnsignedWords(val: int)
    ensures EVMWordBigInt(val).Ok? <==> 0 <= val < Pow2(256)
    ensures EVMWordBigInt(val).Ok? ==> IsWordFor(EVMWordBigInt(val).value, val)
    ensures Uint256ToBytes(val).Ok? <==> 0 <= val < Pow2(256)
    ensures Uint256ToBytes(val).Ok? ==> IsWordFor(Uint256ToBytes(val).value, val)
    ensures Uint256ToBytes(val) == Err(Panicked) <==> val < 0
  {
    BigIntWord(val);
    Uint256Word(val);
  }

  lemma BigIntWord(val: int)
    ensures EVMWordBigInt(val).Ok? <==> 0 <= val < Pow2(256)
    ensures EVMWordBigInt(val).Ok? ==> IsWordFor(EVMWordBigInt(val).value, val)
  {
    Pow256IsPow2(WORD_LEN);
    BytesSize(Abs(val), WORD_LEN);
    if 0 <= val < Pow2(256) {
      PaddedIsWord(val);
    }
  }

  lemma Uint256Word(val: int)
    ensures Uint256ToBytes(val).Ok? <==> 0 <= val < Pow2(256)
    ensures Uint256ToBytes(val).Ok? ==> IsWordFor(Uint256ToBytes(val).value, val)
    ensures Uint256ToBytes(val) == Err(Panicked) <==> val < 0
  {
    Pow256IsPow2(WORD_LEN);
    if 0 <= val < Pow2(256) {
      PaddedIsWord(val);
    }
  }

  /** For 128 bits, too large is reported before negative. */
  lemma Uint128Refuses(val: int)
    ensures EVMWordUint128(val).Err? ==>
              EVMWordUint128(val).error == if Abs(val) >= Pow2(128) then Overflow else Negative
  {
    BitLenBound(Abs(val), 128);
  }

  /** For 256 bits a negative number is told apart from one that is too large; the signed encoder knows only the
      latter. */
  lemma WordErrors(val: int)
    ensures EVMWordSignedBigInt(val).Err? ==> EVMWordSignedBigInt(val) == Err(Overflow)
    ensures EVMWordBigInt(val).Err? ==> EVMWordBigInt(val) == Err(if val < 0 then Negative else Overflow)
    ensures Uint256ToBytes(val).Err? ==> Uint256ToBytes(val) == Err(if val < 0 then Panicked else Overflow)
  {
    Uint256Refuses(val);
  }

  lemma Uint256Refuses(val: int)
    ensures Uint256ToBytes(val).Err? ==> Uint256ToBytes(val) == Err(if val < 0 then Panicked else Overflow)
  {
    Uint256Word(val);
  }

  /** Where the ranges of two encoders overlap they give the same word: a word is determined by its value. */
  lemma EncodersAgree(val: int)
    requires 0 <= val < Pow2(256)
    ensures EVMWordBigInt(val) == Uint256ToBytes(val) == Uint256ToBytes32(val) == Ok(WordOf(val))
    ensures EVMWordUint128(val).Ok? ==> EVMWordUint128(val) == Ok(WordOf(val))
    ensures EVMWordSignedBigInt(val).Ok? ==> EVMWordSignedBigInt(val) == Ok(WordOf(val))
  {
    UnsignedWords(val);
    BitLenBound(val, 256);
  }

  /** Uint256ToBytes32 does not look at the sign: what it encodes is the argument exactly when that is not negative. */
  lemma Uint256ToBytes32Sign(n: int)
    ensures Uint256ToBytes32(n).Ok? <==> -Pow2(256) < n < Pow2(256)
    ensures Uint256ToBytes32(n).Ok? ==> IsWordFor(Uint256ToBytes32(n).value, Abs(n))
    ensures Uint256ToBytes32(n).Ok? ==> (IsWordFor(Uint256ToBytes32(n).value, n) <==> n >= 0)
  {
    BitLenBound(Abs(n), 256);
    Constants();
    WordIs(Abs(n));
  }

  // ----- Order -----

  /** Byte-wise comparison, first difference first. */
  predicate BytesLess(a: seq<Byte>, b: seq<Byte>)
    requires |a| == |b|
  {
    a != [] && (a[0] < b[0] || (a[0] == b[0] && BytesLess(a[1..], b[1..])))
  }

  lemma {:induction false} LessIsLess(a: seq<Byte>, b: seq<Byte>)
    requires |a| == |b|
    ensures BytesLess(a, b) <==> Value(a) < Value(b)
  {
    if a == [] {
    } else {
      var n := |a| - 1;
      assert a == [a[0]] + a[1..] && b == [b[0]] + b[1..];
      PrependValue(a[0], a[1..]);
      PrependValue(b[0], b[1..]);
      ValueBelow(a[1..]);
      ValueBelow(b[1..]);
      LessIsLess(a[1..], b[1..]);
      LeadingDigit(a[0], b[0], Pow256(n), Value(a[1..]), Value(b[1..]));
    }
  }

  lemma LeadingDigit(a: nat, b: nat, p: nat, x: nat, y: nat)
    requires x < p && y < p
    ensures a * p + x < b * p + y <==> a < b || (a == b && x < y)
  {
    if a < b {
      MulGap(a, b, p);
    } else if a > b {
      MulGap(b, a, p);
    }
  }

  /** Words are ordered byte-wise as the numbers they stand for. */
  lemma WordsKeepOrder(v: nat, w: nat)
    requires v < Pow256(WORD_LEN) && w < Pow256(WORD_LEN)
    ensures |WordOf(v)| == |WordOf(w)| == WORD_LEN
    ensures BytesLess(WordOf(v), WordOf(w)) <==> v < w
  {
    WordIs(v);
    WordIs(w);
    LessIsLess(WordOf(v), WordOf(w));
  }

  lemma ModShift(n: nat, q: nat)
    ensures (n + TWO_64 * q) % TWO_64 == n % TWO_64
  {
  }

  lemma ShiftAdd(v: nat, b: Byte)
    ensures ((v % TWO_64) * 256 % TWO_64 + b) % TWO_64 == (v * 256 + b) % TWO_64
  {
    var shifted := (v % TWO_64) * 256;
    ModShift(shifted % TWO_64 + b, shifted / TWO_64);
    ModShift(shifted + b, 256 * (v / TWO_64));
  }

  /** The shift-and-add loop keeps the value modulo 2^64, for a buffer of any length. */
  method EVMBytesToUint64(buf: seq<Byte>) returns (result: nat)
    ensures result == Value(buf) % TWO_64
  {
    result := 0;
    var i := 0;
    while i < |buf|
      invariant i <= |buf| && result == Value(buf[..i]) % TWO_64
    {
      assert buf[..i + 1][..i] == buf[..i];
      ShiftAdd(Value(buf[..i]), buf[i]);
      result := (result * 256 % TWO_64 + buf[i]) % TWO_64;
      i := i + 1;
    }
    assert buf[..|buf|] == buf;
  }

  // ----- Length-prefixed bytes -----

  function RoundToEVMWordBorder(length: nat): nat {
    var mod := length % WORD_LEN;
    if mod == 0 then 0 else WORD_LEN - mod
  }

  /** The length as a 64-bit word, the bytes, and zeros up to the next word border. */
  function EVMEncodeBytes(input: seq<Byte>): seq<Byte> {
    WordOf(|input| % TWO_64) + input + Zeros(RoundToEVMWordBorder(|input|))
  }

  /** A reader that knows nothing but the length word: the bytes, and what follows their padding. */
  function DecodeBytes(s: seq<Byte>): Option<(seq<Byte>, seq<Byte>)> {
    if |s| < WORD_LEN then None else
    var n := Value(s[..WORD_LEN]);
    var end := WORD_LEN + n + RoundToEVMWordBorder(n);
    if |s| < end then None else Some((s[WORD_LEN..WORD_LEN + n], s[end..]))
  }

  /** Whole words, and the shortest padding that gives them. */
  lemma EncodedSize(input: seq<Byte>)
    ensures |EVMEncodeBytes(input)| % WORD_LEN == 0
    ensures WORD_LEN + |input| <= |EVMEncodeBytes(input)| < 2 * WORD_LEN + |input|
    ensures EVMEncodeBytes(input)[WORD_LEN + |input|..] == Zeros(|EVMEncodeBytes(input)| - WORD_LEN - |input|)
  {
    WordSize(|input| % TWO_64);
  }

  lemma WordSize(n: nat)
    requires n < TWO_64
    ensures |WordOf(n)| == WORD_LEN && Value(WordOf(n)) == n
  {
    Constants();
    Pow256Grows(8, WORD_LEN);
    WordIs(n);
  }

  /** The code is self-delimiting: whatever follows it, decoding gives the input and the rest. */
  lemma DecodeEncode(input: seq<Byte>, rest: seq<Byte>)
    requires |input| < TWO_64
    ensures DecodeBytes(EVMEncodeBytes(input) + rest) == Some((input, rest))
  {
    WordSize(|input|);
    Sections(WordOf(|input|), input, Zeros(RoundToEVMWordBorder(|input|)), rest);
  }

  lemma Sections(head: seq<Byte>, body: seq<Byte>, pad: seq<Byte>, rest: seq<Byte>)
    ensures var s := (head + body + pad) + rest;
      && s[..|head|] == head && s[|head|..|head| + |body|] == body && s[|head| + |body| + |pad|..] == rest
  {
  }

  /** No encoding begins another one. */
  lemma PrefixFree(a: seq<Byte>, b: seq<Byte>)
    requires |a| < TWO_64 && |b| < TWO_64
    requires EVMEncodeBytes(a) <= EVMEncodeBytes(b)
    ensures a == b
  {
    var rest := EVMEncodeBytes(b)[|EVMEncodeBytes(a)|..];
    assert EVMEncodeBytes(b) == EVMEncodeBytes(a) + rest;
    assert EVMEncodeBytes(b) == EVMEncodeBytes(b) + [];
    DecodeEncode(a, rest);
    DecodeEncode(b, []);
  }
}
