/** Bytes, decimal numbers in text, and UTF-8, as far as keys and wire formats need them. */
module Text {
  import opened Common

  type byte = b: nat | b < 256

  type Bytes = seq<byte>

  const I64_MAX: int := 0x7FFF_FFFF_FFFF_FFFF

  // ---- decimal text ----

  function Digit(d: nat): byte
    requires d < 10
  {
    48 + d
  }

  /** Decimal text of a natural number, without leading zeros. */
  function Decimal(n: nat): Bytes {
    if n < 10 then [Digit(n)] else Decimal(n / 10) + [Digit(n % 10)]
  }

  function DecimalInt(n: int): Bytes {
    if n < 0 then [45] + Decimal(-n) else Decimal(n)
  }

  predicate AllDigits(text: Bytes) {
    forall i | 0 <= i < |text| :: 48 <= text[i] <= 57
  }

  function DigitsValue(text: Bytes): nat
    requires AllDigits(text)
  {
    if text == [] then 0 else 10 * DigitsValue(text[..|text| - 1]) + (text[|text| - 1] - 48)
  }

  /** Text of an unsigned number: an optional plus sign and at least one digit. */
  function ParseDigits(text: Bytes): Option<nat> {
    var digits := if text != [] && text[0] == 43 then text[1..] else text;
    if digits == [] || !AllDigits(digits) then None else Some(DigitsValue(digits))
  }

  function ParseU64(text: Bytes): Option<nat> {
    match ParseDigits(text)
    case Some(n) => if n <= U64_MAX then Some(n) else None
    case None => None
  }

  function ParseI64(text: Bytes): Option<int> {
    if text != [] && text[0] == 45 then
      if text[1..] == [] || !AllDigits(text[1..]) then None
      else
        var magnitude: int := DigitsValue(text[1..]);
        if magnitude <= I64_MAX + 1 then Some(-magnitude) else None
    else
      match ParseDigits(text)
      case Some(n) => if n <= I64_MAX then Some(n) else None
      case None => None
  }

  lemma {:induction false} DecimalParses(n: nat)
    ensures Decimal(n) != [] && AllDigits(Decimal(n))
    ensures DigitsValue(Decimal(n)) == n
  {
    if n >= 10 {
      DecimalParses(n / 10);
      assert Decimal(n)[..|Decimal(n)| - 1] == Decimal(n / 10);
    }
  }

  lemma ParsePrintedNat(n: nat)
    ensures ParseDigits(Decimal(n)) == Some(n)
    ensures Decimal(n) != [] && Decimal(n)[0] != 45
  {
    DecimalParses(n);
  }

  /** Printing and parsing agree on every number the width can hold, and only on those. */
  lemma ParsePrinted(n: int)
    ensures ParseI64(DecimalInt(n)) == if -I64_MAX - 1 <= n <= I64_MAX then Some(n) else None
    ensures n >= 0 ==> ParseU64(DecimalInt(n)) == if n <= U64_MAX then Some(n) else None
  {
    if n >= 0 {
      ParsePrintedNat(n);
    } else {
      DecimalParses(-n);
      assert DecimalInt(n)[1..] == Decimal(-n);
    }
  }

  /** Decimal text of `n`, possibly behind further zeros. */
  predicate Numeral(text: Bytes, n: nat) {
    exists k | 0 <= k <= |text| :: (forall i | 0 <= i < k :: text[i] == 48) && text[k..] == Decimal(n)
  }

  predicate UnsignedNumeral(text: Bytes, n: nat) {
    Numeral(text, n) || (text != [] && text[0] == 43 && Numeral(text[1..], n))
  }

  lemma OneDigit(d: nat)
    requires d < 10
    ensures Numeral([Digit(d)], d)
  {
    assert [Digit(d)][0..] == Decimal(d);
  }

  lemma DecimalPush(n: nat, d: nat)
    requires d < 10
    ensures Decimal(10 * n + d) == if n == 0 then [Digit(d)] else Decimal(n) + [Digit(d)]
  {
    assert (10 * n + d) / 10 == n && (10 * n + d) % 10 == d;
  }

  lemma NumeralPush(text: Bytes, n: nat, d: nat)
    requires Numeral(text, n) && d < 10
    ensures Numeral(text + [Digit(d)], 10 * n + d)
  {
    var k :| 0 <= k <= |text| && (forall i | 0 <= i < k :: text[i] == 48) && text[k..] == Decimal(n);
    var all := text + [Digit(d)];
    DecimalPush(n, d);
    if n == 0 {
      assert forall i | k <= i < |text| :: text[i] == text[k..][i - k];
      assert all[|text|..] == Decimal(10 * n + d);
    } else {
      assert all[k..] == text[k..] + [Digit(d)];
    }
  }

  lemma {:induction false} DigitsSpell(text: Bytes)
    requires text != [] && AllDigits(text)
    ensures Numeral(text, DigitsValue(text))
  {
    hide Numeral, Decimal;
    var init, last := text[..|text| - 1], text[|text| - 1] - 48;
    assert text == init + [Digit(last)];
    if init == [] {
      OneDigit(last);
      assert text == [Digit(last)] && DigitsValue(text) == last;
    } else {
      DigitsSpell(init);
      NumeralPush(init, DigitsValue(init), last);
    }
  }

  lemma {:induction false} ZerosInFront(text: Bytes, k: nat)
    requires k <= |text| && (forall i | 0 <= i < k :: text[i] == 48) && AllDigits(text[k..])
    ensures AllDigits(text) && DigitsValue(text) == DigitsValue(text[k..])
  {
    assert forall i | k <= i < |text| :: text[i] == text[k..][i - k];
    if text != [] {
      var init := text[..|text| - 1];
      if k < |text| {
        ZerosInFront(init, k);
        assert text[k..][..|text| - k - 1] == init[k..];
      } else {
        ZerosInFront(init, k - 1);
        assert init[k - 1..] == [] == text[k..];
      }
    }
  }

  lemma NumeralReads(text: Bytes, n: nat)
    requires Numeral(text, n)
    ensures text != [] && AllDigits(text) && DigitsValue(text) == n
  {
    var k :| 0 <= k <= |text| && (forall i | 0 <= i < k :: text[i] == 48) && text[k..] == Decimal(n);
    DecimalParses(n);
    ZerosInFront(text, k);
  }

  lemma ParseDigitsExactly(text: Bytes, n: nat)
    ensures ParseDigits(text) == Some(n) <==> UnsignedNumeral(text, n)
  {
    hide Numeral, DigitsValue, Decimal;
    var digits := if text != [] && text[0] == 43 then text[1..] else text;
    if digits != [] && AllDigits(digits) { DigitsSpell(digits); }
    if Numeral(text, n) { NumeralReads(text, n); }
    if text != [] && text[0] == 43 && Numeral(text[1..], n) { NumeralReads(text[1..], n); }
  }

  /** A text reads as a number exactly if it spells that number, and the width can hold it. */
  lemma ParsesExactly(text: Bytes, n: int)
    ensures n >= 0 ==> (ParseU64(text) == Some(n) <==> n <= U64_MAX && UnsignedNumeral(text, n))
    ensures ParseI64(text) == Some(n) <==>
      -I64_MAX - 1 <= n <= I64_MAX && (
        || (n >= 0 && UnsignedNumeral(text, n))
        || (n <= 0 && text != [] && text[0] == 45 && Numeral(text[1..], -n)))
  {
    hide Numeral, DigitsValue, Decimal;
    if n >= 0 { ParseDigitsExactly(text, n); }
    if text != [] && text[0] == 45 {
      if text[1..] != [] && AllDigits(text[1..]) { DigitsSpell(text[1..]); }
      if n <= 0 && Numeral(text[1..], -n) { NumeralReads(text[1..], -n); }
      if n >= 0 && Numeral(text, n) { NumeralReads(text, n); }
    }
  }

  function Pow10(k: nat): nat {
    if k == 0 then 1 else 10 * Pow10(k - 1)
  }

  lemma {:induction false} DecimalLength(n: nat, k: nat)
    requires k > 0 && n < Pow10(k)
    ensures |Decimal(n)| <= k
  {
    if n >= 10 {
      assert k > 1 by { assert Pow10(0) == 1; assert Pow10(1) == 10; }
      DecimalLength(n / 10, k - 1);
    }
  }

  // ---- UTF-8 ----

  predicate Continuation(b: byte) {
    0x80 <= b <= 0xBF
  }

  /** Length of the well-formed UTF-8 sequence at the start of `s`, or 0. */
  function Utf8Length(s: Bytes): (n: nat)
    ensures n <= |s| && n <= 4
  {
    if |s| >= 1 && s[0] < 0x80 then 1
    else if |s| >= 2 && 0xC2 <= s[0] <= 0xDF && Continuation(s[1]) then 2
    else if |s| >= 3 && Continuation(s[1]) && Continuation(s[2])
            && (|| (s[0] == 0xE0 && s[1] >= 0xA0)
                || 0xE1 <= s[0] <= 0xEC
                || (s[0] == 0xED && s[1] <= 0x9F)
                || 0xEE <= s[0] <= 0xEF) then 3
    else if |s| >= 4 && Continuation(s[1]) && Continuation(s[2]) && Continuation(s[3])
            && (|| (s[0] == 0xF0 && s[1] >= 0x90)
                || 0xF1 <= s[0] <= 0xF3
                || (s[0] == 0xF4 && s[1] <= 0x8F)) then 4
    else 0
  }

  predicate IsUtf8(s: Bytes) {
    s == [] || (Utf8Length(s) > 0 && IsUtf8(s[Utf8Length(s)..]))
  }

  predicate IsAscii(s: Bytes) {
    forall i | 0 <= i < |s| :: s[i] < 0x80
  }

  /** The bytes of an ASCII text; other characters become question marks. */
  function Ascii(text: string): (r: Bytes)
    ensures |r| == |text| && IsAscii(r)
  {
    seq(|text|, i requires 0 <= i < |text| => if text[i] < 128 as char then text[i] as int else 63)
  }

  lemma {:induction false} AsciiIsUtf8(s: Bytes)
    requires IsAscii(s)
    ensures IsUtf8(s)
  {
    if s != [] {
      AsciiIsUtf8(s[1..]);
    }
  }

  /** A Unicode scalar value: a code point that is not a surrogate. */
  predicate IsScalar(c: nat) {
    c < 0xD800 || 0xE000 <= c <= 0x10FFFF
  }

  /** The UTF-8 encoding of a scalar value, as RFC 3629, section 3 gives it. */
  function Utf8(c: nat): Bytes
    requires IsScalar(c)
  {
    if c < 0x80 then [c]
    else if c < 0x800 then [0xC0 + c / 64, 0x80 + c % 64]
    else if c < 0x10000 then [0xE0 + c / 4096, 0x80 + c / 64 % 64, 0x80 + c % 64]
    else [0xF0 + c / 262144, 0x80 + c / 4096 % 64, 0x80 + c / 64 % 64, 0x80 + c % 64]
  }

  predicate AllScalars(cs: seq<nat>) {
    forall i | 0 <= i < |cs| :: IsScalar(cs[i])
  }

  function Encoded(cs: seq<nat>): Bytes
    requires AllScalars(cs)
  {
    if cs == [] then [] else Utf8(cs[0]) + Encoded(cs[1..])
  }

  lemma ThreeByteRange(c: nat)
    requires 0x800 <= c < 0x10000 && IsScalar(c)
    ensures c / 4096 <= 15
    ensures c / 4096 == 0 ==> c / 64 % 64 >= 32
    ensures c / 4096 == 13 ==> c / 64 % 64 < 32
  {
    assert c / 64 / 64 == c / 4096;
  }

  lemma FourByteRange(c: nat)
    requires 0x10000 <= c <= 0x10FFFF
    ensures c / 262144 <= 4
    ensures c / 262144 == 0 ==> c / 4096 % 64 >= 16
    ensures c / 262144 == 4 ==> c / 4096 % 64 < 16
  {
    assert c / 4096 / 64 == c / 262144;
  }

  lemma LengthOfThree(a: byte, b: byte, d: byte, rest: Bytes)
    requires 0xE0 <= a <= 0xEF && Continuation(b) && Continuation(d)
    requires (a == 0xE0 ==> b >= 0xA0) && (a == 0xED ==> b <= 0x9F)
    ensures Utf8Length([a, b, d] + rest) == 3
  {
  }

  lemma LengthOfFour(a: byte, b: byte, d: byte, e: byte, rest: Bytes)
    requires 0xF0 <= a <= 0xF4 && Continuation(b) && Continuation(d) && Continuation(e)
    requires (a == 0xF0 ==> b >= 0x90) && (a == 0xF4 ==> b <= 0x8F)
    ensures Utf8Length([a, b, d, e] + rest) == 4
  {
  }

  lemma ScalarLength(c: nat, rest: Bytes)
    requires IsScalar(c)
    ensures Utf8Length(Utf8(c) + rest) == |Utf8(c)| > 0
  {
    if 0x80 <= c < 0x800 {
      assert (Utf8(c) + rest)[0] == 0xC0 + c / 64;
    } else if 0x800 <= c < 0x10000 {
      ThreeByteRange(c);
      LengthOfThree(0xE0 + c / 4096, 0x80 + c / 64 % 64, 0x80 + c % 64, rest);
    } else if 0x10000 <= c {
      FourByteRange(c);
      LengthOfFour(0xF0 + c / 262144, 0x80 + c / 4096 % 64, 0x80 + c / 64 % 64, 0x80 + c % 64, rest);
    }
    hide Utf8Length;
  }

  lemma OneByte(a: int) returns (c: nat)
    requires 0 <= a < 0x80
    ensures IsScalar(c) && Utf8(c) == [a]
  {
    c := a;
  }

  lemma TwoBytes(a: int, b: int) returns (c: nat)
    requires 0xC2 <= a <= 0xDF && 0x80 <= b <= 0xBF
    ensures IsScalar(c) && Utf8(c) == [a, b]
  {
    c := (a - 0xC0) * 64 + (b - 0x80);
    assert c / 64 == a - 0xC0 && c % 64 == b - 0x80;
  }

  lemma ThreeBytes(a: int, b: int, d: int) returns (c: nat)
    requires 0xE0 <= a <= 0xEF && 0x80 <= b <= 0xBF && 0x80 <= d <= 0xBF
    requires (a == 0xE0 ==> b >= 0xA0) && (a == 0xED ==> b <= 0x9F)
    ensures IsScalar(c) && Utf8(c) == [a, b, d]
  {
    c := (a - 0xE0) * 4096 + (b - 0x80) * 64 + (d - 0x80);
    assert c / 64 == (a - 0xE0) * 64 + (b - 0x80) && c % 64 == d - 0x80;
    assert c / 4096 == a - 0xE0;
  }

  lemma SixBitDigits(a: nat, b: nat, d: nat, e: nat) returns (c: nat)
    requires b < 64 && d < 64 && e < 64
    ensures c / 262144 == a && c / 4096 % 64 == b && c / 64 % 64 == d && c % 64 == e
    ensures a == 0 ==> c >= b * 4096
    ensures a > 0 ==> c >= 262144
    ensures a < 4 ==> c < 0x100000
    ensures a == 4 && b < 16 ==> c < 0x110000
  {
    c := a * 262144 + b * 4096 + d * 64 + e;
    assert c / 64 == a * 4096 + b * 64 + d;
    assert c / 4096 == a * 64 + b;
  }

  lemma FourBytes(a: int, b: int, d: int, e: int) returns (c: nat)
    requires 0xF0 <= a <= 0xF4 && 0x80 <= b <= 0xBF && 0x80 <= d <= 0xBF && 0x80 <= e <= 0xBF
    requires (a == 0xF0 ==> b >= 0x90) && (a == 0xF4 ==> b <= 0x8F)
    ensures IsScalar(c) && Utf8(c) == [a, b, d, e]
  {
    c := SixBitDigits(a - 0xF0, b - 0x80, d - 0x80, e - 0x80);
  }

  lemma FirstScalar(s: Bytes) returns (c: nat)
    requires Utf8Length(s) > 0
    ensures IsScalar(c) && Utf8(c) == s[..Utf8Length(s)]
  {
    hide Utf8;
    var n := Utf8Length(s);
    if n == 1 {
      c := OneByte(s[0]);
    } else if n == 2 {
      c := TwoBytes(s[0], s[1]);
    } else if n == 3 {
      c := ThreeBytes(s[0], s[1], s[2]);
    } else {
      c := FourBytes(s[0], s[1], s[2], s[3]);
    }
    hide IsScalar;
  }

  lemma {:induction false} EncodedIsUtf8(cs: seq<nat>)
    requires AllScalars(cs)
    ensures IsUtf8(Encoded(cs))
  {
    if cs != [] {
      EncodedIsUtf8(cs[1..]);
      ScalarLength(cs[0], Encoded(cs[1..]));
      assert Encoded(cs)[|Utf8(cs[0])|..] == Encoded(cs[1..]);
      hide Utf8, Utf8Length;
    }
  }

  lemma {:induction false} Utf8IsEncoded(s: Bytes) returns (cs: seq<nat>)
    requires IsUtf8(s)
    ensures AllScalars(cs) && Encoded(cs) == s
  {
    if s == [] {
      cs := [];
    } else {
      var c := FirstScalar(s);
      hide Utf8, Utf8Length;
      var more := Utf8IsEncoded(s[Utf8Length(s)..]);
      cs := [c] + more;
      assert cs[1..] == more;
      assert s == s[..Utf8Length(s)] + s[Utf8Length(s)..];
    }
  }

  /** The decoder's check accepts exactly the encodings of sequences of scalar values. */
  lemma Utf8Exactly(s: Bytes)
    ensures IsUtf8(s) <==> exists cs :: AllScalars(cs) && Encoded(cs) == s
  {
    if IsUtf8(s) {
      var cs := Utf8IsEncoded(s);
    }
    forall cs | AllScalars(cs) && Encoded(cs) == s ensures IsUtf8(s) {
      EncodedIsUtf8(cs);
    }
  }
}
