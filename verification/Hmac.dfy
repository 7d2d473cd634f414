/** HMAC-SHA256 in hexadecimal, and the constant-time comparison: src/discovery/Hmac.cpp. */
module Hmac {
  import opened Fips180
  import opened Sha256Loops

  // ---------------------------------------------------------------- RFC 2104, section 2

  const BLOCK := 64

  /** The key padded with zeros to one block, after hashing it if it is longer than that. */
  function BlockKey(key: seq<Byte>): (k0: seq<Byte>)
    ensures |k0| == BLOCK
  {
    var short := if |key| > BLOCK then Sha256(key) else key;
    short + Zeros(BLOCK - |short|)
  }

  function XorPad(k0: seq<Byte>, pad: Byte): (s: seq<Byte>)
    ensures |s| == |k0|
  {
    seq(|k0|, i requires 0 <= i < |k0| => k0[i] ^ pad)
  }

  /** H((K ^ opad) || H((K ^ ipad) || text)). */
  function HmacSha256(key: seq<Byte>, message: seq<Byte>): (bytes: seq<Byte>)
    ensures |bytes| == 32
  {
    Sha256(XorPad(BlockKey(key), 0x5c) + Sha256(XorPad(BlockKey(key), 0x36) + message))
  }

  // ---------------------------------------------------------------- hexadecimal

  predicate IsHexDigit(c: char) { '0' <= c <= '9' || 'a' <= c <= 'f' }

  function HexDigit(nibble: Byte): (c: char)
    ensures IsHexDigit(c)
  {
    if nibble == 0 then '0' else if nibble == 1 then '1' else if nibble == 2 then '2' else if nibble == 3 then '3'
    else if nibble == 4 then '4' else if nibble == 5 then '5' else if nibble == 6 then '6' else if nibble == 7 then '7'
    else if nibble == 8 then '8' else if nibble == 9 then '9' else if nibble == 10 then 'a' else if nibble == 11 then 'b'
    else if nibble == 12 then 'c' else if nibble == 13 then 'd' else if nibble == 14 then 'e' else 'f'
  }

  function Hex(bytes: seq<Byte>): (hex: string)
    ensures |hex| == 2 * |bytes|
    ensures forall c <- hex :: IsHexDigit(c)
  {
    if bytes == [] then ""
    else
      var last := bytes[|bytes| - 1];
      Hex(bytes[..|bytes| - 1]) + [HexDigit(last >> 4), HexDigit(last & 0x0f)]
  }

  method ToHex(bytes: array<Byte>) returns (out: string)
    ensures out == Hex(bytes[..])
  {
    out := "";
    for i := 0 to bytes.Length
      invariant out == Hex(bytes[..i])
    {
      assert bytes[..i + 1][..i] == bytes[..i];
      out := out + [HexDigit(bytes[i] >> 4)];
      out := out + [HexDigit(bytes[i] & 0x0f)];
    }
    assert bytes[..bytes.Length] == bytes[..];
  }

  lemma HexDigitIsPosition(nibble: Byte, digits: string)
    requires nibble < 16 && digits == "0123456789abcdef"
    ensures |digits| == 16 && HexDigit(nibble) == digits[nibble as int]
  {
  }

  /** Byte `i` is printed as two lower-case digits, the high one first. */
  lemma {:induction false} HexAt(bytes: seq<Byte>, i: nat)
    requires i < |bytes|
    ensures Hex(bytes)[2 * i] == "0123456789abcdef"[(bytes[i] >> 4) as int]
    ensures Hex(bytes)[2 * i + 1] == "0123456789abcdef"[(bytes[i] & 0x0f) as int]
  {
    hide Hex, HexDigit;
    HexEnd(bytes);
    if i < |bytes| - 1 {
      HexAt(bytes[..|bytes| - 1], i);
    } else {
      HexDigitIsPosition(bytes[i] >> 4, "0123456789abcdef");
      HexDigitIsPosition(bytes[i] & 0x0f, "0123456789abcdef");
    }
  }

  lemma DigitsDetermineByte(x: Byte, y: Byte)
    requires HexDigit(x >> 4) == HexDigit(y >> 4) && HexDigit(x & 0x0f) == HexDigit(y & 0x0f)
    ensures x == y
  {
    DigitDeterminesNibble(x >> 4, y >> 4);
    DigitDeterminesNibble(x & 0x0f, y & 0x0f);
  }

  lemma DigitDeterminesNibble(x: Byte, y: Byte)
    requires x < 16 && y < 16 && HexDigit(x) == HexDigit(y)
    ensures x == y
  {
  }

  lemma HexEnd(bytes: seq<Byte>)
    requires bytes != []
    ensures var n := |bytes| - 1;
      && Hex(bytes)[..2 * n] == Hex(bytes[..n])
      && Hex(bytes)[2 * n] == HexDigit(bytes[n] >> 4) && Hex(bytes)[2 * n + 1] == HexDigit(bytes[n] & 0x0f)
  {
    hide HexDigit;
  }

  /** Different digests never print alike. */
  lemma {:induction false} HexIsInjective(a: seq<Byte>, b: seq<Byte>)
    requires Hex(a) == Hex(b)
    ensures a == b
  {
    hide Hex, HexDigit;
    assert |a| == |b|;
    if a != [] {
      var n := |a| - 1;
      HexEnd(a);
      HexEnd(b);
      HexIsInjective(a[..n], b[..n]);
      DigitsDetermineByte(a[n], b[n]);
      assert a == a[..n] + [a[n]] && b == b[..n] + [b[n]];
    }
  }

  // ---------------------------------------------------------------- the function

  function HmacHex(key: seq<Byte>, message: seq<Byte>): (hex: string)
    ensures |hex| == 64
    ensures forall c <- hex :: IsHexDigit(c)
  {
    Hex(HmacSha256(key, message))
  }

  /** The key block, filled in place. */
  method KeyBlock(key: seq<Byte>) returns (k0: array<Byte>)
    ensures fresh(k0) && k0[..] == BlockKey(key)
  {
    hide Sha256;
    k0 := new Byte[BLOCK](_ => 0);
    if |key| > BLOCK {
      var hashed := Sha256Raw(key);
      ghost var digest := hashed[..];
      forall i | 0 <= i < 32 { k0[i] := hashed[i]; }
      assert k0[..] == digest + Zeros(32);
    } else {
      forall i | 0 <= i < |key| { k0[i] := key[i]; }
      assert k0[..] == key + Zeros(BLOCK - |key|);
    }
  }

  method PadKey(k0: array<Byte>, pad: Byte) returns (out: seq<Byte>)
    ensures out == XorPad(k0[..], pad)
  {
    out := [];
    for i := 0 to k0.Length
      invariant out == XorPad(k0[..], pad)[..i]
    {
      out := out + [k0[i] ^ pad];
    }
  }

  method HmacSha256Hex(key: seq<Byte>, message: seq<Byte>) returns (hex: string)
    ensures hex == HmacHex(key, message)
  {
    hide Sha256;
    var k0 := KeyBlock(key);
    var inner := PadKey(k0, 0x36);
    inner := inner + message;
    var innerHash := Sha256Raw(inner);
    var outer := PadKey(k0, 0x5c);
    outer := outer + innerHash[..];
    var digest := Sha256Raw(outer);
    hex := ToHex(digest);
  }

  // ---------------------------------------------------------------- constantTimeEquals

  /** Digit `i` of `n` in base 256. */
  function Digit(n: nat, i: nat): (d: nat)
    ensures d < 256
  {
    if i == 0 then n % 256 else if i == 1 then n / 256 % 256 else if i == 2 then n / 256 / 256 % 256
    else n / 256 / 256 / 256 % 256
  }

  /** The low 32 bits of a length. */
  function Low32(n: nat): bv32 {
    BigEndian(AsByte(Digit(n, 3)), AsByte(Digit(n, 2)), AsByte(Digit(n, 1)), AsByte(Digit(n, 0)))
  }

  /** The difference of two lengths, cast to 32 bits. */
  function FoldLengths(m: nat, n: nat): bv32 { Low32(m) ^ Low32(n) }

  function FoldByte(diff: bv32, x: Byte, y: Byte): bv32 { diff | ((x ^ y) as bv32) }

  /** What the comparison accepts: equal bytes over the shorter length, and lengths equal modulo 2^32. */
  predicate FoldedEqual(a: seq<Byte>, b: seq<Byte>) {
    && |a| % 0x1_0000_0000 == |b| % 0x1_0000_0000
    && var n := if |a| < |b| then |a| else |b|;
       a[..n] == b[..n]
  }

  lemma FoldByteIsZero(diff: bv32, x: Byte, y: Byte)
    ensures FoldByte(diff, x, y) == 0 <==> diff == 0 && x == y
  {
  }

  lemma BytesDetermineWord(a: Byte, b: Byte, c: Byte, d: Byte, e: Byte, f: Byte, g: Byte, h: Byte)
    ensures BigEndian(a, b, c, d) == BigEndian(e, f, g, h) <==> a == e && b == f && c == g && d == h
  {
  }

  lemma FourDigits(n: nat)
    ensures n % 0x1_0000_0000 == 256 * (256 * (256 * Digit(n, 3) + Digit(n, 2)) + Digit(n, 1)) + Digit(n, 0)
  {
    var n1 := n / 256;
    var n2 := n1 / 256;
    var n3 := n2 / 256;
    RemainderModulo32(n, n3 / 256, 256 * (256 * (256 * (n3 % 256) + n2 % 256) + n1 % 256) + n % 256);
  }

  lemma RemainderModulo32(n: int, q: int, r: int)
    requires n == 0x1_0000_0000 * q + r && 0 <= r < 0x1_0000_0000
    ensures n % 0x1_0000_0000 == r
  {
  }

  lemma DigitsAreUnique(a: int, b: int, c: int, d: int, e: int, f: int, g: int, h: int)
    requires 0 <= b < 256 && 0 <= c < 256 && 0 <= d < 256 && 0 <= f < 256 && 0 <= g < 256 && 0 <= h < 256
    requires 256 * (256 * (256 * a + b) + c) + d == 256 * (256 * (256 * e + f) + g) + h
    ensures a == e && b == f && c == g && d == h
  {
    assert 256 * (256 * a + b) + c == 256 * (256 * e + f) + g;
    assert 256 * a + b == 256 * e + f;
  }

  predicate SameDigits(m: nat, n: nat) {
    Digit(m, 3) == Digit(n, 3) && Digit(m, 2) == Digit(n, 2) && Digit(m, 1) == Digit(n, 1) && Digit(m, 0) == Digit(n, 0)
  }

  lemma SameDigitsIffEqualModulo(m: nat, n: nat)
    ensures SameDigits(m, n) <==> m % 0x1_0000_0000 == n % 0x1_0000_0000
  {
    hide Digit;
    FourDigits(m);
    FourDigits(n);
    if m % 0x1_0000_0000 == n % 0x1_0000_0000 {
      DigitsAreUnique(Digit(m, 3), Digit(m, 2), Digit(m, 1), Digit(m, 0), Digit(n, 3), Digit(n, 2), Digit(n, 1), Digit(n, 0));
    }
  }

  lemma SameDigitsIffSameWord(m: nat, n: nat)
    ensures SameDigits(m, n) <==> Low32(m) == Low32(n)
  {
    hide Digit, BigEndian, AsByte;
    BytesDetermineWord(AsByte(Digit(m, 3)), AsByte(Digit(m, 2)), AsByte(Digit(m, 1)), AsByte(Digit(m, 0)),
                       AsByte(Digit(n, 3)), AsByte(Digit(n, 2)), AsByte(Digit(n, 1)), AsByte(Digit(n, 0)));
  }

  lemma FoldLengthsIsZero(m: nat, n: nat)
    ensures FoldLengths(m, n) == 0 <==> m % 0x1_0000_0000 == n % 0x1_0000_0000
  {
    hide Low32, SameDigits;
    XorIsZeroIffEqual(Low32(m), Low32(n));
    SameDigitsIffSameWord(m, n);
    SameDigitsIffEqualModulo(m, n);
  }

  lemma XorIsZeroIffEqual(x: bv32, y: bv32)
    ensures x ^ y == 0 <==> x == y
  {
  }

  method ConstantTimeEquals(a: seq<Byte>, b: seq<Byte>) returns (equal: bool)
    ensures equal <==> FoldedEqual(a, b)
  {
    hide FoldLengths, FoldByte;
    var diff := FoldLengths(|a|, |b|);
    FoldLengthsIsZero(|a|, |b|);
    var n := if |a| < |b| then |a| else |b|;
    for i := 0 to n
      invariant diff == 0 <==> |a| % 0x1_0000_0000 == |b| % 0x1_0000_0000 && a[..i] == b[..i]
    {
      FoldByteIsZero(diff, a[i], b[i]);
      diff := FoldByte(diff, a[i], b[i]);
      assert a[..i + 1] == a[..i] + [a[i]] && b[..i + 1] == b[..i] + [b[i]];
    }
    equal := diff == 0;
  }

  /**
   * The comparison is equality exactly when the lengths do not differ by a nonzero multiple of 2^32
   * over a common prefix; in particular it is equality for all strings shorter than 2^32 bytes.
   */
  lemma FoldedEqualIsEquality(a: seq<Byte>, b: seq<Byte>)
    ensures |a| == |b| || |a| % 0x1_0000_0000 != |b| % 0x1_0000_0000 ==> (FoldedEqual(a, b) <==> a == b)
    ensures |a| < 0x1_0000_0000 && |b| < 0x1_0000_0000 ==> (FoldedEqual(a, b) <==> a == b)
  {
    assert a[..|a|] == a && b[..|b|] == b;
  }

  /** The cast does lose information: a string 2^32 bytes longer than a prefix of it compares equal. */
  lemma LongStringComparesEqualToPrefix(a: seq<Byte>)
    ensures var b := a + Zeros(0x1_0000_0000); FoldedEqual(a, b) && a != b
  {
    var b := a + Zeros(0x1_0000_0000);
    assert b[..|a|] == a && a[..|a|] == a;
  }
}
