/** SHA-256 as FIPS 180-4 defines it: the reference that src/discovery/Hmac.cpp must meet. */
module Fips180 {

  type Byte = bv8
  type Word = bv32

  // ---------------------------------------------------------------- functions of section 4.1.2

  /** Addition modulo 2^32. */
  function Plus(x: Word, y: Word): Word { x + y }

  function Ch(x: Word, y: Word, z: Word): Word { (x & y) ^ (!x & z) }

  function Maj(x: Word, y: Word, z: Word): Word { (x & y) ^ (x & z) ^ (y & z) }

  /** Section 3.2: the circular right shift. */
  function Rotr(x: Word, n: nat): Word
    requires 0 < n < 32
  {
    (x >> n) | (x << (32 - n))
  }

  function BigSigma0(x: Word): Word { Rotr(x, 2) ^ Rotr(x, 13) ^ Rotr(x, 22) }

  function BigSigma1(x: Word): Word { Rotr(x, 6) ^ Rotr(x, 11) ^ Rotr(x, 25) }

  function SmallSigma0(x: Word): Word { Rotr(x, 7) ^ Rotr(x, 18) ^ (x >> 3) }

  function SmallSigma1(x: Word): Word { Rotr(x, 17) ^ Rotr(x, 19) ^ (x >> 10) }

  /** The constants of section 4.2.2, in rows of eight. */
  const ROUND_CONSTANTS: seq<seq<Word>> := [
    [0x428a2f98, 0x71374491, 0xb5c0fbcf, 0xe9b5dba5, 0x3956c25b, 0x59f111f1, 0x923f82a4, 0xab1c5ed5],
    [0xd807aa98, 0x12835b01, 0x243185be, 0x550c7dc3, 0x72be5d74, 0x80deb1fe, 0x9bdc06a7, 0xc19bf174],
    [0xe49b69c1, 0xefbe4786, 0x0fc19dc6, 0x240ca1cc, 0x2de92c6f, 0x4a7484aa, 0x5cb0a9dc, 0x76f988da],
    [0x983e5152, 0xa831c66d, 0xb00327c8, 0xbf597fc7, 0xc6e00bf3, 0xd5a79147, 0x06ca6351, 0x14292967],
    [0x27b70a85, 0x2e1b2138, 0x4d2c6dfc, 0x53380d13, 0x650a7354, 0x766a0abb, 0x81c2c92e, 0x92722c85],
    [0xa2bfe8a1, 0xa81a664b, 0xc24b8b70, 0xc76c51a3, 0xd192e819, 0xd6990624, 0xf40e3585, 0x106aa070],
    [0x19a4c116, 0x1e376c08, 0x2748774c, 0x34b0bcb5, 0x391c0cb3, 0x4ed8aa4a, 0x5b9cca4f, 0x682e6ff3],
    [0x748f82ee, 0x78a5636f, 0x84c87814, 0x8cc70208, 0x90befffa, 0xa4506ceb, 0xbef9a3f7, 0xc67178f2]]

  function K(t: nat): Word
    requires t < 64
  {
    EightRowsOfEight();
    ROUND_CONSTANTS[t / 8][t % 8]
  }

  /** The first sixty-four primes. */
  const PRIMES: seq<seq<int>> := [
    [2, 3, 5, 7, 11, 13, 17, 19],
    [23, 29, 31, 37, 41, 43, 47, 53],
    [59, 61, 67, 71, 73, 79, 83, 89],
    [97, 101, 103, 107, 109, 113, 127, 131],
    [137, 139, 149, 151, 157, 163, 167, 173],
    [179, 181, 191, 193, 197, 199, 211, 223],
    [227, 229, 233, 239, 241, 251, 257, 263],
    [269, 271, 277, 281, 283, 293, 307, 311]]

  function Prime(t: nat): int
    requires t < 64
  {
    EightRowsOfEight();
    PRIMES[t / 8][t % 8]
  }

  lemma EightRowsOfEight()
    ensures |ROUND_CONSTANTS| == |PRIMES| == 8
    ensures forall i :: 0 <= i < 8 ==> |ROUND_CONSTANTS[i]| == |PRIMES[i]| == 8
  {
  }

  /** The eight working variables, and likewise a hash value. */
  datatype State = State(a: Word, b: Word, c: Word, d: Word, e: Word, f: Word, g: Word, h: Word)

  /** The initial hash value of section 5.3.3. */
  const INITIAL := State(0x6a09e667, 0xbb67ae85, 0x3c6ef372, 0xa54ff53a, 0x510e527f, 0x9b05688c, 0x1f83d9ab, 0x5be0cd19)

  // ---------------------------------------------------------------- where the constants come from

  function Square(n: int): int { n * n }

  function Cube(n: int): int { n * n * n }

  /** `w` is the first 32 bits of the fractional part of the square root of `prime`: section 5.3.3. */
  predicate IsSquareRootFraction(w: Word, prime: int) {
    exists whole :: 0 < whole < 8 && IsSquareRoot(whole * 0x1_0000_0000 + w as int, prime)
  }

  /** `root` is the square root of `prime`, in units of 2^-32 and rounded down. */
  predicate IsSquareRoot(root: int, prime: int) { Square(root) <= prime * Square(0x1_0000_0000) < Square(root + 1) }

  /** `w` is the first 32 bits of the fractional part of the cube root of `prime`: section 4.2.2. */
  predicate IsCubeRootFraction(w: Word, prime: int) {
    exists whole :: 0 < whole < 8 && IsCubeRoot(whole * 0x1_0000_0000 + w as int, prime)
  }

  predicate IsCubeRoot(root: int, prime: int) { Cube(root) <= prime * Cube(0x1_0000_0000) < Cube(root + 1) }

  lemma SquareRoot(w: Word, prime: int, whole: int)
    requires 0 < whole < 8 && IsSquareRoot(whole * 0x1_0000_0000 + w as int, prime)
    ensures IsSquareRootFraction(w, prime)
  {
  }

  lemma CubeRoot(w: Word, prime: int, whole: int)
    requires 0 < whole < 8 && IsCubeRoot(whole * 0x1_0000_0000 + w as int, prime)
    ensures IsCubeRootFraction(w, prime)
  {
  }

  /** The initial hash value comes from the first eight primes. */
  lemma InitialIsSquareRoots()
    ensures IsSquareRootFraction(INITIAL.a, 2) && IsSquareRootFraction(INITIAL.b, 3)
    ensures IsSquareRootFraction(INITIAL.c, 5) && IsSquareRootFraction(INITIAL.d, 7)
    ensures IsSquareRootFraction(INITIAL.e, 11) && IsSquareRootFraction(INITIAL.f, 13)
    ensures IsSquareRootFraction(INITIAL.g, 17) && IsSquareRootFraction(INITIAL.h, 19)
  {
    hide IsSquareRootFraction;
    SquareRoot(INITIAL.a, 2, 1); SquareRoot(INITIAL.b, 3, 1); SquareRoot(INITIAL.c, 5, 2); SquareRoot(INITIAL.d, 7, 2);
    SquareRoot(INITIAL.e, 11, 3); SquareRoot(INITIAL.f, 13, 3); SquareRoot(INITIAL.g, 17, 4); SquareRoot(INITIAL.h, 19, 4);
  }

  /** Every round constant comes from the prime at its place. */
  lemma RoundConstantsAreCubeRoots(t: nat)
    requires t < 64
    ensures IsCubeRootFraction(K(t), Prime(t))
  {
    hide IsCubeRootFraction, K, Prime;
    Row0(); Row1(); Row2(); Row3(); Row4(); Row5(); Row6(); Row7();
  }

  lemma Row0()
    ensures forall t :: 0 <= t < 8 ==> IsCubeRootFraction(K(t), Prime(t))
  {
    hide IsCubeRootFraction;
    CubeRoot(0x428a2f98, 2, 1); CubeRoot(0x71374491, 3, 1); CubeRoot(0xb5c0fbcf, 5, 1); CubeRoot(0xe9b5dba5, 7, 1);
    CubeRoot(0x3956c25b, 11, 2); CubeRoot(0x59f111f1, 13, 2); CubeRoot(0x923f82a4, 17, 2); CubeRoot(0xab1c5ed5, 19, 2);
  }

  lemma Row1()
    ensures forall t :: 8 <= t < 16 ==> IsCubeRootFraction(K(t), Prime(t))
  {
    hide IsCubeRootFraction;
    CubeRoot(0xd807aa98, 23, 2); CubeRoot(0x12835b01, 29, 3); CubeRoot(0x243185be, 31, 3); CubeRoot(0x550c7dc3, 37, 3);
    CubeRoot(0x72be5d74, 41, 3); CubeRoot(0x80deb1fe, 43, 3); CubeRoot(0x9bdc06a7, 47, 3); CubeRoot(0xc19bf174, 53, 3);
  }

  lemma Row2()
    ensures forall t :: 16 <= t < 24 ==> IsCubeRootFraction(K(t), Prime(t))
  {
    hide IsCubeRootFraction;
    CubeRoot(0xe49b69c1, 59, 3); CubeRoot(0xefbe4786, 61, 3); CubeRoot(0x0fc19dc6, 67, 4); CubeRoot(0x240ca1cc, 71, 4);
    CubeRoot(0x2de92c6f, 73, 4); CubeRoot(0x4a7484aa, 79, 4); CubeRoot(0x5cb0a9dc, 83, 4); CubeRoot(0x76f988da, 89, 4);
  }

  lemma Row3()
    ensures forall t :: 24 <= t < 32 ==> IsCubeRootFraction(K(t), Prime(t))
  {
    hide IsCubeRootFraction;
    CubeRoot(0x983e5152, 97, 4); CubeRoot(0xa831c66d, 101, 4); CubeRoot(0xb00327c8, 103, 4); CubeRoot(0xbf597fc7, 107, 4);
    CubeRoot(0xc6e00bf3, 109, 4); CubeRoot(0xd5a79147, 113, 4); CubeRoot(0x06ca6351, 127, 5); CubeRoot(0x14292967, 131, 5);
  }

  lemma Row4()
    ensures forall t :: 32 <= t < 40 ==> IsCubeRootFraction(K(t), Prime(t))
  {
    hide IsCubeRootFraction;
    CubeRoot(0x27b70a85, 137, 5); CubeRoot(0x2e1b2138, 139, 5); CubeRoot(0x4d2c6dfc, 149, 5); CubeRoot(0x53380d13, 151, 5);
    CubeRoot(0x650a7354, 157, 5); CubeRoot(0x766a0abb, 163, 5); CubeRoot(0x81c2c92e, 167, 5); CubeRoot(0x92722c85, 173, 5);
  }

  lemma Row5()
    ensures forall t :: 40 <= t < 48 ==> IsCubeRootFraction(K(t), Prime(t))
  {
    hide IsCubeRootFraction;
    CubeRoot(0xa2bfe8a1, 179, 5); CubeRoot(0xa81a664b, 181, 5); CubeRoot(0xc24b8b70, 191, 5); CubeRoot(0xc76c51a3, 193, 5);
    CubeRoot(0xd192e819, 197, 5); CubeRoot(0xd6990624, 199, 5); CubeRoot(0xf40e3585, 211, 5); CubeRoot(0x106aa070, 223, 6);
  }

  lemma Row6()
    ensures forall t :: 48 <= t < 56 ==> IsCubeRootFraction(K(t), Prime(t))
  {
    hide IsCubeRootFraction;
    CubeRoot(0x19a4c116, 227, 6); CubeRoot(0x1e376c08, 229, 6); CubeRoot(0x2748774c, 233, 6); CubeRoot(0x34b0bcb5, 239, 6);
    CubeRoot(0x391c0cb3, 241, 6); CubeRoot(0x4ed8aa4a, 251, 6); CubeRoot(0x5b9cca4f, 257, 6); CubeRoot(0x682e6ff3, 263, 6);
  }

  lemma Row7()
    ensures forall t :: 56 <= t < 64 ==> IsCubeRootFraction(K(t), Prime(t))
  {
    hide IsCubeRootFraction;
    CubeRoot(0x748f82ee, 269, 6); CubeRoot(0x78a5636f, 271, 6); CubeRoot(0x84c87814, 277, 6); CubeRoot(0x8cc70208, 281, 6);
    CubeRoot(0x90befffa, 283, 6); CubeRoot(0xa4506ceb, 293, 6); CubeRoot(0xbef9a3f7, 307, 6); CubeRoot(0xc67178f2, 311, 6);
  }

  // ---------------------------------------------------------------- the computation of section 6.2.2

  /** Bytes are taken most significant first. */
  function BigEndian(b0: Byte, b1: Byte, b2: Byte, b3: Byte): Word {
    ((b0 as Word) << 24) | ((b1 as Word) << 16) | ((b2 as Word) << 8) | (b3 as Word)
  }

  /** The message schedule W_t of a 64-byte block. */
  function Schedule(block: seq<Byte>, t: nat): Word
    requires |block| == 64 && t < 64
  {
    if t < 16 then BigEndian(block[4 * t], block[4 * t + 1], block[4 * t + 2], block[4 * t + 3])
    else
      Plus(Plus(Plus(Schedule(block, t - 16), SmallSigma0(Schedule(block, t - 15))), Schedule(block, t - 7)),
           SmallSigma1(Schedule(block, t - 2)))
  }

  function T1(s: State, k: Word, w: Word): Word {
    Plus(Plus(Plus(Plus(s.h, BigSigma1(s.e)), Ch(s.e, s.f, s.g)), k), w)
  }

  function T2(s: State): Word { Plus(BigSigma0(s.a), Maj(s.a, s.b, s.c)) }

  function Round(s: State, k: Word, w: Word): State {
    State(Plus(T1(s, k, w), T2(s)), s.a, s.b, s.c, Plus(s.d, T1(s, k, w)), s.e, s.f, s.g)
  }

  /** The working variables after `t` rounds. */
  function Rounds(s: State, block: seq<Byte>, t: nat): State
    requires |block| == 64 && t <= 64
  {
    if t == 0 then s else Round(Rounds(s, block, t - 1), K(t - 1), Schedule(block, t - 1))
  }

  function AddStates(x: State, y: State): State {
    State(Plus(x.a, y.a), Plus(x.b, y.b), Plus(x.c, y.c), Plus(x.d, y.d), Plus(x.e, y.e), Plus(x.f, y.f), Plus(x.g, y.g), Plus(x.h, y.h))
  }

  function Compress(hash: State, block: seq<Byte>): State
    requires |block| == 64
  {
    AddStates(hash, Rounds(hash, block, 64))
  }

  // ---------------------------------------------------------------- padding and digest

  /** `n` as a byte, modulo 256. */
  function LowByte(n: nat): Byte { AsByte(n % 256) }

  function AsByte(n: int): (b: Byte)
    requires 0 <= n < 256
    ensures b as int == n
  {
    CastKeepsValue(n);
    n as Byte
  }

  lemma NextByte(b: Byte)
    requires b < 255
    ensures (b + 1) as int == b as int + 1
  {
  }

  lemma {:induction false} ByteOf(n: int) returns (b: Byte)
    requires 0 <= n < 256
    ensures b as int == n
  {
    if n == 0 { return 0; }
    var before := ByteOf(n - 1);
    b := before + 1;
    NextByte(before);
  }

  lemma CastBack(b: Byte, n: int)
    requires b as int == n
    ensures 0 <= n < 256 && n as Byte == b
  {
  }

  lemma CastKeepsValue(n: int)
    requires 0 <= n < 256
    ensures (n as Byte) as int == n
  {
    var b := ByteOf(n);
    CastBack(b, n);
  }

  /** `n` in `count` bytes, most significant first. */
  function BigEndianBytes(n: nat, count: nat): (s: seq<Byte>)
    ensures |s| == count
  {
    if count == 0 then [] else BigEndianBytes(n / 256, count - 1) + [LowByte(n)]
  }

  function Zeros(n: nat): (s: seq<Byte>)
    ensures |s| == n
  {
    seq(n, _ => 0)
  }

  /** Fewest zero bytes that leave room for exactly the 8-byte length in the last block. */
  function ZeroPadding(length: nat): (z: nat)
    ensures (length + 1 + z) % 64 == 56 && z < 64
  {
    (119 - length % 64) % 64
  }

  /** The message length in bits, as a 64-bit number: exact for every message shorter than 2^61 bytes. */
  function BitLength(message: seq<Byte>): nat { 8 * |message| % 0x1_0000_0000_0000_0000 }

  lemma PaddedLength(n: nat)
    requires n % 64 == 56
    ensures (n + 8) % 64 == 0
  {
  }

  /** Section 5.1.1: a 1 bit, zeros up to 448 modulo 512, and the length in bits as a 64-bit number. */
  function Pad(message: seq<Byte>): (padded: seq<Byte>)
    ensures |padded| % 64 == 0
  {
    var z := ZeroPadding(|message|);
    var padded := message + [0x80] + Zeros(z) + BigEndianBytes(BitLength(message), 8);
    PaddedLength(|message| + 1 + z);
    padded
  }

  /** Section 6.2: the blocks of `data`, folded into the initial hash value. */
  function HashBlocks(data: seq<Byte>): State
    requires |data| % 64 == 0
  {
    if data == [] then INITIAL else Compress(HashBlocks(data[..|data| - 64]), data[|data| - 64..])
  }

  function WordBytes(w: Word): (s: seq<Byte>)
    ensures |s| == 4
  {
    [(w >> 24) as Byte, ((w >> 16) & 0xff) as Byte, ((w >> 8) & 0xff) as Byte, (w & 0xff) as Byte]
  }

  function WordsOf(s: State): seq<Word> { [s.a, s.b, s.c, s.d, s.e, s.f, s.g, s.h] }

  function BytesOfWords(words: seq<Word>): (bytes: seq<Byte>)
    ensures |bytes| == 4 * |words|
  {
    if words == [] then [] else BytesOfWords(words[..|words| - 1]) + WordBytes(words[|words| - 1])
  }

  function Digest(s: State): (bytes: seq<Byte>)
    ensures |bytes| == 32
  {
    BytesOfWords(WordsOf(s))
  }

  function Sha256(message: seq<Byte>): (bytes: seq<Byte>)
    ensures |bytes| == 32
  {
    Digest(HashBlocks(Pad(message)))
  }

  // ---------------------------------------------------------------- padding loses nothing

  function Power256(n: nat): nat { if n == 0 then 1 else 256 * Power256(n - 1) }

  lemma {:induction false} BigEndianBytesInjective(m: nat, n: nat, count: nat)
    requires m < Power256(count) && n < Power256(count)
    requires BigEndianBytes(m, count) == BigEndianBytes(n, count)
    ensures m == n
  {
    hide AsByte;
    if count > 0 {
      var x, y := BigEndianBytes(m, count), BigEndianBytes(n, count);
      assert x[..count - 1] == BigEndianBytes(m / 256, count - 1) && y[..count - 1] == BigEndianBytes(n / 256, count - 1);
      assert x[count - 1] == LowByte(m) && y[count - 1] == LowByte(n);
      BigEndianBytesInjective(m / 256, n / 256, count - 1);
    }
  }

  /** No two messages that the standard admits have the same padded form. */
  lemma PaddingIsInjective(a: seq<Byte>, b: seq<Byte>)
    requires |a| < 0x2000_0000_0000_0000 && |b| < 0x2000_0000_0000_0000
    requires Pad(a) == Pad(b)
    ensures a == b
  {
    hide BigEndianBytes, LowByte, Pad;
    PadEnds(a);
    PadEnds(b);
    EightBytes();
    BigEndianBytesInjective(BitLength(a), BitLength(b), 8);
  }

  lemma PadEnds(message: seq<Byte>)
    ensures var n := |Pad(message)|;
      && n >= 8 + |message| && Pad(message)[..|message|] == message && Pad(message)[n - 8..] == BigEndianBytes(BitLength(message), 8)
  {
    hide BigEndianBytes, LowByte, BitLength;
  }

  lemma EightBytes()
    ensures Power256(8) == 0x1_0000_0000_0000_0000
  {
    assert Power256(4) == 0x1_0000_0000;
  }
}
