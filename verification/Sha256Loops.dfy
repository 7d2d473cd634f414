/** The vendored SHA-256 loops of src/discovery/Hmac.cpp, proved to compute FIPS 180-4. */
module Sha256Loops {
  import opened Fips180

  class Sha256Ctx {
    const h: array<Word>

    ghost predicate Valid() { h.Length == 8 }

    /** The hash value the context holds. */
    function Hash(): State
      requires Valid()
      reads h
    {
      State(h[0], h[1], h[2], h[3], h[4], h[5], h[6], h[7])
    }

    constructor ()
      ensures Valid() && fresh(h) && Hash() == INITIAL
    {
      h := new Word[8];
      new;
      h[0], h[1], h[2], h[3] := 0x6a09e667, 0xbb67ae85, 0x3c6ef372, 0xa54ff53a;
      h[4], h[5], h[6], h[7] := 0x510e527f, 0x9b05688c, 0x1f83d9ab, 0x5be0cd19;
    }

    /** Folds one block into the hash value. */
    method Transform(p: seq<Byte>)
      requires Valid() && |p| == 64
      modifies h
      ensures Hash() == Compress(old(Hash()), p)
    {
      hide Plus, Rounds;
      var w := ExpandMessage(p);
      var s := RunRounds(Hash(), p, w);
      h[0], h[1], h[2], h[3] := Plus(h[0], s.a), Plus(h[1], s.b), Plus(h[2], s.c), Plus(h[3], s.d);
      h[4], h[5], h[6], h[7] := Plus(h[4], s.e), Plus(h[5], s.f), Plus(h[6], s.g), Plus(h[7], s.h);
    }
  }

  function ScheduleWord(w16: Word, w15: Word, w7: Word, w2: Word): Word {
    Plus(Plus(Plus(w16, SmallSigma0(w15)), w7), SmallSigma1(w2))
  }

  lemma ScheduleStep(p: seq<Byte>, t: nat)
    requires |p| == 64 && t < 64
    ensures t < 16 ==> Schedule(p, t) == BigEndian(p[4 * t], p[4 * t + 1], p[4 * t + 2], p[4 * t + 3])
    ensures t >= 16 ==> Schedule(p, t) == ScheduleWord(Schedule(p, t - 16), Schedule(p, t - 15), Schedule(p, t - 7),
                                                       Schedule(p, t - 2))
  {
    hide Plus, BigEndian, SmallSigma0, SmallSigma1;
  }

  /** The first half of `transform`: the message schedule, filled in place. */
  method ExpandMessage(p: seq<Byte>) returns (w: array<Word>)
    requires |p| == 64
    ensures fresh(w) && w.Length == 64
    ensures forall t :: 0 <= t < 64 ==> w[t] == Schedule(p, t)
  {
    hide Schedule, BigEndian, ScheduleWord;
    w := new Word[64];
    for i := 0 to 16
      invariant forall t :: 0 <= t < i ==> w[t] == Schedule(p, t)
    {
      ScheduleStep(p, i);
      w[i] := LoadWord(p[i * 4], p[i * 4 + 1], p[i * 4 + 2], p[i * 4 + 3]);
    }
    for i := 16 to 64
      invariant forall t :: 0 <= t < i ==> w[t] == Schedule(p, t)
    {
      ScheduleStep(p, i);
      w[i] := MixWords(w[i - 16], w[i - 15], w[i - 7], w[i - 2]);
    }
  }

  method LoadWord(p0: Byte, p1: Byte, p2: Byte, p3: Byte) returns (word: Word)
    ensures word == BigEndian(p0, p1, p2, p3)
  {
    word := ((p0 as Word) << 24) | ((p1 as Word) << 16) | ((p2 as Word) << 8) | (p3 as Word);
  }

  method MixWords(w16: Word, w15: Word, w7: Word, w2: Word) returns (word: Word)
    ensures word == ScheduleWord(w16, w15, w7, w2)
  {
    hide Plus;
    var s0 := Rotr(w15, 7) ^ Rotr(w15, 18) ^ (w15 >> 3);
    var s1 := Rotr(w2, 17) ^ Rotr(w2, 19) ^ (w2 >> 10);
    word := Plus(Plus(Plus(w16, s0), w7), s1);
  }

  lemma NoRounds(start: State, p: seq<Byte>)
    requires |p| == 64
    ensures Rounds(start, p, 0) == start
  {
  }

  lemma OneMoreRound(start: State, p: seq<Byte>, t: nat)
    requires |p| == 64 && t < 64
    ensures Rounds(start, p, t + 1) == Round(Rounds(start, p, t), K(t), Schedule(p, t))
  {
    hide Round, Schedule, K;
  }

  method Temporaries(s: State, k: Word, w: Word) returns (t1: Word, t2: Word)
    ensures t1 == T1(s, k, w) && t2 == T2(s)
  {
    hide Plus, BigSigma1, BigSigma0, Ch, Maj;
    var bigS1, bigS0 := Sigmas(s.e, s.a);
    var ch, maj := Selections(s);
    t1 := Plus(Plus(Plus(Plus(s.h, bigS1), ch), k), w);
    t2 := Plus(bigS0, maj);
  }

  method Sigmas(e: Word, a: Word) returns (bigS1: Word, bigS0: Word)
    ensures bigS1 == BigSigma1(e) && bigS0 == BigSigma0(a)
  {
    bigS1 := Rotr(e, 6) ^ Rotr(e, 11) ^ Rotr(e, 25);
    bigS0 := Rotr(a, 2) ^ Rotr(a, 13) ^ Rotr(a, 22);
  }

  method Selections(s: State) returns (ch: Word, maj: Word)
    ensures ch == Ch(s.e, s.f, s.g) && maj == Maj(s.a, s.b, s.c)
  {
    ch := (s.e & s.f) ^ (!s.e & s.g);
    maj := (s.a & s.b) ^ (s.a & s.c) ^ (s.b & s.c);
  }

  /** The second half: eight working variables rotated through 64 rounds. */
  method RunRounds(start: State, p: seq<Byte>, w: array<Word>) returns (end: State)
    requires |p| == 64 && w.Length == 64
    requires forall t :: 0 <= t < 64 ==> w[t] == Schedule(p, t)
    ensures end == Rounds(start, p, 64)
  {
    hide Plus, K, T1, T2, Rounds, Schedule;
    NoRounds(start, p);
    var a, b, c, d := start.a, start.b, start.c, start.d;
    var e, f, g, hh := start.e, start.f, start.g, start.h;
    for i := 0 to 64
      invariant State(a, b, c, d, e, f, g, hh) == Rounds(start, p, i)
    {
      OneMoreRound(start, p, i);
      var t1, t2 := Temporaries(State(a, b, c, d, e, f, g, hh), K(i), w[i]);
      hh := g;
      g := f;
      f := e;
      e := Plus(d, t1);
      d := c;
      c := b;
      b := a;
      a := Plus(t1, t2);
    }
    end := State(a, b, c, d, e, f, g, hh);
  }

  // ---------------------------------------------------------------- sha256Raw

  /** The full blocks followed by the one- or two-block tail are the padded message. */
  lemma TailCompletesPadding(data: seq<Byte>, full: nat, total: nat, tail: seq<Byte>)
    requires full == |data| / 64 && total == (if |data| - full * 64 < 56 then 64 else 128)
    requires tail == data[full * 64..] + [0x80] + Zeros(total - (|data| - full * 64) - 9) + BigEndianBytes(BitLength(data), 8)
    ensures Pad(data) == data[..full * 64] + tail && |tail| == total
  {
    hide LowByte, BigEndianBytes;
    var rem := |data| - full * 64;
    assert rem == |data| % 64;
    assert ZeroPadding(|data|) == total - rem - 9;
    assert data == data[..full * 64] + data[full * 64..];
  }

  lemma OneMoreBlock(data: seq<Byte>, block: seq<Byte>)
    requires |data| % 64 == 0 && |block| == 64
    ensures |data + block| % 64 == 0 && HashBlocks(data + block) == Compress(HashBlocks(data), block)
  {
    hide Compress;
    assert (data + block)[..|data|] == data && (data + block)[|data|..] == block;
  }

  /** `n >> (8 * i)`. */
  function ShiftedBytes(n: nat, i: nat): nat { if i == 0 then n else ShiftedBytes(n / 256, i - 1) }

  lemma {:induction false} BigEndianByteAt(n: nat, count: nat, i: nat)
    requires i < count
    ensures BigEndianBytes(n, count)[count - 1 - i] == LowByte(ShiftedBytes(n, i))
  {
    hide LowByte;
    if i > 0 { BigEndianByteAt(n / 256, count - 1, i - 1); }
  }

  /** The bit length, written backwards from the end of the last block. */
  method WriteLength(tail: array<Byte>, total: nat, bits: nat)
    requires 8 <= total <= tail.Length
    modifies tail
    ensures tail[..total] == old(tail[..total - 8]) + BigEndianBytes(bits, 8)
  {
    hide LowByte, BigEndianBytes;
    ghost var length := BigEndianBytes(bits, 8);
    for i := 0 to 8
      invariant forall j :: 0 <= j < total - 8 ==> tail[j] == old(tail[j])
      invariant forall j :: 8 - i <= j < 8 ==> tail[total - 8 + j] == length[j]
    {
      BigEndianByteAt(bits, 8, i);
      tail[total - 1 - i] := LowByte(ShiftedBytes(bits, i));
    }
    assert tail[..total - 8] == old(tail[..total - 8]) && tail[total - 8..total] == length;
    assert tail[..total] == tail[..total - 8] + tail[total - 8..total];
  }

  /** The last block(s): what is left of the message, the padding and the length. */
  method PaddedTail(data: seq<Byte>, full: nat) returns (tail: array<Byte>, total: nat)
    requires full == |data| / 64
    ensures fresh(tail) && tail.Length == 128 && (total == 64 || total == 128)
    ensures Pad(data) == data[..full * 64] + tail[..total]
  {
    hide LowByte, BigEndianBytes;
    tail := new Byte[128](_ => 0);
    var rem := |data| - full * 64;
    forall i | 0 <= i < rem { tail[i] := data[full * 64 + i]; }
    tail[rem] := 0x80;
    total := if rem < 56 then 64 else 128;
    assert tail[..total - 8] == data[full * 64..] + [0x80] + Zeros(total - rem - 9);
    WriteLength(tail, total, |data| * 8 % 0x1_0000_0000_0000_0000);
    TailCompletesPadding(data, full, total, tail[..total]);
  }

  method WriteWord(out: array<Byte>, i: nat, w: Word)
    requires i < 8 && out.Length == 32
    modifies out
    ensures out[..] == old(out[..i * 4]) + WordBytes(w) + old(out[i * 4 + 4..])
  {
    out[i * 4] := (w >> 24) as Byte;
    out[i * 4 + 1] := ((w >> 16) & 0xff) as Byte;
    out[i * 4 + 2] := ((w >> 8) & 0xff) as Byte;
    out[i * 4 + 3] := (w & 0xff) as Byte;
  }

  lemma NoBlocks()
    ensures HashBlocks([]) == INITIAL
  {
  }

  method Sha256Raw(data: seq<Byte>) returns (out: array<Byte>)
    ensures fresh(out) && out[..] == Sha256(data)
  {
    hide Compress, HashBlocks, Pad, Digest;
    var ctx := new Sha256Ctx();
    NoBlocks();
    var full := |data| / 64;
    for i := 0 to full
      invariant ctx.Valid() && fresh(ctx.h) && ctx.Hash() == HashBlocks(data[..i * 64])
    {
      ctx.Transform(data[i * 64..(i + 1) * 64]);
      OneMoreBlock(data[..i * 64], data[i * 64..(i + 1) * 64]);
      assert data[..(i + 1) * 64] == data[..i * 64] + data[i * 64..(i + 1) * 64];
    }
    HashTail(ctx, data, full);
    out := WriteDigest(ctx);
  }

  /** The final block(s), after the `full` whole blocks of the message. */
  method HashTail(ctx: Sha256Ctx, data: seq<Byte>, full: nat)
    requires full == |data| / 64 && ctx.Valid() && ctx.Hash() == HashBlocks(data[..full * 64])
    modifies ctx.h
    ensures ctx.Hash() == HashBlocks(Pad(data))
  {
    hide Compress, HashBlocks, Pad;
    var tail, total := PaddedTail(data, full);
    ghost var whole, last := data[..full * 64], tail[..];
    assert Pad(data) == whole + last[..total];
    ctx.Transform(tail[..64]);
    OneMoreBlock(whole, last[..64]);
    if total == 128 {
      assert whole + last[..total] == whole + last[..64] + last[64..];
      ctx.Transform(tail[64..]);
      OneMoreBlock(whole + last[..64], last[64..]);
    }
  }

  lemma OneMoreWord(words: seq<Word>, w: Word)
    ensures BytesOfWords(words + [w]) == BytesOfWords(words) + WordBytes(w)
  {
    hide WordBytes;
    assert (words + [w])[..|words|] == words;
  }

  method WriteDigest(ctx: Sha256Ctx) returns (out: array<Byte>)
    requires ctx.Valid()
    ensures fresh(out) && out[..] == Digest(ctx.Hash())
  {
    hide WordBytes, BytesOfWords;
    out := new Byte[32](_ => 0);
    ghost var words := WordsOf(ctx.Hash());
    for i := 0 to 8
      invariant out[..i * 4] == BytesOfWords(words[..i])
    {
      OneMoreWord(words[..i], ctx.h[i]);
      assert words[..i + 1] == words[..i] + [ctx.h[i]];
      WriteWord(out, i, ctx.h[i]);
      assert out[..(i + 1) * 4] == out[..i * 4] + WordBytes(ctx.h[i]);
    }
    assert words[..8] == words && out[..32] == out[..];
  }
}
