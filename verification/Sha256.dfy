/** The compile-time SHA-256 of `discriminators.rs`: two fixed 64-byte blocks, an in-place
    padded buffer of 128 bytes, a schedule array and eight working variables. Each loop is
    proved to compute the recursive definition it unrolls. */
module Sha256 {
  import opened Sha256Spec
  import opened Common

  lemma {:induction false} AddCommutes(x: Word, y: Word)
    ensures Add(x, y) == Add(y, x)
  {
  }

  // Associativity, with one unfolding of `Add` a step: cheap for the solver only in this shape.

  lemma {:induction false} AddIsPlus(x: Word, y: Word)
    ensures Add(x, y) == x + y
  {
  }

  lemma {:induction false} AddLeftSum(x: Word, y: Word, z: Word)
    ensures Add(x + y, z) == x + y + z
  {
  }

  lemma {:induction false} AddRightSum(x: Word, y: Word, z: Word)
    ensures Add(x, y + z) == x + y + z
  {
  }

  lemma {:induction false} AddAssociates(x: Word, y: Word, z: Word)
    ensures Add(Add(x, y), z) == Add(x, Add(y, z))
  {
    hide *;
    AddIsPlus(x, y);
    AddIsPlus(y, z);
    AddLeftSum(x, y, z);
    AddRightSum(x, y, z);
  }

  /** The loop adds the four schedule terms in the opposite order from the standard. */
  lemma {:induction false} ScheduleSumOrder(w16: Word, s0: Word, w7: Word, s1: Word)
    ensures Add(Add(Add(w16, s0), w7), s1) == Add(Add(Add(s1, w7), s0), w16)
  {
    hide *;
    AddCommutes(Add(Add(w16, s0), w7), s1);
    AddCommutes(Add(w16, s0), w7);
    AddCommutes(w16, s0);
    AddAssociates(w7, s0, w16);
    AddAssociates(s1, w7, Add(s0, w16));
    AddAssociates(Add(s1, w7), s0, w16);
  }

  // `rotate_right` computes each sigma of the standard.

  method RotateSmallSigma0(x: Word) returns (s: Word)
    ensures s == SmallSigma0(x)
  {
    s := x.RotateRight(7) ^ x.RotateRight(18) ^ (x >> 3);
  }

  method RotateSmallSigma1(x: Word) returns (s: Word)
    ensures s == SmallSigma1(x)
  {
    s := x.RotateRight(17) ^ x.RotateRight(19) ^ (x >> 10);
  }

  method RotateBigSigma0(x: Word) returns (s: Word)
    ensures s == BigSigma0(x)
  {
    s := x.RotateRight(2) ^ x.RotateRight(13) ^ x.RotateRight(22);
  }

  method RotateBigSigma1(x: Word) returns (s: Word)
    ensures s == BigSigma1(x)
  {
    s := x.RotateRight(6) ^ x.RotateRight(11) ^ x.RotateRight(25);
  }

  method ScheduleWord(w16: Word, w15: Word, w7: Word, w2: Word) returns (r: Word)
    ensures r == Add(Add(Add(SmallSigma1(w2), w7), SmallSigma0(w15)), w16)
  {
    hide *;
    var s0 := RotateSmallSigma0(w15);
    var s1 := RotateSmallSigma1(w2);
    ScheduleSumOrder(w16, s0, w7, s1);
    r := Add(Add(Add(w16, s0), w7), s1);
  }

  lemma {:induction false} ScheduleStep(ws: seq<Word>, t: nat)
    requires |ws| == 16 <= t
    ensures W(ws, t) == Add(Add(Add(SmallSigma1(W(ws, t - 2)), W(ws, t - 7)), SmallSigma0(W(ws, t - 15))),
            W(ws, t - 16))
  {
    hide SmallSigma0, SmallSigma1, Add;
  }

  lemma {:induction false} ParsedWord(block: seq<Octet>, i: nat)
    requires |block| == 64 && i < 16
    ensures W(ParseBlock(block), i) == WordOf(block[i * 4], block[i * 4 + 1], block[i * 4 + 2], block[i * 4 + 3])
  {
    hide WordOf;
  }

  method ExpandSchedule(block: seq<Octet>) returns (w: array<Word>)
    requires |block| == 64
    ensures fresh(w) && w.Length == 64
    ensures forall t :: 0 <= t < 64 ==> w[t] == W(ParseBlock(block), t)
  {
    hide *;
    ghost var ws := ParseBlock(block);
    w := new Word[64](_ => 0);
    var i := 0;
    while i < 16
      invariant 0 <= i <= 16
      invariant forall t :: 0 <= t < i ==> w[t] == W(ws, t)
    {
      w[i] := WordOf(block[i * 4], block[i * 4 + 1], block[i * 4 + 2], block[i * 4 + 3]);
      ParsedWord(block, i);
      i := i + 1;
    }
    while i < 64
      invariant 16 <= i <= 64
      invariant forall t :: 0 <= t < i ==> w[t] == W(ws, t)
    {
      w[i] := ScheduleWord(w[i - 16], w[i - 15], w[i - 7], w[i - 2]);
      ScheduleStep(ws, i);
      i := i + 1;
    }
  }

  method RoundTemps(v: Vars, k: Word, w: Word) returns (temp1: Word, temp2: Word)
    ensures temp1 == Add(Add(Add(Add(v.h, BigSigma1(v.e)), Ch(v.e, v.f, v.g)), k), w)
    ensures temp2 == Add(BigSigma0(v.a), Maj(v.a, v.b, v.c))
  {
    hide *;
    var s1 := RotateBigSigma1(v.e);
    var ch := Ch(v.e, v.f, v.g);
    temp1 := Add(Add(Add(Add(v.h, s1), ch), k), w);
    var s0 := RotateBigSigma0(v.a);
    var maj := Maj(v.a, v.b, v.c);
    temp2 := Add(s0, maj);
  }

  lemma {:induction false} RoundStep(ws: seq<Word>, v: Vars, t: nat, temp1: Word, temp2: Word)
    requires |ws| == 16 && t < 64
    requires var u := Rounds(ws, v, t);
      && temp1 == Add(Add(Add(Add(u.h, BigSigma1(u.e)), Ch(u.e, u.f, u.g)), K(t)), W(ws, t))
      && temp2 == Add(BigSigma0(u.a), Maj(u.a, u.b, u.c))
    ensures var u := Rounds(ws, v, t);
      Rounds(ws, v, t + 1) == Vars(Add(temp1, temp2), u.a, u.b, u.c, Add(u.d, temp1), u.e, u.f, u.g)
  {
    hide BigSigma0, BigSigma1, Ch, Maj, W, Add;
  }

  method CompressBlock(h: seq<Word>, block: seq<Octet>) returns (out: seq<Word>)
    requires |h| == 8 && |block| == 64
    ensures out == Compress(h, block)
  {
    hide BigSigma0, BigSigma1, Ch, Maj, Round, Add;
    var w := ExpandSchedule(block);
    ghost var ws := ParseBlock(block);
    ghost var v0 := Vars(h[0], h[1], h[2], h[3], h[4], h[5], h[6], h[7]);
    var a, b, c, d, e, f, g, hh := h[0], h[1], h[2], h[3], h[4], h[5], h[6], h[7];
    var i := 0;
    while i < 64
      invariant 0 <= i <= 64
      invariant forall t :: 0 <= t < 64 ==> w[t] == W(ws, t)
      invariant Vars(a, b, c, d, e, f, g, hh) == Rounds(ws, v0, i)
    {
      var temp1, temp2 := RoundTemps(Vars(a, b, c, d, e, f, g, hh), K(i), w[i]);
      RoundStep(ws, v0, i, temp1, temp2);
      hh := g;
      g := f;
      f := e;
      e := Add(d, temp1);
      d := c;
      c := b;
      b := a;
      a := Add(temp1, temp2);
      i := i + 1;
    }
    out := [Add(h[0], a), Add(h[1], b), Add(h[2], c), Add(h[3], d), Add(h[4], e), Add(h[5], f), Add(h[6], g),
           Add(h[7], hh)];
  }

  // ----- The in-place padded buffer -----

  function PaddedLen(len: nat): (r: nat) { if len + 9 <= 64 then 64 else 128 }

  /** What the buffer holds up to `PaddedLen`: the length is written last, over whatever is there. */
  ghost function BufferImage(msg: seq<Octet>): (image: seq<Octet>)
    requires |msg| < 128
    ensures |image| == PaddedLen(|msg|)
  {
    (msg + [0x80] + seq(128, _ => 0))[..PaddedLen(|msg|) - 8] + Be64(BitLength(|msg|))
  }

  /** The documented bound is exact: the cut buffer is the padded message of section 5.1.1 up to
      119 bytes and never after. */
  lemma {:induction false} BufferIsPaddingIffShort(msg: seq<Octet>)
    requires |msg| < 128
    ensures BufferImage(msg) == Pad(msg) <==> |msg| <= 119
  {
    hide Be64, BitLength;
    var n := PaddedLen(|msg|);
    if |msg| <= 119 {
      assert |msg| + 9 + ZeroBytes(|msg|) == n;
      assert (msg + [0x80] + seq(128, _ => 0))[..n - 8] == msg + [0x80] + seq(ZeroBytes(|msg|), _ => 0);
    } else {
      assert |Pad(msg)| == 192;
    }
  }

  /** Past the bound the buffer loses information: from 120 bytes on, the marker is gone and every
      byte after the first 120 is overwritten by the length, so unequal messages share one image. */
  lemma {:induction false} LongMessagesLoseTheirTail(msg: seq<Octet>, other: seq<Octet>)
    requires 120 <= |msg| == |other| < 128
    ensures BufferImage(msg) == BufferImage(other) <==> msg[..120] == other[..120]
  {
    assert BufferImage(msg)[..120] == msg[..120];
    assert BufferImage(other)[..120] == other[..120];
    assert BufferImage(msg) == msg[..120] + Be64(BitLength(|msg|));
    assert BufferImage(other) == other[..120] + Be64(BitLength(|msg|));
  }

  method WriteLength(padded: array<Octet>, paddedLen: nat, bitLen: bv64)
    requires 8 <= paddedLen <= padded.Length
    modifies padded
    ensures forall j :: 0 <= j < paddedLen - 8 ==> padded[j] == old(padded[j])
    ensures forall k :: 0 <= k < 8 ==> padded[paddedLen - 8 + k] == Be64(bitLen)[k]
  {
    hide Be64;
    var bytes := Be64(bitLen);
    padded[paddedLen - 8] := bytes[0];
    padded[paddedLen - 7] := bytes[1];
    padded[paddedLen - 6] := bytes[2];
    padded[paddedLen - 5] := bytes[3];
    padded[paddedLen - 4] := bytes[4];
    padded[paddedLen - 3] := bytes[5];
    padded[paddedLen - 2] := bytes[6];
    padded[paddedLen - 1] := bytes[7];
  }

  method PadInPlace(msg: seq<Octet>) returns (padded: array<Octet>, paddedLen: nat)
    requires |msg| < 128
    ensures padded.Length == 128 && paddedLen == PaddedLen(|msg|)
    ensures padded[..paddedLen] == BufferImage(msg)
  {
    hide Be64, BitLength;
    paddedLen := if |msg| + 9 <= 64 then 64 else 128;
    padded := new Octet[128](_ => 0);
    var i := 0;
    while i < |msg|
      invariant 0 <= i <= |msg|
      invariant forall j :: 0 <= j < i ==> padded[j] == msg[j]
      invariant forall j :: i <= j < 128 ==> padded[j] == 0
    {
      padded[i] := msg[i];
      i := i + 1;
    }
    padded[|msg|] := 0x80;
    WriteLength(padded, paddedLen, BitLength(|msg|));
    assert padded[..paddedLen - 8] == (msg + [0x80] + seq(128, _ => 0))[..paddedLen - 8];
    assert padded[paddedLen - 8..paddedLen] == Be64(BitLength(|msg|));
  }

  method CopyBlock(padded: array<Octet>, from: nat) returns (block: seq<Octet>)
    requires from + 64 <= padded.Length
    ensures block == padded[from..from + 64]
  {
    var buffer := new Octet[64](_ => 0);
    var i := 0;
    while i < 64
      invariant 0 <= i <= 64
      invariant buffer[..i] == padded[from..from + i]
    {
      buffer[i] := padded[from + i];
      i := i + 1;
    }
    block := buffer[..];
  }

  lemma {:induction false} OneBlock(h: seq<Word>, image: seq<Octet>)
    requires |h| == 8 && |image| == 64
    ensures HashBlocks(h, image) == Compress(h, image)
  {
    hide Compress;
    assert image[..64] == image && image[64..] == [];
  }

  lemma {:induction false} TwoBlocks(h: seq<Word>, image: seq<Octet>)
    requires |h| == 8 && |image| == 128
    ensures HashBlocks(h, image) == Compress(Compress(h, image[..64]), image[64..])
  {
    hide Compress;
    OneBlock(Compress(h, image[..64]), image[64..]);
  }

  method HashBuffer(padded: array<Octet>, paddedLen: nat) returns (h: seq<Word>)
    requires padded.Length == 128 && (paddedLen == 64 || paddedLen == 128)
    ensures h == HashBlocks(H0, padded[..paddedLen])
  {
    hide WordOf, Compress;
    var block0 := CopyBlock(padded, 0);
    h := CompressBlock(H0, block0);
    if paddedLen > 64 {
      var block1 := CopyBlock(padded, 64);
      h := CompressBlock(h, block1);
      TwoBlocks(H0, padded[..128]);
      assert padded[..128][..64] == block0 && padded[..128][64..] == block1;
    } else {
      OneBlock(H0, padded[..64]);
      assert padded[..64] == block0;
    }
  }

  /** A message of 128 bytes or more indexes past the buffer and panics: `None`. */
  method Sha256First8(msg: seq<Octet>) returns (digest: Option<seq<Octet>>)
    ensures digest.None? <==> |msg| >= 128
    ensures |msg| < 128 ==> digest == Some(DigestBytes(HashBlocks(H0, BufferImage(msg)))[..8])
    ensures |msg| <= 119 ==> digest == Some(Sha256(msg)[..8])
  {
    if |msg| >= 128 {
      return None;
    }
    hide WordBytes, HashBlocks, BufferImage, Pad, H0;
    var padded, paddedLen := PadInPlace(msg);
    var h := HashBuffer(padded, paddedLen);
    FirstTwoWords(h);
    digest := Some(WordBytes(h[0]) + WordBytes(h[1]));
    BufferIsPaddingIffShort(msg);
  }

  lemma {:induction false} FirstTwoWords(h: seq<Word>)
    requires |h| == 8
    ensures DigestBytes(h)[..8] == WordBytes(h[0]) + WordBytes(h[1])
  {
    assert DigestBytes(h) == WordBytes(h[0]) + (WordBytes(h[1]) + DigestBytes(h[1..][1..]));
  }
}
