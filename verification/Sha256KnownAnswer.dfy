/** A known answer: the discriminator that the program writes out by hand for its call into the vault
    program is the SHA-256 prefix of that instruction's name. The schedule and the 64 rounds behind it are
    in tables, so every rotation, every constant and the order of all terms meet a published value. */
module Sha256KnownAnswer {
  import opened Sha256Spec
  import Buffer = Sha256

  // The 36 bytes of "global:update_klend_queue_accounting".
  const B0: seq<Octet> := [
    0x67, 0x6c, 0x6f, 0x62, 0x61, 0x6c, 0x3a, 0x75, 0x70, 0x64, 0x61, 0x74, 0x65, 0x5f, 0x6b, 0x6c]
  const B1: seq<Octet> := [
    0x65, 0x6e, 0x64, 0x5f, 0x71, 0x75, 0x65, 0x75, 0x65, 0x5f, 0x61, 0x63, 0x63, 0x6f, 0x75, 0x6e]
  const REST: seq<Octet> := [0x74, 0x69, 0x6e, 0x67]
  const NAME: seq<Octet> := B0 + B1 + REST

  /** `UPDATE_KLEND_QUEUE_ACCOUNTING_DISCRIMINATOR`. */
  const DISCRIMINATOR: seq<Octet> := [45, 84, 96, 103, 171, 196, 40, 129]

  // The eight words of the whole digest.
  const DIGEST: seq<Word> := [
    0x2d546067, 0xabc42881, 0x4f4bb5a6, 0xc067494b, 0x6008aef6, 0xbe175fee, 0x3deaec93, 0x88569ae2]

  // The message schedule of its one block, eight words a row.
  const W0: seq<Word> := [
    0x676c6f62, 0x616c3a75, 0x70646174, 0x655f6b6c, 0x656e645f, 0x71756575, 0x655f6163, 0x636f756e]
  const W1: seq<Word> := [
    0x74696e67, 0x80000000, 0x00000000, 0x00000000, 0x00000000, 0x00000000, 0x00000000, 0x00000120]
  const W2: seq<Word> := [
    0xcfde76c3, 0x60d1936a, 0x74a915e9, 0x8c907c9a, 0xcb543d1c, 0xb5ac24f3, 0x0c6f34ee, 0x6614d5a5]
  const W3: seq<Word> := [
    0x6324fe48, 0xe528b0e6, 0x6d867163, 0x19ab2139, 0xac32dfe2, 0x012cfa16, 0xda82e4f3, 0x49430cb7]
  const W4: seq<Word> := [
    0x9fd967d0, 0x4f3d4fd3, 0x69376dbe, 0x767e7ab2, 0x20d61d54, 0x92f0b043, 0x9622ce35, 0xf72c137b]
  const W5: seq<Word> := [
    0xeeb33db8, 0x318286ca, 0x969e2664, 0xb558122c, 0x29a15537, 0xe8a81245, 0xf67d47fe, 0x2e776777]
  const W6: seq<Word> := [
    0xd92629e4, 0xefd57e84, 0xe517ec63, 0xdbd756dd, 0xce6e0f3f, 0x95571557, 0x78bae2a7, 0xdbdbe583]
  const W7: seq<Word> := [
    0x3f8413e2, 0xf749b0c3, 0x4942d5ae, 0xb0351af0, 0x81be5010, 0x424a2835, 0xe6d336ba, 0x17f7d665]

  // The working variables `a` and `e`, oldest value first: four from before a row of eight rounds, then one
  // for each round. The first four of all are the initial hash value, backwards.
  const A0: seq<Word> := [
    0xa54ff53a, 0x3c6ef372, 0xbb67ae85, 0x6a09e667, 0x6374f7af, 0xf9b52b67, 0x482bbe22, 0xee89863c,
    0xfb004485, 0x5e929807, 0x9efe2135, 0xa055fb16]
  const A1: seq<Word> := [
    0xfb004485, 0x5e929807, 0x9efe2135, 0xa055fb16, 0x9930cef9, 0xb4512380, 0xf068a0c7, 0xfc7287da,
    0x03cd27ba, 0xe2dc97fe, 0x6c5c2417, 0x5e406c1c]
  const A2: seq<Word> := [
    0x03cd27ba, 0xe2dc97fe, 0x6c5c2417, 0x5e406c1c, 0x8874238c, 0xb85cfd3a, 0x619fca21, 0xb56e04a6,
    0xa62bb572, 0xa0520771, 0xc4bad740, 0x616e48fe]
  const A3: seq<Word> := [
    0xa62bb572, 0xa0520771, 0xc4bad740, 0x616e48fe, 0x88460413, 0xd971f500, 0x834b9cf7, 0x8f5b8101,
    0x34c19345, 0xc55ecfb2, 0x4ce18842, 0x2d105d71]
  const A4: seq<Word> := [
    0x34c19345, 0xc55ecfb2, 0x4ce18842, 0x2d105d71, 0x141fa7aa, 0xfed8ecee, 0x21b6332d, 0x32d601d3,
    0x41c7291e, 0x19fad808, 0xaa13b9b4, 0xba158ccb]
  const A5: seq<Word> := [
    0x41c7291e, 0x19fad808, 0xaa13b9b4, 0xba158ccb, 0xe3843e2a, 0x3e210f65, 0xee85adb4, 0x602a3290,
    0x6c94761a, 0x5851ca54, 0x6a61882f, 0x257b0da5]
  const A6: seq<Word> := [
    0x6c94761a, 0x5851ca54, 0x6a61882f, 0x257b0da5, 0x1bae14e0, 0xd768d993, 0xde1c72f7, 0xc6d9b9cd,
    0x3954de5b, 0x4cf1f72f, 0xd1945994, 0xe3572876]
  const A7: seq<Word> := [
    0x3954de5b, 0x4cf1f72f, 0xd1945994, 0xe3572876, 0x9915ea6d, 0x70cf4e96, 0xaaecb596, 0xe023a208,
    0x1b175411, 0x12dcc234, 0xf05c79fc, 0xc34a7a00]
  const E0: seq<Word> := [
    0x5be0cd19, 0x1f83d9ab, 0x9b05688c, 0x510e527f, 0x00345204, 0x14459c71, 0x265e6caa, 0x217d8587,
    0x496da795, 0x12405e7b, 0x8aab0b63, 0x19b5d786]
  const E1: seq<Word> := [
    0x496da795, 0x12405e7b, 0x8aab0b63, 0x19b5d786, 0xce0e337c, 0xa7b3b3f6, 0x6974edb4, 0x93b12b7a,
    0x5cb9295e, 0x1d07541c, 0x04c87454, 0x6c9a95e3]
  const E2: seq<Word> := [
    0x5cb9295e, 0x1d07541c, 0x04c87454, 0x6c9a95e3, 0xa7228eab, 0x5fedf7b9, 0x017169d4, 0xf50d09aa,
    0x4cc45c50, 0x06b569f0, 0x666c5622, 0x122c2320]
  const E3: seq<Word> := [
    0x4cc45c50, 0x06b569f0, 0x666c5622, 0x122c2320, 0xe76c114d, 0xdeb82b0a, 0x25117a7b, 0x3e691280,
    0x2bcd65b6, 0x46305d5f, 0x92d25029, 0x209f4701]
  const E4: seq<Word> := [
    0x2bcd65b6, 0x46305d5f, 0x92d25029, 0x209f4701, 0x19d7b213, 0xf15c4df7, 0x770c577e, 0x217f819a,
    0x88e554ca, 0x32d5e65e, 0x8c958a14, 0x3950692a]
  const E5: seq<Word> := [
    0x88e554ca, 0x32d5e65e, 0x8c958a14, 0x3950692a, 0x8c4c314a, 0x54b7729e, 0x2df832d4, 0xeb09c33d,
    0xbdb3b81b, 0xafc09292, 0xed36e259, 0xff8fe969]
  const E6: seq<Word> := [
    0xbdb3b81b, 0xafc09292, 0xed36e259, 0xff8fe969, 0x578f86b1, 0xea96bf1c, 0x96f11b06, 0xfb364359,
    0xa56a89bf, 0xd608440e, 0xb54425c5, 0xa6b639a3]
  const E7: seq<Word> := [
    0xa56a89bf, 0xd608440e, 0xb54425c5, 0xa6b639a3, 0x68d24469, 0x8a2bd901, 0xb56f9898, 0x55d4bb3d,
    0x2c75cdc9, 0x1e6712e8, 0x2311f762, 0x0efa5c77]

  /** All eight working variables after `i` rounds of a row. */
  function VarsAt(a: seq<Word>, e: seq<Word>, i: nat): (v: Vars)
    requires |a| == |e| == 12 && i <= 8
  {
    Vars(a[i + 3], a[i + 2], a[i + 1], a[i], e[i + 3], e[i + 2], e[i + 1], e[i])
  }

  // ----- The rows of the tables follow from one another -----

  lemma {:induction false} Row0()
    ensures Round(VarsAt(A0, E0, 0), K0[0], W0[0]) == VarsAt(A0, E0, 1)
    ensures Round(VarsAt(A0, E0, 1), K0[1], W0[1]) == VarsAt(A0, E0, 2)
    ensures Round(VarsAt(A0, E0, 2), K0[2], W0[2]) == VarsAt(A0, E0, 3)
    ensures Round(VarsAt(A0, E0, 3), K0[3], W0[3]) == VarsAt(A0, E0, 4)
    ensures Round(VarsAt(A0, E0, 4), K0[4], W0[4]) == VarsAt(A0, E0, 5)
    ensures Round(VarsAt(A0, E0, 5), K0[5], W0[5]) == VarsAt(A0, E0, 6)
    ensures Round(VarsAt(A0, E0, 6), K0[6], W0[6]) == VarsAt(A0, E0, 7)
    ensures Round(VarsAt(A0, E0, 7), K0[7], W0[7]) == VarsAt(A0, E0, 8)
  {
  }

  lemma {:induction false} Row1()
    ensures Round(VarsAt(A1, E1, 0), K1[0], W1[0]) == VarsAt(A1, E1, 1)
    ensures Round(VarsAt(A1, E1, 1), K1[1], W1[1]) == VarsAt(A1, E1, 2)
    ensures Round(VarsAt(A1, E1, 2), K1[2], W1[2]) == VarsAt(A1, E1, 3)
    ensures Round(VarsAt(A1, E1, 3), K1[3], W1[3]) == VarsAt(A1, E1, 4)
    ensures Round(VarsAt(A1, E1, 4), K1[4], W1[4]) == VarsAt(A1, E1, 5)
    ensures Round(VarsAt(A1, E1, 5), K1[5], W1[5]) == VarsAt(A1, E1, 6)
    ensures Round(VarsAt(A1, E1, 6), K1[6], W1[6]) == VarsAt(A1, E1, 7)
    ensures Round(VarsAt(A1, E1, 7), K1[7], W1[7]) == VarsAt(A1, E1, 8)
  {
  }

  lemma {:induction false} Row2()
    ensures Round(VarsAt(A2, E2, 0), K2[0], W2[0]) == VarsAt(A2, E2, 1)
    ensures Round(VarsAt(A2, E2, 1), K2[1], W2[1]) == VarsAt(A2, E2, 2)
    ensures Round(VarsAt(A2, E2, 2), K2[2], W2[2]) == VarsAt(A2, E2, 3)
    ensures Round(VarsAt(A2, E2, 3), K2[3], W2[3]) == VarsAt(A2, E2, 4)
    ensures Round(VarsAt(A2, E2, 4), K2[4], W2[4]) == VarsAt(A2, E2, 5)
    ensures Round(VarsAt(A2, E2, 5), K2[5], W2[5]) == VarsAt(A2, E2, 6)
    ensures Round(VarsAt(A2, E2, 6), K2[6], W2[6]) == VarsAt(A2, E2, 7)
    ensures Round(VarsAt(A2, E2, 7), K2[7], W2[7]) == VarsAt(A2, E2, 8)
  {
  }

  lemma {:induction false} Row3()
    ensures Round(VarsAt(A3, E3, 0), K3[0], W3[0]) == VarsAt(A3, E3, 1)
    ensures Round(VarsAt(A3, E3, 1), K3[1], W3[1]) == VarsAt(A3, E3, 2)
    ensures Round(VarsAt(A3, E3, 2), K3[2], W3[2]) == VarsAt(A3, E3, 3)
    ensures Round(VarsAt(A3, E3, 3), K3[3], W3[3]) == VarsAt(A3, E3, 4)
    ensures Round(VarsAt(A3, E3, 4), K3[4], W3[4]) == VarsAt(A3, E3, 5)
    ensures Round(VarsAt(A3, E3, 5), K3[5], W3[5]) == VarsAt(A3, E3, 6)
    ensures Round(VarsAt(A3, E3, 6), K3[6], W3[6]) == VarsAt(A3, E3, 7)
    ensures Round(VarsAt(A3, E3, 7), K3[7], W3[7]) == VarsAt(A3, E3, 8)
  {
  }

  lemma {:induction false} Row4()
    ensures Round(VarsAt(A4, E4, 0), K4[0], W4[0]) == VarsAt(A4, E4, 1)
    ensures Round(VarsAt(A4, E4, 1), K4[1], W4[1]) == VarsAt(A4, E4, 2)
    ensures Round(VarsAt(A4, E4, 2), K4[2], W4[2]) == VarsAt(A4, E4, 3)
    ensures Round(VarsAt(A4, E4, 3), K4[3], W4[3]) == VarsAt(A4, E4, 4)
    ensures Round(VarsAt(A4, E4, 4), K4[4], W4[4]) == VarsAt(A4, E4, 5)
    ensures Round(VarsAt(A4, E4, 5), K4[5], W4[5]) == VarsAt(A4, E4, 6)
    ensures Round(VarsAt(A4, E4, 6), K4[6], W4[6]) == VarsAt(A4, E4, 7)
    ensures Round(VarsAt(A4, E4, 7), K4[7], W4[7]) == VarsAt(A4, E4, 8)
  {
  }

  lemma {:induction false} Row5()
    ensures Round(VarsAt(A5, E5, 0), K5[0], W5[0]) == VarsAt(A5, E5, 1)
    ensures Round(VarsAt(A5, E5, 1), K5[1], W5[1]) == VarsAt(A5, E5, 2)
    ensures Round(VarsAt(A5, E5, 2), K5[2], W5[2]) == VarsAt(A5, E5, 3)
    ensures Round(VarsAt(A5, E5, 3), K5[3], W5[3]) == VarsAt(A5, E5, 4)
    ensures Round(VarsAt(A5, E5, 4), K5[4], W5[4]) == VarsAt(A5, E5, 5)
    ensures Round(VarsAt(A5, E5, 5), K5[5], W5[5]) == VarsAt(A5, E5, 6)
    ensures Round(VarsAt(A5, E5, 6), K5[6], W5[6]) == VarsAt(A5, E5, 7)
    ensures Round(VarsAt(A5, E5, 7), K5[7], W5[7]) == VarsAt(A5, E5, 8)
  {
  }

  lemma {:induction false} Row6()
    ensures Round(VarsAt(A6, E6, 0), K6[0], W6[0]) == VarsAt(A6, E6, 1)
    ensures Round(VarsAt(A6, E6, 1), K6[1], W6[1]) == VarsAt(A6, E6, 2)
    ensures Round(VarsAt(A6, E6, 2), K6[2], W6[2]) == VarsAt(A6, E6, 3)
    ensures Round(VarsAt(A6, E6, 3), K6[3], W6[3]) == VarsAt(A6, E6, 4)
    ensures Round(VarsAt(A6, E6, 4), K6[4], W6[4]) == VarsAt(A6, E6, 5)
    ensures Round(VarsAt(A6, E6, 5), K6[5], W6[5]) == VarsAt(A6, E6, 6)
    ensures Round(VarsAt(A6, E6, 6), K6[6], W6[6]) == VarsAt(A6, E6, 7)
    ensures Round(VarsAt(A6, E6, 7), K6[7], W6[7]) == VarsAt(A6, E6, 8)
  {
  }

  lemma {:induction false} Row7()
    ensures Round(VarsAt(A7, E7, 0), K7[0], W7[0]) == VarsAt(A7, E7, 1)
    ensures Round(VarsAt(A7, E7, 1), K7[1], W7[1]) == VarsAt(A7, E7, 2)
    ensures Round(VarsAt(A7, E7, 2), K7[2], W7[2]) == VarsAt(A7, E7, 3)
    ensures Round(VarsAt(A7, E7, 3), K7[3], W7[3]) == VarsAt(A7, E7, 4)
    ensures Round(VarsAt(A7, E7, 4), K7[4], W7[4]) == VarsAt(A7, E7, 5)
    ensures Round(VarsAt(A7, E7, 5), K7[5], W7[5]) == VarsAt(A7, E7, 6)
    ensures Round(VarsAt(A7, E7, 6), K7[6], W7[6]) == VarsAt(A7, E7, 7)
    ensures Round(VarsAt(A7, E7, 7), K7[7], W7[7]) == VarsAt(A7, E7, 8)
  {
  }

  lemma {:induction false} Schedule2()
    ensures NextWord(W1[6], W1[1], W0[1], W0[0]) == W2[0]
    ensures NextWord(W1[7], W1[2], W0[2], W0[1]) == W2[1]
    ensures NextWord(W2[0], W1[3], W0[3], W0[2]) == W2[2]
    ensures NextWord(W2[1], W1[4], W0[4], W0[3]) == W2[3]
    ensures NextWord(W2[2], W1[5], W0[5], W0[4]) == W2[4]
    ensures NextWord(W2[3], W1[6], W0[6], W0[5]) == W2[5]
    ensures NextWord(W2[4], W1[7], W0[7], W0[6]) == W2[6]
    ensures NextWord(W2[5], W2[0], W1[0], W0[7]) == W2[7]
  {
  }

  lemma {:induction false} Schedule3()
    ensures NextWord(W2[6], W2[1], W1[1], W1[0]) == W3[0]
    ensures NextWord(W2[7], W2[2], W1[2], W1[1]) == W3[1]
    ensures NextWord(W3[0], W2[3], W1[3], W1[2]) == W3[2]
    ensures NextWord(W3[1], W2[4], W1[4], W1[3]) == W3[3]
    ensures NextWord(W3[2], W2[5], W1[5], W1[4]) == W3[4]
    ensures NextWord(W3[3], W2[6], W1[6], W1[5]) == W3[5]
    ensures NextWord(W3[4], W2[7], W1[7], W1[6]) == W3[6]
    ensures NextWord(W3[5], W3[0], W2[0], W1[7]) == W3[7]
  {
  }

  lemma {:induction false} Schedule4()
    ensures NextWord(W3[6], W3[1], W2[1], W2[0]) == W4[0]
    ensures NextWord(W3[7], W3[2], W2[2], W2[1]) == W4[1]
    ensures NextWord(W4[0], W3[3], W2[3], W2[2]) == W4[2]
    ensures NextWord(W4[1], W3[4], W2[4], W2[3]) == W4[3]
    ensures NextWord(W4[2], W3[5], W2[5], W2[4]) == W4[4]
    ensures NextWord(W4[3], W3[6], W2[6], W2[5]) == W4[5]
    ensures NextWord(W4[4], W3[7], W2[7], W2[6]) == W4[6]
    ensures NextWord(W4[5], W4[0], W3[0], W2[7]) == W4[7]
  {
  }

  lemma {:induction false} Schedule5()
    ensures NextWord(W4[6], W4[1], W3[1], W3[0]) == W5[0]
    ensures NextWord(W4[7], W4[2], W3[2], W3[1]) == W5[1]
    ensures NextWord(W5[0], W4[3], W3[3], W3[2]) == W5[2]
    ensures NextWord(W5[1], W4[4], W3[4], W3[3]) == W5[3]
    ensures NextWord(W5[2], W4[5], W3[5], W3[4]) == W5[4]
    ensures NextWord(W5[3], W4[6], W3[6], W3[5]) == W5[5]
    ensures NextWord(W5[4], W4[7], W3[7], W3[6]) == W5[6]
    ensures NextWord(W5[5], W5[0], W4[0], W3[7]) == W5[7]
  {
  }

  lemma {:induction false} Schedule6()
    ensures NextWord(W5[6], W5[1], W4[1], W4[0]) == W6[0]
    ensures NextWord(W5[7], W5[2], W4[2], W4[1]) == W6[1]
    ensures NextWord(W6[0], W5[3], W4[3], W4[2]) == W6[2]
    ensures NextWord(W6[1], W5[4], W4[4], W4[3]) == W6[3]
    ensures NextWord(W6[2], W5[5], W4[5], W4[4]) == W6[4]
    ensures NextWord(W6[3], W5[6], W4[6], W4[5]) == W6[5]
    ensures NextWord(W6[4], W5[7], W4[7], W4[6]) == W6[6]
    ensures NextWord(W6[5], W6[0], W5[0], W4[7]) == W6[7]
  {
  }

  lemma {:induction false} Schedule7()
    ensures NextWord(W6[6], W6[1], W5[1], W5[0]) == W7[0]
    ensures NextWord(W6[7], W6[2], W5[2], W5[1]) == W7[1]
    ensures NextWord(W7[0], W6[3], W5[3], W5[2]) == W7[2]
    ensures NextWord(W7[1], W6[4], W5[4], W5[3]) == W7[3]
    ensures NextWord(W7[2], W6[5], W5[5], W5[4]) == W7[4]
    ensures NextWord(W7[3], W6[6], W5[6], W5[5]) == W7[5]
    ensures NextWord(W7[4], W6[7], W5[7], W5[6]) == W7[6]
    ensures NextWord(W7[5], W7[0], W6[0], W5[7]) == W7[7]
  {
  }

  /** Step 1 of section 6.2.2 for one word, from the words 2, 7, 15 and 16 places before it. */
  function NextWord(w2: Word, w7: Word, w15: Word, w16: Word): (w: Word) {
    Add(Add(Add(SmallSigma1(w2), w7), SmallSigma0(w15)), w16)
  }

  // ----- From the tables to the hash -----

  /** Row `w` is the schedule's from word `t` on. */
  ghost predicate IsSchedule(ws: seq<Word>, t: nat, w: seq<Word>) {
    |ws| == 16 && |w| == 8 && forall i :: 0 <= i < 8 ==> W(ws, t + i) == w[i]
  }

  lemma {:induction false} OneWord(ws: seq<Word>, t: nat, w2: Word, w7: Word, w15: Word, w16: Word, w: Word)
    requires |ws| == 16 <= t && NextWord(w2, w7, w15, w16) == w
    requires W(ws, t - 2) == w2 && W(ws, t - 7) == w7 && W(ws, t - 15) == w15 && W(ws, t - 16) == w16
    ensures W(ws, t) == w
  {
    hide SmallSigma0, SmallSigma1, Add;
  }

  /** A row that follows from the two before it is the schedule's. */
  lemma {:induction false} ScheduleRuns(ws: seq<Word>, t: nat, w2: seq<Word>, w1: seq<Word>, w: seq<Word>)
    requires |w| == 8 && IsSchedule(ws, t, w2) && IsSchedule(ws, t + 8, w1)
    requires NextWord(w1[6], w1[1], w2[1], w2[0]) == w[0]
    requires NextWord(w1[7], w1[2], w2[2], w2[1]) == w[1]
    requires NextWord(w[0], w1[3], w2[3], w2[2]) == w[2]
    requires NextWord(w[1], w1[4], w2[4], w2[3]) == w[3]
    requires NextWord(w[2], w1[5], w2[5], w2[4]) == w[4]
    requires NextWord(w[3], w1[6], w2[6], w2[5]) == w[5]
    requires NextWord(w[4], w1[7], w2[7], w2[6]) == w[6]
    requires NextWord(w[5], w[0], w1[0], w2[7]) == w[7]
    ensures IsSchedule(ws, t + 16, w)
  {
    hide W, NextWord;
    OneWord(ws, t + 16, w1[6], w1[1], w2[1], w2[0], w[0]);
    OneWord(ws, t + 17, w1[7], w1[2], w2[2], w2[1], w[1]);
    OneWord(ws, t + 18, w[0], w1[3], w2[3], w2[2], w[2]);
    OneWord(ws, t + 19, w[1], w1[4], w2[4], w2[3], w[3]);
    OneWord(ws, t + 20, w[2], w1[5], w2[5], w2[4], w[4]);
    OneWord(ws, t + 21, w[3], w1[6], w2[6], w2[5], w[5]);
    OneWord(ws, t + 22, w[4], w1[7], w2[7], w2[6], w[6]);
    OneWord(ws, t + 23, w[5], w[0], w1[0], w2[7], w[7]);
  }

  lemma {:induction false} OneRound(ws: seq<Word>, v: Vars, t: nat, k: Word, w: Word, x: Vars, y: Vars)
    requires |ws| == 16 && t < 64 && K(t) == k && W(ws, t) == w && Round(x, k, w) == y
    requires Rounds(ws, v, t) == x
    ensures Rounds(ws, v, t + 1) == y
  {
    hide Round, W, K;
  }

  /** A row of rounds that fits its tables is run from start to end. */
  lemma {:induction false} RowRuns(
    ws: seq<Word>, v: Vars, t: nat, a: seq<Word>, e: seq<Word>, k: seq<Word>, w: seq<Word>)
    requires t <= 56 && |a| == |e| == 12 && |k| == 8 && IsSchedule(ws, t, w)
    requires IsConstants(t, k)
    requires Round(VarsAt(a, e, 0), k[0], w[0]) == VarsAt(a, e, 1)
    requires Round(VarsAt(a, e, 1), k[1], w[1]) == VarsAt(a, e, 2)
    requires Round(VarsAt(a, e, 2), k[2], w[2]) == VarsAt(a, e, 3)
    requires Round(VarsAt(a, e, 3), k[3], w[3]) == VarsAt(a, e, 4)
    requires Round(VarsAt(a, e, 4), k[4], w[4]) == VarsAt(a, e, 5)
    requires Round(VarsAt(a, e, 5), k[5], w[5]) == VarsAt(a, e, 6)
    requires Round(VarsAt(a, e, 6), k[6], w[6]) == VarsAt(a, e, 7)
    requires Round(VarsAt(a, e, 7), k[7], w[7]) == VarsAt(a, e, 8)
    requires Rounds(ws, v, t) == VarsAt(a, e, 0)
    ensures Rounds(ws, v, t + 8) == VarsAt(a, e, 8)
  {
    hide Round, VarsAt, W, Rounds, K;
    OneRound(ws, v, t + 0, k[0], w[0], VarsAt(a, e, 0), VarsAt(a, e, 1));
    OneRound(ws, v, t + 1, k[1], w[1], VarsAt(a, e, 1), VarsAt(a, e, 2));
    OneRound(ws, v, t + 2, k[2], w[2], VarsAt(a, e, 2), VarsAt(a, e, 3));
    OneRound(ws, v, t + 3, k[3], w[3], VarsAt(a, e, 3), VarsAt(a, e, 4));
    OneRound(ws, v, t + 4, k[4], w[4], VarsAt(a, e, 4), VarsAt(a, e, 5));
    OneRound(ws, v, t + 5, k[5], w[5], VarsAt(a, e, 5), VarsAt(a, e, 6));
    OneRound(ws, v, t + 6, k[6], w[6], VarsAt(a, e, 6), VarsAt(a, e, 7));
    OneRound(ws, v, t + 7, k[7], w[7], VarsAt(a, e, 7), VarsAt(a, e, 8));
  }

  /** Row `k` is the table of round constants from `t` on. */
  ghost predicate IsConstants(t: nat, k: seq<Word>) {
    t <= 56 && |k| == 8 && forall i :: 0 <= i < 8 ==> K(t + i) == k[i]
  }

  lemma {:induction false} ConstantRow(r: nat, k: seq<Word>)
    requires r < 8 && k == Row(r)
    ensures IsConstants(8 * r, k)
  {
    hide Row;
    forall i | 0 <= i < 8
      ensures K(8 * r + i) == Row(r)[i]
    {
      assert (8 * r + i) / 8 == r && (8 * r + i) % 8 == i;
    }
  }

  lemma {:induction false} WholeSchedule(ws: seq<Word>)
    requires ws == W0 + W1
    ensures IsSchedule(ws, 0, W0) && IsSchedule(ws, 8, W1)
    ensures IsSchedule(ws, 16, W2) && IsSchedule(ws, 24, W3)
    ensures IsSchedule(ws, 32, W4) && IsSchedule(ws, 40, W5)
    ensures IsSchedule(ws, 48, W6) && IsSchedule(ws, 56, W7)
  {
    hide NextWord, IsSchedule;
    FirstWords(ws);
    Schedule2();
    ScheduleRuns(ws, 0, W0, W1, W2);
    Schedule3();
    ScheduleRuns(ws, 8, W1, W2, W3);
    Schedule4();
    ScheduleRuns(ws, 16, W2, W3, W4);
    Schedule5();
    ScheduleRuns(ws, 24, W3, W4, W5);
    Schedule6();
    ScheduleRuns(ws, 32, W4, W5, W6);
    Schedule7();
    ScheduleRuns(ws, 40, W5, W6, W7);
  }

  lemma {:induction false} FirstWords(ws: seq<Word>)
    requires ws == W0 + W1
    ensures IsSchedule(ws, 0, W0) && IsSchedule(ws, 8, W1)
  {
  }

  lemma {:induction false} WholeRounds(ws: seq<Word>)
    requires ws == W0 + W1
    ensures Rounds(ws, VarsAt(A0, E0, 0), 64) == VarsAt(A7, E7, 8)
  {
    hide Round, W, Rounds, IsSchedule, IsConstants, VarsAt;
    var v := VarsAt(A0, E0, 0);
    WholeSchedule(ws);
    NoRounds(ws, v);
    Seams();
    ConstantRow(0, K0);
    Row0();
    RowRuns(ws, v, 0, A0, E0, K0, W0);
    ConstantRow(1, K1);
    Row1();
    RowRuns(ws, v, 8, A1, E1, K1, W1);
    ConstantRow(2, K2);
    Row2();
    RowRuns(ws, v, 16, A2, E2, K2, W2);
    ConstantRow(3, K3);
    Row3();
    RowRuns(ws, v, 24, A3, E3, K3, W3);
    ConstantRow(4, K4);
    Row4();
    RowRuns(ws, v, 32, A4, E4, K4, W4);
    ConstantRow(5, K5);
    Row5();
    RowRuns(ws, v, 40, A5, E5, K5, W5);
    ConstantRow(6, K6);
    Row6();
    RowRuns(ws, v, 48, A6, E6, K6, W6);
    ConstantRow(7, K7);
    Row7();
    RowRuns(ws, v, 56, A7, E7, K7, W7);
  }

  /** Each row begins where the one before it ended. */
  lemma {:induction false} Seams()
    ensures VarsAt(A0, E0, 8) == VarsAt(A1, E1, 0) && VarsAt(A1, E1, 8) == VarsAt(A2, E2, 0)
    ensures VarsAt(A2, E2, 8) == VarsAt(A3, E3, 0) && VarsAt(A3, E3, 8) == VarsAt(A4, E4, 0)
    ensures VarsAt(A4, E4, 8) == VarsAt(A5, E5, 0) && VarsAt(A5, E5, 8) == VarsAt(A6, E6, 0)
    ensures VarsAt(A6, E6, 8) == VarsAt(A7, E7, 0)
  {
  }

  lemma {:induction false} NoRounds(ws: seq<Word>, v: Vars)
    requires |ws| == 16
    ensures Rounds(ws, v, 0) == v
  {
  }

  // ----- The message and the digest -----

  // The rest of the padded name: its last bytes, the marker, 19 zeros, and the length of 288 bits.
  const B2: seq<Octet> := [
    0x74, 0x69, 0x6e, 0x67, 0x80, 0x00, 0x00, 0x00, 0x00, 0x00, 0x00, 0x00, 0x00, 0x00, 0x00, 0x00]
  const B3: seq<Octet> := [
    0x00, 0x00, 0x00, 0x00, 0x00, 0x00, 0x00, 0x00, 0x00, 0x00, 0x00, 0x00, 0x00, 0x00, 0x01, 0x20]
  const BLOCK: seq<Octet> := B0 + B1 + (B2 + B3)

  lemma {:induction false} PaddedName()
    ensures |NAME| == 36 && Pad(NAME) == BLOCK
  {
    hide Be64, B0, B1, B2, B3, REST;
    RowLengths();
    assert BitLength(36) == 288 && ZeroBytes(36) == 19;
    LengthBytes();
    RestOfBlock();
    var marked, zeros, length := REST + [0x80], seq(19, _ => 0), [0, 0, 0, 0, 0, 0, 1, 0x20];
    assert B0 + B1 + REST + [0x80] + zeros + length == B0 + B1 + (marked + zeros + length);
  }

  lemma {:induction false} RestOfBlock()
    ensures REST + [0x80] + seq(19, _ => 0) + [0, 0, 0, 0, 0, 0, 1, 0x20] == B2 + B3
  {
  }

  lemma {:induction false} LengthBytes()
    ensures Be64(288) == [0, 0, 0, 0, 0, 0, 1, 0x20]
  {
  }

  lemma {:induction false} NameWords()
    ensures WordOf(B0[0], B0[1], B0[2], B0[3]) == W0[0]
    ensures WordOf(B0[4], B0[5], B0[6], B0[7]) == W0[1]
    ensures WordOf(B0[8], B0[9], B0[10], B0[11]) == W0[2]
    ensures WordOf(B0[12], B0[13], B0[14], B0[15]) == W0[3]
    ensures WordOf(B1[0], B1[1], B1[2], B1[3]) == W0[4]
    ensures WordOf(B1[4], B1[5], B1[6], B1[7]) == W0[5]
    ensures WordOf(B1[8], B1[9], B1[10], B1[11]) == W0[6]
    ensures WordOf(B1[12], B1[13], B1[14], B1[15]) == W0[7]
    ensures WordOf(B2[0], B2[1], B2[2], B2[3]) == W1[0]
    ensures WordOf(B2[4], B2[5], B2[6], B2[7]) == W1[1]
    ensures WordOf(B2[8], B2[9], B2[10], B2[11]) == W1[2]
    ensures WordOf(B2[12], B2[13], B2[14], B2[15]) == W1[3]
    ensures WordOf(B3[0], B3[1], B3[2], B3[3]) == W1[4]
    ensures WordOf(B3[4], B3[5], B3[6], B3[7]) == W1[5]
    ensures WordOf(B3[8], B3[9], B3[10], B3[11]) == W1[6]
    ensures WordOf(B3[12], B3[13], B3[14], B3[15]) == W1[7]
  {
  }

  /** Sixteen bytes of a block make four of its words. */
  lemma {:induction false} FourWords(block: seq<Octet>, q: nat, b: seq<Octet>)
    requires |block| == 64 && q < 4 && |b| == 16 && forall j :: 0 <= j < 16 ==> block[16 * q + j] == b[j]
    ensures ParseBlock(block)[4 * q] == WordOf(b[0], b[1], b[2], b[3])
    ensures ParseBlock(block)[4 * q + 1] == WordOf(b[4], b[5], b[6], b[7])
    ensures ParseBlock(block)[4 * q + 2] == WordOf(b[8], b[9], b[10], b[11])
    ensures ParseBlock(block)[4 * q + 3] == WordOf(b[12], b[13], b[14], b[15])
  {
    hide WordOf, ParseBlock;
    OneParsed(block, 4 * q);
    OneParsed(block, 4 * q + 1);
    OneParsed(block, 4 * q + 2);
    OneParsed(block, 4 * q + 3);
  }

  lemma {:induction false} OneParsed(block: seq<Octet>, i: nat)
    requires |block| == 64 && i < 16
    ensures ParseBlock(block)[i] == WordOf(block[4 * i], block[4 * i + 1], block[4 * i + 2], block[4 * i + 3])
  {
    hide WordOf;
  }

  lemma {:induction false} ParsedName()
    ensures |BLOCK| == 64 && ParseBlock(BLOCK) == W0 + W1
  {
    hide WordOf, B0, B1, B2, B3, W0, W1, BLOCK, ParseBlock;
    NameWords();
    RowLengths();
    BlockRows();
    FourWords(BLOCK, 0, B0);
    FourWords(BLOCK, 1, B1);
    FourWords(BLOCK, 2, B2);
    FourWords(BLOCK, 3, B3);
  }

  lemma {:induction false} BlockRows()
    ensures |BLOCK| == 64
    ensures forall i :: 0 <= i < 16 ==> BLOCK[i] == B0[i] && BLOCK[16 + i] == B1[i]
    ensures forall i :: 0 <= i < 16 ==> BLOCK[32 + i] == B2[i] && BLOCK[48 + i] == B3[i]
  {
    hide B0, B1, B2, B3;
    RowLengths();
  }

  lemma {:induction false} RowLengths()
    ensures |B0| == |B1| == |B2| == |B3| == 16 && |REST| == 4 && |W0| == |W1| == 8
  {
  }

  /** The client's computation gives the discriminator that the program has written out. */
  lemma {:induction false} NameHashesToDiscriminator()
    ensures |NAME| == 36 && Sha256Spec.Sha256(NAME)[..8] == DISCRIMINATOR
    ensures HashBlocks(H0, Pad(NAME)) == DIGEST
  {
    hide Compress, HashBlocks, Pad, DigestBytes, BLOCK, NAME, WordBytes;
    PaddedName();
    ParsedName();
    Buffer.OneBlock(H0, BLOCK);
    CompressedName();
    Buffer.FirstTwoWords(Compress(H0, BLOCK));
    FirstBytes();
  }

  lemma {:induction false} CompressedName()
    ensures |BLOCK| == 64 && |DIGEST| == 8 && Compress(H0, BLOCK) == DIGEST
  {
    hide ParseBlock, Rounds, BLOCK, W0, W1;
    ParsedName();
    WholeRounds(W0 + W1);
    assert VarsAt(A0, E0, 0) == Vars(H0[0], H0[1], H0[2], H0[3], H0[4], H0[5], H0[6], H0[7]);
    assert Add(H0[0], A7[11]) == DIGEST[0] && Add(H0[1], A7[10]) == DIGEST[1];
    assert Add(H0[2], A7[9]) == DIGEST[2] && Add(H0[3], A7[8]) == DIGEST[3];
    assert Add(H0[4], E7[11]) == DIGEST[4] && Add(H0[5], E7[10]) == DIGEST[5];
    assert Add(H0[6], E7[9]) == DIGEST[6] && Add(H0[7], E7[8]) == DIGEST[7];
  }

  lemma {:induction false} FirstBytes()
    ensures WordBytes(0x2d546067) + WordBytes(0xabc42881) == DISCRIMINATOR
  {
    assert WordBytes(0x2d546067) == [45, 84, 96, 103] && WordBytes(0xabc42881) == [171, 196, 40, 129];
  }
}
