/** SHA-256 as the Secure Hash Standard (FIPS 180-4) defines it, stated recursively and
    for messages of any whole number of bytes below 2^61. `Sha256.dfy` proves the two-block
    loop form of `discriminators.rs` against these definitions. */
module Sha256Spec {

  type Word = bv32
  type Octet = bv8

  // ----- Section 4.1.2: the functions on words -----

  /** Section 3.2, item 1: addition modulo 2^32. */
  function Add(x: Word, y: Word): (r: Word) { x + y }

  function Ch(x: Word, y: Word, z: Word): (r: Word) { (x & y) ^ (!x & z) }

  function Maj(x: Word, y: Word, z: Word): (r: Word) { (x & y) ^ (x & z) ^ (y & z) }

  // Each parenthesis is the circular right shift of section 3.2, item 4: (x >> n) | (x << 32 - n).

  function BigSigma0(x: Word): (r: Word) { ((x >> 2) | (x << 30)) ^ ((x >> 13) | (x << 19)) ^ ((x >> 22) | (x << 10)) }

  function BigSigma1(x: Word): (r: Word) { ((x >> 6) | (x << 26)) ^ ((x >> 11) | (x << 21)) ^ ((x >> 25) | (x << 7)) }

  function SmallSigma0(x: Word): (r: Word) { ((x >> 7) | (x << 25)) ^ ((x >> 18) | (x << 14)) ^ (x >> 3) }

  function SmallSigma1(x: Word): (r: Word) { ((x >> 17) | (x << 15)) ^ ((x >> 19) | (x << 13)) ^ (x >> 10) }

  // ----- Section 4.2.2 and 5.3.3: constants -----

  // The rows of the table of round constants.
  const K0: seq<Word> := [
    0x428a2f98, 0x71374491, 0xb5c0fbcf, 0xe9b5dba5, 0x3956c25b, 0x59f111f1, 0x923f82a4, 0xab1c5ed5]
  const K1: seq<Word> := [
    0xd807aa98, 0x12835b01, 0x243185be, 0x550c7dc3, 0x72be5d74, 0x80deb1fe, 0x9bdc06a7, 0xc19bf174]
  const K2: seq<Word> := [
    0xe49b69c1, 0xefbe4786, 0x0fc19dc6, 0x240ca1cc, 0x2de92c6f, 0x4a7484aa, 0x5cb0a9dc, 0x76f988da]
  const K3: seq<Word> := [
    0x983e5152, 0xa831c66d, 0xb00327c8, 0xbf597fc7, 0xc6e00bf3, 0xd5a79147, 0x06ca6351, 0x14292967]
  const K4: seq<Word> := [
    0x27b70a85, 0x2e1b2138, 0x4d2c6dfc, 0x53380d13, 0x650a7354, 0x766a0abb, 0x81c2c92e, 0x92722c85]
  const K5: seq<Word> := [
    0xa2bfe8a1, 0xa81a664b, 0xc24b8b70, 0xc76c51a3, 0xd192e819, 0xd6990624, 0xf40e3585, 0x106aa070]
  const K6: seq<Word> := [
    0x19a4c116, 0x1e376c08, 0x2748774c, 0x34b0bcb5, 0x391c0cb3, 0x4ed8aa4a, 0x5b9cca4f, 0x682e6ff3]
  const K7: seq<Word> := [
    0x748f82ee, 0x78a5636f, 0x84c87814, 0x8cc70208, 0x90befffa, 0xa4506ceb, 0xbef9a3f7, 0xc67178f2]

  /** The round constant of step `t`. */
  function K(t: nat): (r: Word)
    requires t < 64
  {
    Row(t / 8)[t % 8]
  }

  function Row(r: nat): (row: seq<Word>)
    requires r < 8
    ensures |row| == 8
  {
    if r == 0 then K0 else if r == 1 then K1 else if r == 2 then K2 else if r == 3 then K3
    else if r == 4 then K4 else if r == 5 then K5 else if r == 6 then K6 else K7
  }

  const H0: seq<Word> := [
    0x6a09e667, 0xbb67ae85, 0x3c6ef372, 0xa54ff53a, 0x510e527f, 0x9b05688c, 0x1f83d9ab, 0x5be0cd19]

  // ----- Section 3.1: words and integers as strings of bytes, most significant byte first -----

  function WordOf(b0: Octet, b1: Octet, b2: Octet, b3: Octet): (r: Word) {
    ((b0 as Word) << 24) | ((b1 as Word) << 16) | ((b2 as Word) << 8) | (b3 as Word)
  }

  function WordBytes(w: Word): (bs: seq<Octet>)
    ensures |bs| == 4
  {
    [((w >> 24) & 0xff) as Octet, ((w >> 16) & 0xff) as Octet, ((w >> 8) & 0xff) as Octet, (w & 0xff) as Octet]
  }

  function Be64(n: bv64): (bs: seq<Octet>)
    ensures |bs| == 8
  {
    [((n >> 56) & 0xff) as Octet, ((n >> 48) & 0xff) as Octet, ((n >> 40) & 0xff) as Octet, ((n >> 32) & 0xff) as Octet,
     ((n >> 24) & 0xff) as Octet, ((n >> 16) & 0xff) as Octet, ((n >> 8) & 0xff) as Octet, (n & 0xff) as Octet]
  }

  lemma {:induction false} BytesOfWordOf(b0: Octet, b1: Octet, b2: Octet, b3: Octet, w: Word)
    requires w == WordOf(b0, b1, b2, b3)
    ensures ((w >> 24) & 0xff) as Octet == b0
    ensures ((w >> 16) & 0xff) as Octet == b1
    ensures ((w >> 8) & 0xff) as Octet == b2
    ensures (w & 0xff) as Octet == b3
  {
  }

  /** The byte order of words is a bijection: serialising a parsed word gives its bytes back. */
  lemma {:induction false} WordBytesInverse(b0: Octet, b1: Octet, b2: Octet, b3: Octet)
    ensures WordBytes(WordOf(b0, b1, b2, b3)) == [b0, b1, b2, b3]
  {
    BytesOfWordOf(b0, b1, b2, b3, WordOf(b0, b1, b2, b3));
  }

  // ----- Section 5.1.1: padding -----

  const MAX_MESSAGE_BYTES: nat := 0x2000_0000_0000_0000

  /** The number of zero bytes between the 0x80 marker and the 8-byte length. */
  function ZeroBytes(len: nat): (r: nat) { (119 - len % 64) % 64 }

  /** It is the least number that completes a whole number of 64-byte blocks. */
  lemma {:induction false} ZeroBytesIsLeast(len: nat, k: nat)
    ensures (len + 9 + ZeroBytes(len)) % 64 == 0
    ensures (len + 9 + k) % 64 == 0 ==> ZeroBytes(len) <= k
  {
    var q := len / 64;
    assert len == 64 * q + len % 64;
    if len % 64 <= 55 {
      assert len + 9 + ZeroBytes(len) == 64 * (q + 1);
    } else {
      assert len + 9 + ZeroBytes(len) == 64 * (q + 2);
    }
  }

  function BitLength(len: nat): (r: bv64)
    requires len < MAX_MESSAGE_BYTES
  {
    (len as bv64) * 8
  }

  function Pad(msg: seq<Octet>): (padded: seq<Octet>)
    requires |msg| < MAX_MESSAGE_BYTES
    ensures |padded| % 64 == 0 && |padded| == |msg| + 9 + ZeroBytes(|msg|)
  {
    ZeroBytesIsLeast(|msg|, 0);
    msg + [0x80] + seq(ZeroBytes(|msg|), _ => 0) + Be64(BitLength(|msg|))
  }

  // ----- Section 6.2.2: the hash computation -----

  function ParseBlock(block: seq<Octet>): (ws: seq<Word>)
    requires |block| == 64
    ensures |ws| == 16
  {
    seq(16, i requires 0 <= i < 16 => WordOf(block[4 * i], block[4 * i + 1], block[4 * i + 2], block[4 * i + 3]))
  }

  /** Step 1: the message schedule. */
  function W(ws: seq<Word>, t: nat): (r: Word)
    requires |ws| == 16
  {
    if t < 16 then ws[t]
    else Add(Add(Add(SmallSigma1(W(ws, t - 2)), W(ws, t - 7)), SmallSigma0(W(ws, t - 15))), W(ws, t - 16))
  }

  datatype Vars = Vars(a: Word, b: Word, c: Word, d: Word, e: Word, f: Word, g: Word, h: Word)

  /** Step 3: one round on the working variables. */
  function Round(v: Vars, k: Word, w: Word): (r: Vars) {
    var t1 := Add(Add(Add(Add(v.h, BigSigma1(v.e)), Ch(v.e, v.f, v.g)), k), w);
    var t2 := Add(BigSigma0(v.a), Maj(v.a, v.b, v.c));
    Vars(Add(t1, t2), v.a, v.b, v.c, Add(v.d, t1), v.e, v.f, v.g)
  }

  function Rounds(ws: seq<Word>, v: Vars, t: nat): (r: Vars)
    requires |ws| == 16 && t <= 64
  {
    if t == 0 then v else Round(Rounds(ws, v, t - 1), K(t - 1), W(ws, t - 1))
  }

  /** Steps 2 to 4 for one block. */
  function Compress(h: seq<Word>, block: seq<Octet>): (h': seq<Word>)
    requires |h| == 8 && |block| == 64
    ensures |h'| == 8
  {
    var v := Rounds(ParseBlock(block), Vars(h[0], h[1], h[2], h[3], h[4], h[5], h[6], h[7]), 64);
    [Add(h[0], v.a), Add(h[1], v.b), Add(h[2], v.c), Add(h[3], v.d),
     Add(h[4], v.e), Add(h[5], v.f), Add(h[6], v.g), Add(h[7], v.h)]
  }

  function HashBlocks(h: seq<Word>, padded: seq<Octet>): (h': seq<Word>)
    requires |h| == 8 && |padded| % 64 == 0
    ensures |h'| == 8
    decreases |padded|
  {
    if padded == [] then h else HashBlocks(Compress(h, padded[..64]), padded[64..])
  }

  function DigestBytes(h: seq<Word>): (bs: seq<Octet>)
    ensures |bs| == 4 * |h|
  {
    if |h| == 0 then [] else WordBytes(h[0]) + DigestBytes(h[1..])
  }

  function Sha256(msg: seq<Octet>): (digest: seq<Octet>)
    requires |msg| < MAX_MESSAGE_BYTES
    ensures |digest| == 32
  {
    DigestBytes(HashBlocks(H0, Pad(msg)))
  }
}
