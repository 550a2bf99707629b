/**
 SHA-256 and HMAC-SHA256 as the standards define them: one message, padded, then hashed block by
 block (sections 4.1.2, 4.2.2, 5.1.1, 5.3.2 and 6.2.2 of FIPS 180-2; FIPS 198).
 */
module Sha256Spec {

  type Byte = bv8
  type Word = bv32

  // ----- constants, sections 4.2.2 and 5.3.2 -----

  const K0: seq<Word> := [
    0x428a2f98, 0x71374491, 0xb5c0fbcf, 0xe9b5dba5, 0x3956c25b, 0x59f111f1, 0x923f82a4, 0xab1c5ed5]
  const K1: seq<Word> := [
    0xd807aa98, 0x12835b01, 0x243185be, 0x550c7dc3, 0x72be5d74, 0x80deb1fe, 0x9bdc06a7, 0xc19bf174]
  const K2: seq<Word> := [
    0xe49b69c1, 0xefbe4786, 0x0fc19dc6, 0x240ca1cc, 0x2de92c6f, 0x4a7484aa, 0x5cb0a9dc, 0x76f988da]
  const K3: seq<Word> := [
    0x983e5152, 0xa831c66d, 0xb00327c8, 0xbf597fc7, 0xc6e00bf3, 0xd5a79147, 0x06ca6351, 0x14292967]
  const K4: seq<Word> := [
    0x27b70a85, 0x2e1b2138, 0x4d2c6dfc, 0x53380d13, 0x650a7354, 0x766a0abb, 0x81c2c92e, 0x92722c85]
  const K5: seq<Word> := [
    0xa2bfe8a1, 0xa81a664b, 0xc24b8b70, 0xc76c51a3, 0xd192e819, 0xd6990624, 0xf40e3585, 0x106aa070]
  const K6: seq<Word> := [
    0x19a4c116, 0x1e376c08, 0x2748774c, 0x34b0bcb5, 0x391c0cb3, 0x4ed8aa4a, 0x5b9cca4f, 0x682e6ff3]
  const K7: seq<Word> := [
    0x748f82ee, 0x78a5636f, 0x84c87814, 0x8cc70208, 0x90befffa, 0xa4506ceb, 0xbef9a3f7, 0xc67178f2]

  const K: seq<Word> := K0 + K1 + K2 + K3 + K4 + K5 + K6 + K7

  const IV: seq<Word> := [
    0x6a09e667, 0xbb67ae85, 0x3c6ef372, 0xa54ff53a, 0x510e527f, 0x9b05688c, 0x1f83d9ab, 0x5be0cd19
  ]

  /** Addition modulo 2^32. */
  function Add(x: Word, y: Word): (r: Word) { x + y }

  // ----- the functions of section 4.1.2 -----

  function Ch(x: Word, y: Word, z: Word): (r: Word) { (x & y) ^ (!x & z) }

  function Maj(x: Word, y: Word, z: Word): (r: Word) { (x & y) ^ (x & z) ^ (y & z) }

  function BigSigma0(x: Word): (r: Word) { x.RotateRight(2) ^ x.RotateRight(13) ^ x.RotateRight(22) }

  function BigSigma1(x: Word): (r: Word) { x.RotateRight(6) ^ x.RotateRight(11) ^ x.RotateRight(25) }

  function Sigma0(x: Word): (r: Word) { x.RotateRight(7) ^ x.RotateRight(18) ^ (x >> 3) }

  function Sigma1(x: Word): (r: Word) { x.RotateRight(17) ^ x.RotateRight(19) ^ (x >> 10) }

  // ----- the compression function, section 6.2.2 -----

  /** A word of the message is big-endian. */
  function ToWord(b: seq<Byte>): (w: Word)
    requires |b| == 4
  {
    (b[0] as Word << 24) | (b[1] as Word << 16) | (b[2] as Word << 8) | b[3] as Word
  }

  function ToBytes(w: Word): (b: seq<Byte>)
    ensures |b| == 4
  {
    [(w >> 24) as Byte, ((w >> 16) & 0xff) as Byte, ((w >> 8) & 0xff) as Byte, (w & 0xff) as Byte]
  }

  /** The word `t` of the message schedule. */
  function Schedule(block: seq<Byte>, t: nat): (w: Word)
    requires |block| == 64
  {
    if t < 16 then ToWord(block[4 * t..4 * t + 4])
    else
      Add(Add(Add(Sigma1(Schedule(block, t - 2)), Schedule(block, t - 7)), Sigma0(Schedule(block, t - 15))),
        Schedule(block, t - 16))
  }

  /** The working variables. */
  datatype Vars = Vars(a: Word, b: Word, c: Word, d: Word, e: Word, f: Word, g: Word, h: Word)

  function Round(v: Vars, k: Word, w: Word): (r: Vars)
  {
    var t1 := Add(Add(Add(Add(v.h, BigSigma1(v.e)), Ch(v.e, v.f, v.g)), k), w);
    var t2 := Add(BigSigma0(v.a), Maj(v.a, v.b, v.c));
    Vars(Add(t1, t2), v.a, v.b, v.c, Add(v.d, t1), v.e, v.f, v.g)
  }

  /** The working variables after the first `n` rounds. */
  function Rounds(v: Vars, block: seq<Byte>, n: nat): (r: Vars)
    requires |block| == 64 && n <= 64
  {
    if n == 0 then v else Round(Rounds(v, block, n - 1), K[n - 1], Schedule(block, n - 1))
  }

  function Compress(hash: seq<Word>, block: seq<Byte>): (r: seq<Word>)
    requires |hash| == 8 && |block| == 64
    ensures |r| == 8
  {
    var v := Rounds(Vars(hash[0], hash[1], hash[2], hash[3], hash[4], hash[5], hash[6], hash[7]), block, 64);
    [Add(v.a, hash[0]), Add(v.b, hash[1]), Add(v.c, hash[2]), Add(v.d, hash[3]),
     Add(v.e, hash[4]), Add(v.f, hash[5]), Add(v.g, hash[6]), Add(v.h, hash[7])]
  }

  /** All full blocks of `m`, one after the other. */
  function Absorb(hash: seq<Word>, m: seq<Byte>): (r: seq<Word>)
    requires |hash| == 8
    ensures |r| == 8
    decreases |m|
  {
    if |m| < 64 then hash else Absorb(Compress(hash, m[..64]), m[64..])
  }

  /** Blocks may be hashed in any number of goes. */
  lemma {:induction false} AbsorbConcat(hash: seq<Word>, x: seq<Byte>, y: seq<Byte>)
    requires |hash| == 8 && |x| % 64 == 0
    ensures Absorb(hash, x + y) == Absorb(Absorb(hash, x), y)
    decreases |x|
  {
    if |x| < 64 {
      assert x + y == y;
    } else {
      assert (x + y)[..64] == x[..64] && (x + y)[64..] == x[64..] + y;
      AbsorbConcat(Compress(hash, x[..64]), x[64..], y);
    }
  }

  // ----- padding, section 5.1.1 -----

  /** The zero bytes that bring the message, the byte 0x80 and the length to a multiple of 64 bytes. */
  function ZeroCount(n: nat): (z: nat)
    ensures z < 64 && (n + 1 + z + 8) % 64 == 0
  {
    (119 - n % 64) % 64
  }

  function Zeros(n: nat): (z: seq<Byte>)
    ensures |z| == n && forall i :: 0 <= i < n ==> z[i] == 0
  {
    seq(n, _ => 0 as Byte)
  }

  /** A 64-bit number, big-endian. */
  function BigEndian64(v: nat): (b: seq<Byte>)
    ensures |b| == 8
  {
    [(v / 0x100_0000_0000_0000 % 256) as Byte, (v / 0x1_0000_0000_0000 % 256) as Byte,
     (v / 0x100_0000_0000 % 256) as Byte, (v / 0x1_0000_0000 % 256) as Byte,
     (v / 0x100_0000 % 256) as Byte, (v / 0x1_0000 % 256) as Byte, (v / 0x100 % 256) as Byte, (v % 256) as Byte]
  }

  /** The length of a message of `n` bytes in bits, modulo 2^64. */
  function LengthField(n: nat): (f: seq<Byte>)
    ensures |f| == 8
  {
    BigEndian64(8 * n % 0x1_0000_0000_0000_0000)
  }

  function Pad(m: seq<Byte>): (p: seq<Byte>)
    ensures |p| % 64 == 0
  {
    m + [0x80] + Zeros(ZeroCount(|m|)) + LengthField(|m|)
  }

  function WordsToBytes(ws: seq<Word>): (b: seq<Byte>)
    ensures |b| == 4 * |ws|
  {
    if ws == [] then [] else ToBytes(ws[0]) + WordsToBytes(ws[1..])
  }

  function Digest(m: seq<Byte>): (d: seq<Byte>)
    ensures |d| == 32
  {
    WordsToBytes(Absorb(IV, Pad(m)))
  }

  // ----- HMAC, FIPS 198 -----

  /** The key of one block: a longer one is hashed, a shorter one is followed by zeros. */
  function BlockKey(key: seq<Byte>): (k: seq<Byte>)
    ensures |k| == 64
  {
    var short := if |key| > 64 then Digest(key) else key;
    short + Zeros(64 - |short|)
  }

  function Xor(k: seq<Byte>, pad: Byte): (r: seq<Byte>)
    ensures |r| == |k|
  {
    seq(|k|, i requires 0 <= i < |k| => k[i] ^ pad)
  }

  function Hmac(key: seq<Byte>, text: seq<Byte>): (d: seq<Byte>)
    ensures |d| == 32
  {
    Digest(Xor(BlockKey(key), 0x5c) + Digest(Xor(BlockKey(key), 0x36) + text))
  }
}
