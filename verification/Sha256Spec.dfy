/**
 SHA-256 as FIPS 180-4 defines it: a one-shot function of the whole message.
 Nothing here knows about buffers or streaming.
 */
module Sha256Spec {
  import opened Bytes

  type Word = bv32

  /** Section 4.2.2. */
  const K: seq<Word> :=
    [0x428a2f98, 0x71374491, 0xb5c0fbcf, 0xe9b5dba5, 0x3956c25b, 0x59f111f1, 0x923f82a4, 0xab1c5ed5]
    + [0xd807aa98, 0x12835b01, 0x243185be, 0x550c7dc3, 0x72be5d74, 0x80deb1fe, 0x9bdc06a7, 0xc19bf174]
    + [0xe49b69c1, 0xefbe4786, 0x0fc19dc6, 0x240ca1cc, 0x2de92c6f, 0x4a7484aa, 0x5cb0a9dc, 0x76f988da]
    + [0x983e5152, 0xa831c66d, 0xb00327c8, 0xbf597fc7, 0xc6e00bf3, 0xd5a79147, 0x06ca6351, 0x14292967]
    + [0x27b70a85, 0x2e1b2138, 0x4d2c6dfc, 0x53380d13, 0x650a7354, 0x766a0abb, 0x81c2c92e, 0x92722c85]
    + [0xa2bfe8a1, 0xa81a664b, 0xc24b8b70, 0xc76c51a3, 0xd192e819, 0xd6990624, 0xf40e3585, 0x106aa070]
    + [0x19a4c116, 0x1e376c08, 0x2748774c, 0x34b0bcb5, 0x391c0cb3, 0x4ed8aa4a, 0x5b9cca4f, 0x682e6ff3]
    + [0x748f82ee, 0x78a5636f, 0x84c87814, 0x8cc70208, 0x90befffa, 0xa4506ceb, 0xbef9a3f7, 0xc67178f2]

  /** Section 5.3.3. */
  function H0(): (h: seq<Word>)
    ensures |h| == 8
  {
    [0x6a09e667, 0xbb67ae85, 0x3c6ef372, 0xa54ff53a, 0x510e527f, 0x9b05688c, 0x1f83d9ab, 0x5be0cd19]
  }

  type Chain = h: seq<Word> | |h| == 8 witness H0()

  /** Sections 3.2 and 4.1.2. */
  function Rotr(x: Word, n: Word): Word
    requires 0 < n < 32
  {
    (x >> n) | (x << (32 - n))
  }

  /** Addition modulo 2^32. */
  function Add(x: Word, y: Word): Word { x + y }
  function Ch(x: Word, y: Word, z: Word): Word { (x & y) ^ (!x & z) }
  function Maj(x: Word, y: Word, z: Word): Word { (x & y) ^ (x & z) ^ (y & z) }
  function Ep0(x: Word): Word { Rotr(x, 2) ^ Rotr(x, 13) ^ Rotr(x, 22) }
  function Ep1(x: Word): Word { Rotr(x, 6) ^ Rotr(x, 11) ^ Rotr(x, 25) }
  function Sig0(x: Word): Word { Rotr(x, 7) ^ Rotr(x, 18) ^ (x >> 3) }
  function Sig1(x: Word): Word { Rotr(x, 17) ^ Rotr(x, 19) ^ (x >> 10) }

  /** Section 3.1: a word is four bytes, most significant first. */
  function BigEndianWord(b0: byte, b1: byte, b2: byte, b3: byte): Word {
    ((b0 as Word) << 24) | ((b1 as Word) << 16) | ((b2 as Word) << 8) | (b3 as Word)
  }

  function WordByte(w: Word, k: nat): byte
    requires k < 4
  {
    var b := if k == 0 then w >> 24 else if k == 1 then w >> 16 else if k == 2 then w >> 8 else w;
    (b & 0xFF) as bv8 as int
  }

  /** The message schedule W_t of section 6.2.2, step 1. */
  function Schedule(block: seq<byte>, t: nat): Word
    requires |block| == 64
  {
    if t < 16 then BigEndianWord(block[4 * t], block[4 * t + 1], block[4 * t + 2], block[4 * t + 3])
    else Add(Add(Add(Sig1(Schedule(block, t - 2)), Schedule(block, t - 7)), Sig0(Schedule(block, t - 15))),
      Schedule(block, t - 16))
  }

  datatype Vars = Vars(a: Word, b: Word, c: Word, d: Word, e: Word, f: Word, g: Word, h: Word)

  /** Section 6.2.2, step 3: one round. */
  function Round(v: Vars, k: Word, w: Word): Vars {
    var t1 := Add(Add(Add(Add(v.h, Ep1(v.e)), Ch(v.e, v.f, v.g)), k), w);
    var t2 := Add(Ep0(v.a), Maj(v.a, v.b, v.c));
    Vars(Add(t1, t2), v.a, v.b, v.c, Add(v.d, t1), v.e, v.f, v.g)
  }

  function Rounds(v: Vars, block: seq<byte>, t: nat): Vars
    requires |block| == 64 && t <= 64
  {
    if t == 0 then v else Round(Rounds(v, block, t - 1), K[t - 1], Schedule(block, t - 1))
  }

  function Load(h: Chain): Vars {
    Vars(h[0], h[1], h[2], h[3], h[4], h[5], h[6], h[7])
  }

  /** Section 6.2.2, steps 2 to 4. */
  function Compress(h: Chain, block: seq<byte>): Chain
    requires |block| == 64
  {
    var v := Rounds(Load(h), block, 64);
    [Add(h[0], v.a), Add(h[1], v.b), Add(h[2], v.c), Add(h[3], v.d),
     Add(h[4], v.e), Add(h[5], v.f), Add(h[6], v.g), Add(h[7], v.h)]
  }

  /** The chaining value H^(i) after the i whole blocks of m. */
  function HashBlocks(m: seq<byte>): Chain
    requires |m| % 64 == 0
  {
    if m == [] then H0() else Compress(HashBlocks(m[..|m| - 64]), m[|m| - 64..])
  }

  function Pow256(k: nat): (p: nat)
    ensures p > 0
  {
    if k == 0 then 1 else 256 * Pow256(k - 1)
  }

  /** A number as eight bytes, most significant first. */
  function BE64(n: nat): (r: seq<byte>)
    ensures |r| == 8
  {
    seq(8, j requires 0 <= j < 8 => n / Pow256(7 - j) % 256)
  }

  function Zeros(n: nat): (z: seq<byte>)
    ensures |z| == n
  {
    seq(n, i => 0)
  }

  /** The number of zero bytes that bring a message with its end mark to 56 bytes modulo 64 (section 5.1.1). */
  function ZeroCount(len: nat): (k: nat)
    ensures k < 64 && (len + 1 + k) % 64 == 56
  {
    (119 - len % 64) % 64
  }

  /** Section 5.1.1; the length field holds the bit length modulo 2^64, which is the bit length itself on FIPS
      messages. */
  function Pad(m: seq<byte>): (p: seq<byte>)
    ensures |p| % 64 == 0
  {
    var k := ZeroCount(|m|);
    assert (|m| + 1 + k + 8) % 64 == 0;
    m + [0x80] + Zeros(k) + BE64(8 * |m| % TWO_64)
  }

  /** Section 6.2.2: the digest is the final chaining value as 32 bytes. */
  function DigestBytes(h: Chain): (r: seq<byte>)
    ensures |r| == 32
  {
    seq(32, i requires 0 <= i < 32 => WordByte(h[i / 4], i % 4))
  }

  function Sha256(m: seq<byte>): (r: seq<byte>)
    ensures |r| == 32
  {
    DigestBytes(HashBlocks(Pad(m)))
  }
}
