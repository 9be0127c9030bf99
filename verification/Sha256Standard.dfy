/** SHA-256 as FIPS 180-4 defines it for messages of whole bytes: padding (section 5.1.1), parsing into
    blocks (5.2.1), initial value (5.3.3), and the hash computation (6.2.2). */
module Sha256Standard {

  type Byte = x: int | 0 <= x < 256

  type Word = bv32

  /** Addition modulo 2^32. */
  function Add(x: Word, y: Word): Word { x + y }

  // ----- functions and constants (sections 4.1.2 and 4.2.2)

  function RotR(x: Word, n: bv6): Word
    requires 0 < n < 32
  {
    (x >> n) | (x << (32 - n))
  }

  function Ch(x: Word, y: Word, z: Word): Word { (x & y) ^ (!x & z) }

  function Maj(x: Word, y: Word, z: Word): Word { (x & y) ^ (x & z) ^ (y & z) }

  function BigSigma0(x: Word): Word { RotR(x, 2) ^ RotR(x, 13) ^ RotR(x, 22) }

  function BigSigma1(x: Word): Word { RotR(x, 6) ^ RotR(x, 11) ^ RotR(x, 25) }

  function SmallSigma0(x: Word): Word { RotR(x, 7) ^ RotR(x, 18) ^ (x >> 3) }

  function SmallSigma1(x: Word): Word { RotR(x, 17) ^ RotR(x, 19) ^ (x >> 10) }

  /** The round constants, in rows of eight. */
  function ConstantRow(r: nat): (row: seq<Word>)
    requires r < 8
    ensures |row| == 8
  {
    match r
    case 0 => [ 0x428a2f98, 0x71374491, 0xb5c0fbcf, 0xe9b5dba5, 0x3956c25b, 0x59f111f1, 0x923f82a4, 0xab1c5ed5 ]
    case 1 => [ 0xd807aa98, 0x12835b01, 0x243185be, 0x550c7dc3, 0x72be5d74, 0x80deb1fe, 0x9bdc06a7, 0xc19bf174 ]
    case 2 => [ 0xe49b69c1, 0xefbe4786, 0x0fc19dc6, 0x240ca1cc, 0x2de92c6f, 0x4a7484aa, 0x5cb0a9dc, 0x76f988da ]
    case 3 => [ 0x983e5152, 0xa831c66d, 0xb00327c8, 0xbf597fc7, 0xc6e00bf3, 0xd5a79147, 0x06ca6351, 0x14292967 ]
    case 4 => [ 0x27b70a85, 0x2e1b2138, 0x4d2c6dfc, 0x53380d13, 0x650a7354, 0x766a0abb, 0x81c2c92e, 0x92722c85 ]
    case 5 => [ 0xa2bfe8a1, 0xa81a664b, 0xc24b8b70, 0xc76c51a3, 0xd192e819, 0xd6990624, 0xf40e3585, 0x106aa070 ]
    case 6 => [ 0x19a4c116, 0x1e376c08, 0x2748774c, 0x34b0bcb5, 0x391c0cb3, 0x4ed8aa4a, 0x5b9cca4f, 0x682e6ff3 ]
    case _ => [ 0x748f82ee, 0x78a5636f, 0x84c87814, 0x8cc70208, 0x90befffa, 0xa4506ceb, 0xbef9a3f7, 0xc67178f2 ]
  }

  function RoundConstants(): (k: seq<Word>)
    ensures |k| == 64
  {
    seq(64, t requires 0 <= t < 64 => ConstantRow(t / 8)[t % 8])
  }

  function InitialHash(): (h: seq<Word>)
    ensures |h| == 8
  {
    [ 0x6a09e667, 0xbb67ae85, 0x3c6ef372, 0xa54ff53a, 0x510e527f, 0x9b05688c, 0x1f83d9ab, 0x5be0cd19 ]
  }

  // ----- padding

  function Zeros(n: nat): (z: seq<Byte>)
    ensures |z| == n
  {
    seq(n, _ => 0)
  }

  /** Byte number k of a number, counted from the least significant. */
  function ByteOf(n: nat, k: nat): Byte {
    if k == 0 then n % 256 else ByteOf(n / 256, k - 1)
  }

  const LENGTHS: nat := 0x1_0000_0000_0000_0000

  /** A length as a 64-bit number, most significant byte first; the standard's messages are shorter. */
  function Length64(n: nat): (b: seq<Byte>)
    ensures |b| == 8
  {
    seq(8, k requires 0 <= k < 8 => ByteOf(n % LENGTHS, 7 - k))
  }

  /** How many zero bytes make message, one bit and length fill whole blocks. */
  function ZerosFor(n: nat): nat { (119 - n % 64) % 64 }

  predicate Fills(n: nat, k: nat) { (n + 1 + k) % 64 == 56 }

  /** It is the least such number. */
  lemma ZerosForLeast(n: nat)
    ensures Fills(n, ZerosFor(n)) && forall k: nat :: Fills(n, k) ==> k >= ZerosFor(n)
  {
  }

  function Pad(m: seq<Byte>): (p: seq<Byte>)
    ensures |p| == |m| + 1 + ZerosFor(|m|) + 8
  {
    m + [0x80] + Zeros(ZerosFor(|m|)) + Length64(8 * |m|)
  }

  lemma PadsToBlocks(m: seq<Byte>)
    ensures |Pad(m)| % 64 == 0
  {
    hide ZerosFor, Pad;
    ZerosForLeast(|m|);
  }

  // ----- hash computation

  function ToWord(b0: Byte, b1: Byte, b2: Byte, b3: Byte): Word {
    ((b0 as bv32) << 24) | ((b1 as bv32) << 16) | ((b2 as bv32) << 8) | (b3 as bv32)
  }

  /** The first n words of the message schedule. */
  function Schedule(block: seq<Byte>, n: nat): (w: seq<Word>)
    requires |block| == 64 && n <= 64
    ensures |w| == n
  {
    if n == 0 then []
    else
      var w, t := Schedule(block, n - 1), n - 1;
      w + [if t < 16 then ToWord(block[4 * t], block[4 * t + 1], block[4 * t + 2], block[4 * t + 3])
           else Add(Add(Add(SmallSigma1(w[t - 2]), w[t - 7]), SmallSigma0(w[t - 15])), w[t - 16])]
  }

  datatype Working = Working(a: Word, b: Word, c: Word, d: Word, e: Word, f: Word, g: Word, h: Word)

  function Round(v: Working, k: Word, w: Word): Working {
    var t1 := Add(Add(Add(Add(v.h, BigSigma1(v.e)), Ch(v.e, v.f, v.g)), k), w);
    var t2 := Add(BigSigma0(v.a), Maj(v.a, v.b, v.c));
    Working(Add(t1, t2), v.a, v.b, v.c, Add(v.d, t1), v.e, v.f, v.g)
  }

  function Rounds(h: seq<Word>, block: seq<Byte>, t: nat): Working
    requires |h| == 8 && |block| == 64 && t <= 64
  {
    if t == 0 then Working(h[0], h[1], h[2], h[3], h[4], h[5], h[6], h[7])
    else Round(Rounds(h, block, t - 1), RoundConstants()[t - 1], Schedule(block, 64)[t - 1])
  }

  function AddWorking(h: seq<Word>, v: Working): (r: seq<Word>)
    requires |h| == 8
    ensures |r| == 8
  {
    [Add(h[0], v.a), Add(h[1], v.b), Add(h[2], v.c), Add(h[3], v.d), Add(h[4], v.e), Add(h[5], v.f), Add(h[6], v.g), Add(h[7], v.h)]
  }

  /** The next intermediate hash value. */
  function Compress(h: seq<Word>, block: seq<Byte>): (r: seq<Word>)
    requires |h| == 8 && |block| == 64
    ensures |r| == 8
  {
    AddWorking(h, Rounds(h, block, 64))
  }

  /** The hash value after all whole blocks. */
  function Blocks(bytes: seq<Byte>): (h: seq<Word>)
    requires |bytes| % 64 == 0
    ensures |h| == 8
  {
    if bytes == [] then InitialHash()
    else Compress(Blocks(bytes[..|bytes| - 64]), bytes[|bytes| - 64..])
  }

  /** Byte i of a word, the most significant first. */
  function WordByte(w: Word, i: nat): Byte
    requires i < 4
  {
    (if i == 0 then (w >> 24) & 0xff else if i == 1 then (w >> 16) & 0xff else if i == 2 then (w >> 8) & 0xff else w & 0xff) as int
  }

  function WordBytes(w: Word): (b: seq<Byte>)
    ensures |b| == 4
  {
    [WordByte(w, 0), WordByte(w, 1), WordByte(w, 2), WordByte(w, 3)]
  }

  function Output(h: seq<Word>): (d: seq<Byte>)
    requires |h| == 8
    ensures |d| == 32
  {
    WordBytes(h[0]) + WordBytes(h[1]) + WordBytes(h[2]) + WordBytes(h[3])
    + WordBytes(h[4]) + WordBytes(h[5]) + WordBytes(h[6]) + WordBytes(h[7])
  }

  function Sha256(m: seq<Byte>): (d: seq<Byte>)
    ensures |d| == 32
  {
    PadsToBlocks(m);
    Output(Blocks(Pad(m)))
  }
}
