/** The SHA-256 hash of FIPS 180-4, stated on whole messages: the functions of section 4.1.2, the
    constants of sections 4.2.2 and 5.3.3, the padding of section 5.1.1, the parsing of section 5.2.1
    and the hash computation of section 6.2.2. Nothing here is streamed or updated in place; it is the
    reference the uploader's incremental implementation is proved against. */
module Fips180 {

  const BLOCK_BYTES: nat := 64

  /** Section 4.2.2: the 64 round constants. */
  const ROUND_CONSTANTS: seq<bv32> :=
    [0x428a2f98, 0x71374491, 0xb5c0fbcf, 0xe9b5dba5, 0x3956c25b, 0x59f111f1, 0x923f82a4, 0xab1c5ed5,
     0xd807aa98, 0x12835b01, 0x243185be, 0x550c7dc3, 0x72be5d74, 0x80deb1fe, 0x9bdc06a7, 0xc19bf174] +
    [0xe49b69c1, 0xefbe4786, 0x0fc19dc6, 0x240ca1cc, 0x2de92c6f, 0x4a7484aa, 0x5cb0a9dc, 0x76f988da,
     0x983e5152, 0xa831c66d, 0xb00327c8, 0xbf597fc7, 0xc6e00bf3, 0xd5a79147, 0x06ca6351, 0x14292967] +
    [0x27b70a85, 0x2e1b2138, 0x4d2c6dfc, 0x53380d13, 0x650a7354, 0x766a0abb, 0x81c2c92e, 0x92722c85,
     0xa2bfe8a1, 0xa81a664b, 0xc24b8b70, 0xc76c51a3, 0xd192e819, 0xd6990624, 0xf40e3585, 0x106aa070] +
    [0x19a4c116, 0x1e376c08, 0x2748774c, 0x34b0bcb5, 0x391c0cb3, 0x4ed8aa4a, 0x5b9cca4f, 0x682e6ff3,
     0x748f82ee, 0x78a5636f, 0x84c87814, 0x8cc70208, 0x90befffa, 0xa4506ceb, 0xbef9a3f7, 0xc67178f2]

  /** Section 5.3.3: the initial hash value. */
  const INITIAL_HASH: seq<bv32> := [
    0x6a09e667, 0xbb67ae85, 0x3c6ef372, 0xa54ff53a, 0x510e527f, 0x9b05688c, 0x1f83d9ab, 0x5be0cd19
  ]

  function Rotr(x: bv32, n: bv6): bv32
    requires n <= 32
  {
    (x >> n) | (x << (32 - n))
  }

  function Xor3(x: bv32, y: bv32, z: bv32): bv32 { x ^ y ^ z }

  // Sums are modulo 2^32.

  function Sum2(a: bv32, b: bv32): bv32 { a + b }

  function Sum4(a: bv32, b: bv32, c: bv32, d: bv32): bv32 { a + b + c + d }

  function Sum5(a: bv32, b: bv32, c: bv32, d: bv32, e: bv32): bv32 { a + b + c + d + e }

  function Ch(x: bv32, y: bv32, z: bv32): bv32 { (x & y) ^ (!x & z) }

  function Maj(x: bv32, y: bv32, z: bv32): bv32 { (x & y) ^ (x & z) ^ (y & z) }

  function BigSigma0(x: bv32): bv32 { Xor3(Rotr(x, 2), Rotr(x, 13), Rotr(x, 22)) }

  function BigSigma1(x: bv32): bv32 { Xor3(Rotr(x, 6), Rotr(x, 11), Rotr(x, 25)) }

  function SmallSigma0(x: bv32): bv32 { Xor3(Rotr(x, 7), Rotr(x, 18), x >> 3) }

  function SmallSigma1(x: bv32): bv32 { Xor3(Rotr(x, 17), Rotr(x, 19), x >> 10) }

  /** Section 5.2.1: a word from four bytes, most significant byte first. */
  function Join(b0: bv8, b1: bv8, b2: bv8, b3: bv8): bv32 {
    ((b0 as bv32) << 24) | ((b1 as bv32) << 16) | ((b2 as bv32) << 8) | (b3 as bv32)
  }

  /** Section 6.2.2, step 1: a later schedule word from the words 2, 7, 15 and 16 places before it. */
  function Extend(w2: bv32, w7: bv32, w15: bv32, w16: bv32): bv32 {
    Sum4(w16, SmallSigma0(w15), w7, SmallSigma1(w2))
  }

  /** Section 6.2.2, step 1: the message schedule. */
  function Schedule(block: seq<bv8>, t: nat): bv32
    requires |block| == BLOCK_BYTES && t < 64
  {
    if t < 16 then Join(block[4 * t], block[4 * t + 1], block[4 * t + 2], block[4 * t + 3])
    else Extend(Schedule(block, t - 2), Schedule(block, t - 7), Schedule(block, t - 15), Schedule(block, t - 16))
  }

  datatype Working = Working(a: bv32, b: bv32, c: bv32, d: bv32, e: bv32, f: bv32, g: bv32, h: bv32)

  /** Section 6.2.2, step 3: one round with constant `k` and schedule word `w`. */
  function Round(v: Working, k: bv32, w: bv32): Working {
    var t1 := Sum5(v.h, BigSigma1(v.e), Ch(v.e, v.f, v.g), k, w);
    var t2 := Sum2(BigSigma0(v.a), Maj(v.a, v.b, v.c));
    Working(Sum2(t1, t2), v.a, v.b, v.c, Sum2(v.d, t1), v.e, v.f, v.g)
  }

  /** The working variables after the first `t` rounds. */
  function Rounds(v: Working, block: seq<bv8>, t: nat): Working
    requires |block| == BLOCK_BYTES && t <= 64
  {
    if t == 0 then v else Round(Rounds(v, block, t - 1), ROUND_CONSTANTS[t - 1], Schedule(block, t - 1))
  }

  type Hash = h: seq<bv32> | |h| == 8 witness INITIAL_HASH

  function Load(h: Hash): Working {
    Working(h[0], h[1], h[2], h[3], h[4], h[5], h[6], h[7])
  }

  /** Section 6.2.2, steps 1 to 4, for one block. */
  function Compress(h: Hash, block: seq<bv8>): Hash
    requires |block| == BLOCK_BYTES
  {
    var v := Rounds(Load(h), block, 64);
    [Sum2(h[0], v.a), Sum2(h[1], v.b), Sum2(h[2], v.c), Sum2(h[3], v.d),
     Sum2(h[4], v.e), Sum2(h[5], v.f), Sum2(h[6], v.g), Sum2(h[7], v.h)]
  }

  /** The chaining value after all blocks of `message`, in order. */
  function HashBlocks(message: seq<bv8>): Hash
    requires |message| % BLOCK_BYTES == 0
  {
    if |message| < BLOCK_BYTES then INITIAL_HASH
    else
      var cut := |message| - BLOCK_BYTES;
      Compress(HashBlocks(message[..cut]), message[cut..])
  }

  function ByteOf(n: nat): bv8
    requires n < 256
  {
    n as bv8
  }

  function Low8(n: nat): bv8 { ByteOf(n % 256) }

  /** `count` bytes of `n`, most significant first. */
  function BigEndian(n: nat, count: nat): (bytes: seq<bv8>)
    ensures |bytes| == count
  {
    if count == 0 then [] else BigEndian(n / 256, count - 1) + [Low8(n)]
  }

  function Zeros(count: nat): (bytes: seq<bv8>)
    ensures |bytes| == count
  {
    seq(count, i => 0)
  }

  /** A message of `length` bytes, the byte 0x80, `zeros` zero bytes and an 8-byte length fill whole blocks. */
  predicate FillsBlocks(length: nat, zeros: nat) {
    (length + 1 + zeros + 8) % BLOCK_BYTES == 0
  }

  /** Section 5.1.1: the smallest number of zero bytes that fills whole blocks. */
  function ZeroBytes(length: nat): (z: nat)
    ensures FillsBlocks(length, z)
    ensures forall k: nat :: k < z ==> !FillsBlocks(length, k)
  {
    (55 - length) % 64
  }

  /** Section 5.1.1: the padded message. */
  function Pad(message: seq<bv8>): (padded: seq<bv8>)
    ensures |padded| % BLOCK_BYTES == 0
    ensures message < padded
  {
    message + [0x80] + Zeros(ZeroBytes(|message|)) + BigEndian(8 * |message|, 8)
  }

  function Sha256(message: seq<bv8>): Hash {
    HashBlocks(Pad(message))
  }

  function HexDigit(n: nat): char
    requires n < 16
  {
    "0123456789abcdef"[n]
  }

  /** The low `digits` hexadecimal digits of `n`, most significant first. */
  function Hex(n: nat, digits: nat): (text: string)
    ensures |text| == digits
  {
    if digits == 0 then "" else Hex(n / 16, digits - 1) + [HexDigit(n % 16)]
  }

  function HexDigest(h: seq<bv32>): string {
    if |h| == 0 then "" else HexDigest(h[..|h| - 1]) + Hex(h[|h| - 1] as nat, 8)
  }
}
