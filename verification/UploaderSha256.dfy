/** The streaming SHA-256 of the browser upload worker. `Sha256` keeps the eight chaining words, a
    64-byte carry-over buffer and a byte counter, all updated in place; the two methods at the end are
    its callers. JavaScript's `>>> 0` on sums of 32-bit words is `bv32` addition. */
module UploaderSha256 {
  import opened Envelopes
  import opened Fips180

  /** A JavaScript number holds integers exactly up to this bound; it limits the byte counter. */
  const MAX_SAFE_INTEGER: nat := 0x20_0000_0000_0000

  datatype Outcome = Done | Finished

  // ---------- the worker's tables and mixing ----------

  const K: seq<bv32> :=
    [0x428a2f98, 0x71374491, 0xb5c0fbcf, 0xe9b5dba5, 0x3956c25b, 0x59f111f1, 0x923f82a4, 0xab1c5ed5,
     0xd807aa98, 0x12835b01, 0x243185be, 0x550c7dc3, 0x72be5d74, 0x80deb1fe, 0x9bdc06a7, 0xc19bf174] +
    [0xe49b69c1, 0xefbe4786, 0x0fc19dc6, 0x240ca1cc, 0x2de92c6f, 0x4a7484aa, 0x5cb0a9dc, 0x76f988da,
     0x983e5152, 0xa831c66d, 0xb00327c8, 0xbf597fc7, 0xc6e00bf3, 0xd5a79147, 0x06ca6351, 0x14292967] +
    [0x27b70a85, 0x2e1b2138, 0x4d2c6dfc, 0x53380d13, 0x650a7354, 0x766a0abb, 0x81c2c92e, 0x92722c85,
     0xa2bfe8a1, 0xa81a664b, 0xc24b8b70, 0xc76c51a3, 0xd192e819, 0xd6990624, 0xf40e3585, 0x106aa070] +
    [0x19a4c116, 0x1e376c08, 0x2748774c, 0x34b0bcb5, 0x391c0cb3, 0x4ed8aa4a, 0x5b9cca4f, 0x682e6ff3,
     0x748f82ee, 0x78a5636f, 0x84c87814, 0x8cc70208, 0x90befffa, 0xa4506ceb, 0xbef9a3f7, 0xc67178f2]

  function RotateRight(x: bv32, n: bv6): bv32
    requires n <= 32
  {
    (x >> n) | (x << (32 - n))
  }

  /** `w[i]` for `i` below 16. */
  function WordOf(b0: bv8, b1: bv8, b2: bv8, b3: bv8): bv32 {
    ((b0 as bv32) << 24) | ((b1 as bv32) << 16) | ((b2 as bv32) << 8) | (b3 as bv32)
  }

  // The worker's terms, each with its own shifts; the sums are the ones it cuts off with `>>> 0`.

  function SmallS0(x: bv32): bv32 { Xor3(RotateRight(x, 7), RotateRight(x, 18), x >> 3) }

  function SmallS1(y: bv32): bv32 { Xor3(RotateRight(y, 17), RotateRight(y, 19), y >> 10) }

  function LargeS1(e: bv32): bv32 { Xor3(RotateRight(e, 6), RotateRight(e, 11), RotateRight(e, 25)) }

  function LargeS0(a: bv32): bv32 { Xor3(RotateRight(a, 2), RotateRight(a, 13), RotateRight(a, 22)) }

  function Choose(e: bv32, f: bv32, g: bv32): bv32 { (e & f) ^ (!e & g) }

  function Majority(a: bv32, b: bv32, c: bv32): bv32 { (a & b) ^ (a & c) ^ (b & c) }

  function Add2(a: bv32, b: bv32): bv32 { a + b }

  function Add4(a: bv32, b: bv32, c: bv32, d: bv32): bv32 { a + b + c + d }

  function Add5(a: bv32, b: bv32, c: bv32, d: bv32, e: bv32): bv32 { a + b + c + d + e }

  lemma Rotation(x: bv32, n: bv6)
    requires n <= 32
    ensures RotateRight(x, n) == Rotr(x, n)
  {
  }

  lemma SmallS0IsStandard(x: bv32)
    ensures SmallS0(x) == SmallSigma0(x)
  {
    hide RotateRight, Rotr, Xor3;
    Rotation(x, 7);
    Rotation(x, 18);
  }

  lemma SmallS1IsStandard(x: bv32)
    ensures SmallS1(x) == SmallSigma1(x)
  {
    hide RotateRight, Rotr, Xor3;
    Rotation(x, 17);
    Rotation(x, 19);
  }

  lemma LargeS0IsStandard(x: bv32)
    ensures LargeS0(x) == BigSigma0(x)
  {
    hide RotateRight, Rotr, Xor3;
    Rotation(x, 2);
    Rotation(x, 13);
    Rotation(x, 22);
  }

  lemma LargeS1IsStandard(x: bv32)
    ensures LargeS1(x) == BigSigma1(x)
  {
    hide RotateRight, Rotr, Xor3;
    Rotation(x, 6);
    Rotation(x, 11);
    Rotation(x, 25);
  }

  lemma Choices(x: bv32, y: bv32, z: bv32)
    ensures Choose(x, y, z) == Ch(x, y, z) && Majority(x, y, z) == Maj(x, y, z)
  {
  }

  lemma Sums(a: bv32, b: bv32, c: bv32, d: bv32, e: bv32)
    ensures Add2(a, b) == Sum2(a, b) && Add4(a, b, c, d) == Sum4(a, b, c, d)
    ensures Add5(a, b, c, d, e) == Sum5(a, b, c, d, e)
  {
  }

  /** `w[i]` for later `i`, from `w[i - 15]`, `w[i - 2]`, `w[i - 16]` and `w[i - 7]`. */
  function NextWord(x: bv32, y: bv32, w16: bv32, w7: bv32): bv32 {
    Add4(w16, SmallS0(x), w7, SmallS1(y))
  }

  /** The body of the loop over the working variables. */
  function Mix(v: Working, k: bv32, w: bv32): Working {
    var t1 := Add5(v.h, LargeS1(v.e), Choose(v.e, v.f, v.g), k, w);
    var t2 := Add2(LargeS0(v.a), Majority(v.a, v.b, v.c));
    Working(Add2(t1, t2), v.a, v.b, v.c, Add2(v.d, t1), v.e, v.f, v.g)
  }

  /** They are the standard's. */
  lemma MixingIsStandard(v: Working, k: bv32, w: bv32)
    ensures K == ROUND_CONSTANTS && Mix(v, k, w) == Round(v, k, w)
  {
    hide Add2, Add5, Sum2, Sum5, LargeS0, LargeS1, BigSigma0, BigSigma1, Choose, Ch, Majority, Maj;
    LargeS1IsStandard(v.e);
    LargeS0IsStandard(v.a);
    Choices(v.e, v.f, v.g);
    Choices(v.a, v.b, v.c);
    var t1, t2 := Add5(v.h, LargeS1(v.e), Choose(v.e, v.f, v.g), k, w), Add2(LargeS0(v.a), Majority(v.a, v.b, v.c));
    Sums(v.h, LargeS1(v.e), Choose(v.e, v.f, v.g), k, w);
    Sums(LargeS0(v.a), Majority(v.a, v.b, v.c), 0, 0, 0);
    Sums(t1, t2, 0, 0, 0);
    Sums(v.d, t1, 0, 0, 0);
  }

  lemma NextWordIsStandard(w2: bv32, w7: bv32, w15: bv32, w16: bv32)
    ensures NextWord(w15, w2, w16, w7) == Extend(w2, w7, w15, w16)
  {
    hide Add4, Sum4, SmallS0, SmallS1, SmallSigma0, SmallSigma1;
    SmallS0IsStandard(w15);
    SmallS1IsStandard(w2);
    Sums(w16, SmallS0(w15), w7, SmallS1(w2), 0);
  }

  lemma WordIsStandard(b0: bv8, b1: bv8, b2: bv8, b3: bv8)
    ensures WordOf(b0, b1, b2, b3) == Join(b0, b1, b2, b3)
  {
  }

  /** A number in base 16 without leading zeros, as `toString(16)` writes it. */
  function ToString16(n: nat): (text: string)
    ensures |text| >= 1
  {
    if n < 16 then [HexDigit(n)] else ToString16(n / 16) + [HexDigit(n % 16)]
  }

  function PadStart(text: string, width: nat): string
    decreases width - |text|
  {
    if |text| >= width then text else PadStart("0" + text, width)
  }

  /** Hashing one more block compresses it into the chaining value so far. */
  lemma AppendBlock(m: seq<bv8>, block: seq<bv8>)
    requires |m| % BLOCK_BYTES == 0 && |block| == BLOCK_BYTES
    ensures HashBlocks(m + block) == Compress(HashBlocks(m), block)
  {
    hide Compress;
    var all := m + block;
    assert all[..|m|] == m && all[|m|..] == block;
  }

  /** The eight length bytes the worker writes. */
  function LengthBytes(bitsHi: nat, bitsLo: nat): seq<bv8> {
    [Low8(bitsHi / 0x100_0000), Low8(bitsHi / 0x1_0000), Low8(bitsHi / 0x100), Low8(bitsHi),
     Low8(bitsLo / 0x100_0000), Low8(bitsLo / 0x1_0000), Low8(bitsLo / 0x100), Low8(bitsLo)]
  }

  /** The two 32-bit halves are the 64-bit bit length, beyond 2^32 bytes as well. */
  lemma LengthHalves(bytes: nat)
    requires bytes <= MAX_SAFE_INTEGER
    ensures BigEndian(8 * bytes, 8)
         == LengthBytes((bytes / 0x2000_0000) % 0x1_0000_0000, ((bytes % 0x1_0000_0000) * 8) % 0x1_0000_0000)
  {
    hide Low8, BigEndian;
    var hi, lo := (bytes / 0x2000_0000) % 0x1_0000_0000, ((bytes % 0x1_0000_0000) * 8) % 0x1_0000_0000;
    HalvesMakeBits(bytes, hi, lo);
    FourBytes(lo);
    FourBytes(hi);
    EightBytes(hi, lo);
  }

  lemma HalvesMakeBits(bytes: nat, hi: nat, lo: nat)
    requires bytes <= MAX_SAFE_INTEGER
    requires hi == (bytes / 0x2000_0000) % 0x1_0000_0000 && lo == ((bytes % 0x1_0000_0000) * 8) % 0x1_0000_0000
    ensures 8 * bytes == hi * 0x1_0000_0000 + lo && lo < 0x1_0000_0000
  {
    var q, r := bytes / 0x2000_0000, bytes % 0x2000_0000;
    assert bytes == q * 0x2000_0000 + r && q < 0x1_0000_0000;
    LowBits(q, r);
  }

  lemma LowBits(q: nat, r: nat)
    requires r < 0x2000_0000
    ensures (((q * 0x2000_0000 + r) % 0x1_0000_0000) * 8) % 0x1_0000_0000 == r * 8
  {
    var m := q % 8;
    assert q == q / 8 * 8 + m;
    Modulo32(q * 0x2000_0000 + r, q / 8, m * 0x2000_0000 + r);
    Modulo32((m * 0x2000_0000 + r) * 8, m, r * 8);
  }

  lemma Modulo32(x: nat, k: nat, r: nat)
    requires x == k * 0x1_0000_0000 + r && r < 0x1_0000_0000
    ensures x % 0x1_0000_0000 == r
  {
  }

  /** The bytes of a 64-bit number are those of its upper half, then those of its lower half. */
  lemma EightBytes(hi: nat, lo: nat)
    requires lo < 0x1_0000_0000
    ensures BigEndian(hi * 0x1_0000_0000 + lo, 8) == BigEndian(hi, 4) + BigEndian(lo, 4)
  {
    hide Low8, BigEndian;
    var lo1, lo2, lo3 := lo / 256, lo / 0x1_0000, lo / 0x100_0000;
    Peel(hi * 0x1_0000_0000 + lo, hi * 0x100_0000 + lo1, lo, 8);
    Peel(hi * 0x100_0000 + lo1, hi * 0x1_0000 + lo2, lo1, 7);
    Peel(hi * 0x1_0000 + lo2, hi * 0x100 + lo3, lo2, 6);
    Peel(hi * 0x100 + lo3, hi, lo3, 5);
    FourBytes(lo);
  }

  lemma Peel(n: nat, quotient: nat, low: nat, count: nat)
    requires count > 0 && n / 256 == quotient && n % 256 == low % 256
    ensures BigEndian(n, count) == BigEndian(quotient, count - 1) + [Low8(low)]
  {
  }

  lemma FourBytes(n: nat)
    ensures BigEndian(n, 4) == [Low8(n / 0x100_0000), Low8(n / 0x1_0000), Low8(n / 0x100), Low8(n)]
  {
    hide ByteOf;
    assert n / 256 / 256 == n / 0x1_0000 && n / 256 / 256 / 256 == n / 0x100_0000;
    calc {
      BigEndian(n, 4);
      BigEndian(n / 256, 3) + [Low8(n)];
      BigEndian(n / 256 / 256, 2) + [Low8(n / 256)] + [Low8(n)];
      BigEndian(n / 256 / 256 / 256, 1) + [Low8(n / 256 / 256)] + [Low8(n / 256)] + [Low8(n)];
    }
  }

  /** Fewer than 64 zeros fill whole blocks in one way only. */
  lemma ZeroBytesIsUnique(length: nat, zeros: nat)
    requires zeros < BLOCK_BYTES && FillsBlocks(length, zeros)
    ensures zeros == ZeroBytes(length)
  {
  }

  /** What the worker appends is the padding of FIPS 180-4. */
  lemma PaddingIsPad(message: seq<bv8>, zeros: nat)
    requires |message| <= MAX_SAFE_INTEGER && zeros < BLOCK_BYTES && FillsBlocks(|message|, zeros)
    ensures message + [0x80] + Zeros(zeros)
            + LengthBytes((|message| / 0x2000_0000) % 0x1_0000_0000, ((|message| % 0x1_0000_0000) * 8) % 0x1_0000_0000)
         == Pad(message)
  {
    hide ByteOf, BigEndian, LengthBytes;
    ZeroBytesIsUnique(|message|, zeros);
    LengthHalves(|message|);
  }

  /** The number a base-16 digit, or a text of them, stands for. */
  function DigitValue(c: char): int {
    if '0' <= c <= '9' then c as int - '0' as int else c as int - 'a' as int + 10
  }

  function TextValue(text: string): int {
    if |text| == 0 then 0 else 16 * TextValue(text[..|text| - 1]) + DigitValue(text[|text| - 1])
  }

  predicate IsHexText(text: string) {
    forall i :: 0 <= i < |text| ==> '0' <= text[i] <= '9' || 'a' <= text[i] <= 'f'
  }

  /** The digits of a number read back as the number. */
  lemma {:induction false} HexReadsBack(n: nat, digits: nat)
    requires n < Power16(digits)
    ensures IsHexText(Hex(n, digits)) && TextValue(Hex(n, digits)) == n
  {
    if digits > 0 {
      hide HexDigit, DigitValue;
      HexReadsBack(n / 16, digits - 1);
      DigitReadsBack(n % 16);
      TextPush(Hex(n / 16, digits - 1), HexDigit(n % 16));
    }
  }

  lemma DigitReadsBack(d: nat)
    requires d < 16
    ensures DigitValue(HexDigit(d)) == d && ('0' <= HexDigit(d) <= '9' || 'a' <= HexDigit(d) <= 'f')
  {
  }

  lemma TextPush(text: string, c: char)
    ensures TextValue(text + [c]) == 16 * TextValue(text) + DigitValue(c)
    ensures IsHexText(text + [c]) <==> IsHexText(text) && ('0' <= c <= '9' || 'a' <= c <= 'f')
  {
    hide DigitValue;
    var all := text + [c];
    assert all[..|text|] == text && all[|text|] == c;
    assert forall i :: 0 <= i < |text| ==> all[i] == text[i];
  }

  /** Padding a minimal base-16 numeral on the left gives the fixed-width one. */
  lemma {:induction false} PaddedHex(n: nat, digits: nat)
    requires digits >= 1 && n < Power16(digits)
    ensures PadStart(ToString16(n), digits) == Hex(n, digits)
  {
    PadStartZeros(ToString16(n), digits);
    HexIsZerosAndNumeral(n, digits);
  }

  function Power16(d: nat): nat { if d == 0 then 1 else 16 * Power16(d - 1) }

  function ZeroDigits(count: nat): string { seq(count, i => '0') }

  lemma {:induction false} PadStartZeros(text: string, width: nat)
    ensures PadStart(text, width) == (if |text| >= width then text else ZeroDigits(width - |text|) + text)
    decreases width - |text|
  {
    if |text| < width {
      PadStartZeros("0" + text, width);
      assert ZeroDigits(width - |text|) + text == ZeroDigits(width - |text| - 1) + ("0" + text);
    }
  }

  lemma {:induction false} HexIsZerosAndNumeral(n: nat, digits: nat)
    requires digits >= 1 && n < Power16(digits)
    ensures |ToString16(n)| <= digits
    ensures Hex(n, digits) == ZeroDigits(digits - |ToString16(n)|) + ToString16(n)
  {
    if n < 16 {
      HexOfZero(digits - 1);
    } else {
      HexIsZerosAndNumeral(n / 16, digits - 1);
    }
  }

  lemma {:induction false} HexOfZero(digits: nat)
    ensures Hex(0, digits) == ZeroDigits(digits)
  {
    if digits > 0 {
      HexOfZero(digits - 1);
    }
  }

  class Sha256Stream {
    var h: array<bv32>
    var buf: array<bv8>
    var bufLen: nat
    var bytesHashed: nat
    var w: array<bv32>
    var finished: bool

    /** Every byte passed to `Update` so far. */
    ghost var message: seq<bv8>

    /** The object's own arrays are distinct from each other and never change identity. */
    ghost predicate Shape()
      reads `h, `buf, `w
    {
      && h.Length == 8 && buf.Length == BLOCK_BYTES && w.Length == 64
      && h != w
    }

    /** The chaining words cover the whole blocks of `message`; the buffer holds the rest. */
    ghost predicate Streaming()
      reads this, h, buf
    {
      && Shape()
      && !finished
      && bytesHashed == |message|
      && bufLen < BLOCK_BYTES
      && Covers(message, bufLen)
    }

    /** The chaining words hash all of `m` but its last `rest` bytes, which the buffer starts with. */
    ghost predicate Covers(m: seq<bv8>, rest: nat)
      reads `h, `buf, `w, h, buf
      requires Shape()
    {
      && rest <= BLOCK_BYTES && rest <= |m|
      && (|m| - rest) % BLOCK_BYTES == 0
      && h[..] == HashBlocks(m[..|m| - rest])
      && buf[..rest] == m[|m| - rest..]
    }

    constructor ()
      ensures Streaming() && message == []
      ensures fresh(h) && fresh(buf) && fresh(w)
    {
      h := new bv32[8] [0x6a09e667, 0xbb67ae85, 0x3c6ef372, 0xa54ff53a, 0x510e527f, 0x9b05688c, 0x1f83d9ab, 0x5be0cd19];
      buf := new bv8[64](_ => 0);
      bufLen := 0;
      bytesHashed := 0;
      w := new bv32[64](_ => 0);
      finished := false;
      message := [];
      new;
      assert h[..] == INITIAL_HASH;
    }

    /** Schedule words 0 to 15, from the 64 bytes at `offset`. */
    method LoadBlock(block: array<bv8>, offset: nat)
      requires Shape() && offset + BLOCK_BYTES <= block.Length
      modifies w
      ensures forall t :: 0 <= t < 16 ==> w[t] == Schedule(block[offset..offset + BLOCK_BYTES], t)
    {
      hide Join, Extend, WordOf;
      ghost var bytes := block[offset..offset + BLOCK_BYTES];
      for i := 0 to 16
        invariant forall t :: 0 <= t < i ==> w[t] == Schedule(bytes, t)
      {
        var j := offset + i * 4;
        WordIsStandard(block[j], block[j + 1], block[j + 2], block[j + 3]);
        w[i] := WordOf(block[j], block[j + 1], block[j + 2], block[j + 3]);
      }
    }

    /** Schedule words 16 to 63, each from four earlier ones. */
    method ExtendSchedule(ghost block: seq<bv8>)
      requires Shape() && |block| == BLOCK_BYTES
      requires forall t :: 0 <= t < 16 ==> w[t] == Schedule(block, t)
      modifies w
      ensures forall t :: 0 <= t < 64 ==> w[t] == Schedule(block, t)
    {
      hide Join, Extend, NextWord;
      for i := 16 to 64
        invariant forall t :: 0 <= t < i ==> w[t] == Schedule(block, t)
      {
        NextWordIsStandard(w[i - 2], w[i - 7], w[i - 15], w[i - 16]);
        w[i] := NextWord(w[i - 15], w[i - 2], w[i - 16], w[i - 7]);
      }
    }

    /** The 64 rounds over a filled schedule. */
    method RunRounds(start: Working, ghost block: seq<bv8>) returns (v: Working)
      requires Shape() && |block| == BLOCK_BYTES
      requires forall t :: 0 <= t < 64 ==> w[t] == Schedule(block, t)
      ensures v == Rounds(start, block, 64)
    {
      hide Schedule, Round, Mix;
      v := start;
      for i := 0 to 64
        invariant v == Rounds(start, block, i)
      {
        MixingIsStandard(v, ROUND_CONSTANTS[i], w[i]);
        v := Mix(v, K[i], w[i]);
      }
    }

    method Process(block: array<bv8>, offset: nat)
      requires Shape() && offset + BLOCK_BYTES <= block.Length
      modifies h, w
      ensures h[..] == Compress(old(h[..]), block[offset..offset + BLOCK_BYTES])
    {
      hide Schedule, Rounds, Sum2, Add2;
      ghost var before, bytes := h[..], block[offset..offset + BLOCK_BYTES];
      LoadBlock(block, offset);
      ExtendSchedule(bytes);
      var start := Working(h[0], h[1], h[2], h[3], h[4], h[5], h[6], h[7]);
      var v := RunRounds(start, bytes);
      var next := [Add2(h[0], v.a), Add2(h[1], v.b), Add2(h[2], v.c), Add2(h[3], v.d),
                   Add2(h[4], v.e), Add2(h[5], v.f), Add2(h[6], v.g), Add2(h[7], v.h)];
      forall a, b ensures Add2(a, b) == Sum2(a, b) { Sums(a, b, 0, 0, 0); }
      assert start == Load(before);
      assert next == Compress(before, bytes);
      forall i | 0 <= i < 8 { h[i] := next[i]; }
      assert h[..] == next && block[offset..offset + BLOCK_BYTES] == bytes;
    }

    /** `this.buf[this.bufLen++] = x`. */
    method PushByte(x: bv8, ghost m: seq<bv8>)
      requires Shape() && Covers(m, bufLen) && bufLen < BLOCK_BYTES
      modifies `bufLen, buf
      ensures bufLen == old(bufLen) + 1 && Covers(m + [x], bufLen)
    {
      hide HashBlocks;
      ghost var start := |m| - bufLen;
      buf[bufLen] := x;
      bufLen := bufLen + 1;
      assert (m + [x])[..start] == m[..start];
      assert buf[..bufLen] == m[start..] + [x] == (m + [x])[start..];
    }

    /** Hashes a full buffer and empties it. */
    method FlushBuffer(ghost m: seq<bv8>)
      requires Shape() && Covers(m, BLOCK_BYTES) && bufLen == BLOCK_BYTES
      modifies `bufLen, h, w
      ensures bufLen == 0 && Covers(m, 0)
    {
      hide Compress;
      Process(buf, 0);
      bufLen := 0;
      assert buf[0..BLOCK_BYTES] == m[|m| - BLOCK_BYTES..];
      assert m[..|m| - 0] == m;
    }

    /** Appends `data` to the message; after the digest it throws and changes nothing. */
    method Update(data: array<bv8>) returns (outcome: Outcome)
      requires Shape() && (finished || Streaming()) && data != buf
      modifies this, h, buf, w
      ensures h == old(h) && buf == old(buf) && w == old(w)
      ensures outcome == (if old(finished) then Finished else Done)
      ensures old(finished) ==> unchanged(this) && h[..] == old(h[..])
      ensures !old(finished) ==> Streaming() && message == old(message) + data[..]
    {
      if finished {
        return Finished;
      }
      hide Compress, HashBlocks, Covers;
      bytesHashed := bytesHashed + data.Length;
      var pos := 0;
      ghost var m := message;
      assert m == message + data[..0];
      if bufLen > 0 {
        pos, m := TopUp(data);
      }
      pos, m := ProcessWhole(data, pos, m);
      m := StoreTail(data, pos, m);
      message := m;
      return Done;
    }

    /** The first loop of `Update`: completes a partly filled buffer and hashes it when full. */
    method TopUp(data: array<bv8>) returns (pos: nat, ghost m: seq<bv8>)
      requires Shape() && data != buf && bufLen < BLOCK_BYTES && Covers(message, bufLen)
      modifies `bufLen, h, buf, w
      ensures pos <= data.Length && m == message + data[..pos] && bufLen < BLOCK_BYTES && Covers(m, bufLen)
      ensures bufLen == 0 || pos == data.Length
    {
      hide Compress, HashBlocks;
      pos, m := 0, message;
      while bufLen < BLOCK_BYTES && pos < data.Length
        invariant pos <= data.Length && bufLen <= BLOCK_BYTES
        invariant Covers(m, bufLen) && m == message + data[..pos]
        modifies `bufLen, buf
      {
        PushByte(data[pos], m);
        m := m + [data[pos]];
        pos := pos + 1;
      }
      if bufLen == BLOCK_BYTES {
        FlushBuffer(m);
      }
    }

    /** The last loop of `Update`: keeps the bytes that do not fill a block. */
    method StoreTail(data: array<bv8>, start: nat, ghost before: seq<bv8>) returns (ghost m: seq<bv8>)
      requires Shape() && data != buf && start <= data.Length && bufLen < BLOCK_BYTES
      requires Covers(before, bufLen) && before == message + data[..start]
      requires start == data.Length || bufLen + data.Length - start < BLOCK_BYTES
      modifies `bufLen, buf
      ensures bufLen < BLOCK_BYTES && m == message + data[..] && Covers(m, bufLen)
    {
      hide Compress, HashBlocks;
      var pos := start;
      m := before;
      while pos < data.Length
        invariant start <= pos <= data.Length && bufLen < BLOCK_BYTES
        invariant pos == data.Length || bufLen + data.Length - pos < BLOCK_BYTES
        invariant Covers(m, bufLen) && m == message + data[..pos]
        modifies `bufLen, buf
      {
        PushByte(data[pos], m);
        m := m + [data[pos]];
        pos := pos + 1;
      }
      assert data[..pos] == data[..];
    }

    /** The middle loop of `Update`: hashes whole blocks straight from `data`. */
    method ProcessWhole(data: array<bv8>, start: nat, ghost before: seq<bv8>) returns (pos: nat, ghost m: seq<bv8>)
      requires Shape() && data != buf && start <= data.Length && bufLen < BLOCK_BYTES
      requires Covers(before, bufLen) && before == message + data[..start]
      requires bufLen == 0 || start == data.Length
      modifies h, w
      ensures start <= pos <= data.Length && m == message + data[..pos] && Covers(m, bufLen)
      ensures pos == data.Length || bufLen + data.Length - pos < BLOCK_BYTES
    {
      hide Compress, HashBlocks;
      pos, m := start, before;
      while pos + BLOCK_BYTES <= data.Length
        invariant start <= pos <= data.Length && m == message + data[..pos] && Covers(m, bufLen)
        invariant bufLen == 0 || pos == data.Length
      {
        ghost var block := data[pos..pos + BLOCK_BYTES];
        Process(data, pos);
        AppendBlock(m, block);
        assert m[..|m| - 0] == m && (m + block)[..|m + block| - 0] == m + block;
        m := m + block;
        pos := pos + BLOCK_BYTES;
      }
    }

    /** Pads, hashes the last one or two blocks and writes the digest as text. */
    method DigestHex() returns (outcome: Outcome, text: string)
      requires Shape() && (finished || Streaming())
      requires bytesHashed <= MAX_SAFE_INTEGER
      modifies this, h, buf, w
      ensures h == old(h) && buf == old(buf) && w == old(w) && finished && message == old(message)
      ensures old(finished) ==> outcome == Finished && text == "" && h[..] == old(h[..])
      ensures !old(finished) ==> outcome == Done && text == HexDigest(Sha256(message))
    {
      if finished {
        return Finished, "";
      }
      hide Compress, HashBlocks, LengthBytes, Pad, HexDigest, Covers, Zeros;
      finished := true;
      var bitsHi := (bytesHashed / 0x2000_0000) % 0x1_0000_0000;
      var bitsLo := ((bytesHashed % 0x1_0000_0000) * 8) % 0x1_0000_0000;
      ghost var zeros := AppendPadding();
      ghost var m := message + [0x80] + Zeros(zeros);
      PaddingIsPad(message, zeros);
      WriteLength(bitsHi, bitsLo, m);
      text := ToHex();
      return Done, text;
    }

    /** The byte 0x80 and zeros up to byte 56, through a second block when the first has no room. */
    method AppendPadding() returns (ghost zeros: nat)
      requires Shape() && bufLen < BLOCK_BYTES && Covers(message, bufLen)
      modifies `bufLen, h, buf, w
      ensures bufLen == 56 && Covers(message + [0x80] + Zeros(zeros), 56)
      ensures zeros < BLOCK_BYTES && FillsBlocks(|message|, zeros)
    {
      hide Compress, HashBlocks, Covers, Zeros, FillsBlocks;
      ghost var start := message + [0x80];
      PushByte(0x80, message);
      zeros := 0;
      ghost var m := start;
      NoZeros(start);
      if bufLen > 56 {
        zeros := BLOCK_BYTES - bufLen;
        m := PadWithZeros(BLOCK_BYTES, m);
        FlushBuffer(m);
      }
      ghost var more := 56 - bufLen;
      m := PadWithZeros(56, m);
      JoinZeros(start, zeros, more);
      zeros := zeros + more;
      CoversAligned(m, 56);
      AlignedFills(message, zeros);
    }

    lemma NoZeros(start: seq<bv8>)
      ensures start + Zeros(0) == start
    {
    }

    lemma JoinZeros(start: seq<bv8>, a: nat, b: nat)
      ensures start + Zeros(a) + Zeros(b) == start + Zeros(a + b)
    {
      assert Zeros(a) + Zeros(b) == Zeros(a + b);
    }

    lemma AlignedFills(m: seq<bv8>, zeros: nat)
      requires var all := m + [0x80] + Zeros(zeros); |all| >= 56 && (|all| - 56) % BLOCK_BYTES == 0
      ensures FillsBlocks(|m|, zeros)
    {
      var k := (|m| + 1 + zeros - 56) / BLOCK_BYTES;
      assert |m| + 1 + zeros + 8 == (k + 1) * BLOCK_BYTES;
    }

    lemma CoversAligned(m: seq<bv8>, rest: nat)
      requires Shape() && Covers(m, rest)
      ensures rest <= |m| && (|m| - rest) % BLOCK_BYTES == 0
    {
    }

    /** `while (this.bufLen < limit) this.buf[this.bufLen++] = 0`. */
    method PadWithZeros(limit: nat, ghost before: seq<bv8>) returns (ghost m: seq<bv8>)
      requires Shape() && bufLen <= limit <= BLOCK_BYTES && Covers(before, bufLen)
      modifies `bufLen, buf
      ensures bufLen == limit && Covers(m, bufLen)
      ensures m == before + Zeros(limit - old(bufLen))
    {
      hide HashBlocks;
      m := before;
      while bufLen < limit
        invariant old(bufLen) <= bufLen <= limit
        invariant Covers(m, bufLen) && m == before + Zeros(bufLen - old(bufLen))
        modifies `bufLen, buf
      {
        PushByte(0, m);
        m := m + [0];
      }
    }

    /** Writes the two halves of the bit length into the last eight bytes and hashes the buffer. */
    method WriteLength(bitsHi: nat, bitsLo: nat, ghost m: seq<bv8>)
      requires Shape() && bufLen == 56 && Covers(m, 56)
      modifies buf, h, w
      ensures h[..] == HashBlocks(m + LengthBytes(bitsHi, bitsLo))
    {
      hide Compress, HashBlocks, ByteOf;
      var tail := LengthBytes(bitsHi, bitsLo);
      forall i | 56 <= i < 64 { buf[i] := tail[i - 56]; }
      assert h[..] == old(h[..]);
      ghost var cut := |m| - 56;
      ghost var all := m + tail;
      assert buf[0..BLOCK_BYTES] == m[cut..] + tail == all[cut..];
      assert all == m[..cut] + all[cut..];
      AppendBlock(m[..cut], all[cut..]);
      Process(buf, 0);
    }

    /** The digest words as `toString(16).padStart(8, '0')`, joined. */
    method ToHex() returns (text: string)
      requires Shape()
      ensures text == HexDigest(h[..])
    {
      text := "";
      for i := 0 to 8
        invariant text == HexDigest(h[..i])
      {
        assert h[..i + 1][..i] == h[..i];
        PaddedHex(h[i] as nat, 8);
        text := text + PadStart(ToString16(h[i] as nat), 8);
      }
      assert h[..8] == h[..];
    }
  }

  method ToArray(bytes: seq<bv8>) returns (a: array<bv8>)
    ensures fresh(a) && a[..] == bytes
  {
    a := new bv8[|bytes|](i requires 0 <= i < |bytes| => bytes[i]);
  }

  /** However a message is cut into `Update` calls, the digest is SHA-256 of the whole message. */
  method HashChunks(chunks: seq<seq<bv8>>) returns (text: string)
    requires |Flatten(chunks)| <= MAX_SAFE_INTEGER
    ensures text == HexDigest(Sha256(Flatten(chunks)))
  {
    hide HexDigest, Fips180.Sha256, HashBlocks, Sha256Stream.Covers;
    var sha := new Sha256Stream();
    for i := 0 to |chunks|
      invariant fresh(sha) && fresh(sha.h) && fresh(sha.buf) && fresh(sha.w)
      invariant sha.Streaming() && sha.message == Flatten(chunks[..i])
    {
      var data := ToArray(chunks[i]);
      var _ := sha.Update(data);
      assert chunks[..i + 1][..i] == chunks[..i];
    }
    assert chunks[..|chunks|] == chunks;
    var _, digest := sha.DigestHex();
    text := digest;
  }

  /** Where slice `i` of a file of `size` bytes starts. */
  function SliceStart(i: nat, chunkSize: nat, size: nat): (s: nat)
    ensures s <= size
  {
    if i * chunkSize < size then i * chunkSize else size
  }

  function SliceCount(chunkSize: nat, size: nat): nat
    requires chunkSize > 0
  {
    (size + chunkSize - 1) / chunkSize
  }

  /** The slices follow each other without gap or overlap and the last one ends the file. */
  lemma SlicesTile(i: nat, chunkSize: nat, size: nat)
    requires chunkSize > 0 && i <= SliceCount(chunkSize, size)
    ensures SliceStart(0, chunkSize, size) == 0 && SliceStart(SliceCount(chunkSize, size), chunkSize, size) == size
    ensures i < SliceCount(chunkSize, size) ==>
              && SliceStart(i, chunkSize, size) == i * chunkSize < size
              && SliceStart(i + 1, chunkSize, size)
                 == (if i * chunkSize + chunkSize < size then i * chunkSize + chunkSize else size)
  {
    var q := SliceCount(chunkSize, size);
    assert size + chunkSize - 1 == q * chunkSize + (size + chunkSize - 1) % chunkSize;
    if i < q {
      assert i * chunkSize <= (q - 1) * chunkSize == q * chunkSize - chunkSize;
      assert (i + 1) * chunkSize == i * chunkSize + chunkSize;
    }
  }

  method SliceBounds(i: nat, chunkSize: nat, size: nat) returns (start: nat, end: nat)
    requires chunkSize > 0 && i < SliceCount(chunkSize, size)
    ensures start == SliceStart(i, chunkSize, size) && end == SliceStart(i + 1, chunkSize, size)
    ensures start < end <= size
  {
    SlicesTile(i, chunkSize, size);
    start := i * chunkSize;
    end := if start + chunkSize < size then start + chunkSize else size;
  }

  /** The worker's message handler: a file read in slices of `chunkSize` bytes. */
  method HashFile(file: seq<bv8>, chunkSize: nat) returns (text: string)
    requires chunkSize > 0 && |file| <= MAX_SAFE_INTEGER
    ensures text == HexDigest(Sha256(file))
  {
    hide HexDigest, Fips180.Sha256, HashBlocks, Sha256Stream.Covers, SliceStart, SliceCount;
    var sha := new Sha256Stream();
    var chunks := SliceCount(chunkSize, |file|);
    SlicesTile(0, chunkSize, |file|);
    for i := 0 to chunks
      invariant fresh(sha) && fresh(sha.h) && fresh(sha.buf) && fresh(sha.w)
      invariant sha.Streaming() && sha.message == file[..SliceStart(i, chunkSize, |file|)]
    {
      var start, end := SliceBounds(i, chunkSize, |file|);
      var data := ToArray(file[start..end]);
      var _ := sha.Update(data);
      assert file[..end] == file[..start] + file[start..end];
    }
    assert file[..|file|] == file;
    var _, digest := sha.DigestHex();
    text := digest;
  }
}
