/** Where the constants of FIPS 180-4 come from: section 4.2.2 takes the first 32 bits of the fractional parts
    of the cube roots of the first 64 primes, section 5.3.3 those of the square roots of the first eight. */
module Fips180Constants {
  import opened Fips180

  // ---------- the table ----------

  function Constant(t: nat): bv32
    requires t < 64
  {
    ROUND_CONSTANTS[t]
  }

  lemma Constants0()
    ensures Constant(0) == 0x428a2f98 && Constant(1) == 0x71374491
    ensures Constant(2) == 0xb5c0fbcf && Constant(3) == 0xe9b5dba5
    ensures Constant(4) == 0x3956c25b && Constant(5) == 0x59f111f1
    ensures Constant(6) == 0x923f82a4 && Constant(7) == 0xab1c5ed5
  {
  }

  lemma Constants8()
    ensures Constant(8) == 0xd807aa98 && Constant(9) == 0x12835b01
    ensures Constant(10) == 0x243185be && Constant(11) == 0x550c7dc3
    ensures Constant(12) == 0x72be5d74 && Constant(13) == 0x80deb1fe
    ensures Constant(14) == 0x9bdc06a7 && Constant(15) == 0xc19bf174
  {
  }

  lemma Constants16()
    ensures Constant(16) == 0xe49b69c1 && Constant(17) == 0xefbe4786
    ensures Constant(18) == 0x0fc19dc6 && Constant(19) == 0x240ca1cc
    ensures Constant(20) == 0x2de92c6f && Constant(21) == 0x4a7484aa
    ensures Constant(22) == 0x5cb0a9dc && Constant(23) == 0x76f988da
  {
  }

  lemma Constants24()
    ensures Constant(24) == 0x983e5152 && Constant(25) == 0xa831c66d
    ensures Constant(26) == 0xb00327c8 && Constant(27) == 0xbf597fc7
    ensures Constant(28) == 0xc6e00bf3 && Constant(29) == 0xd5a79147
    ensures Constant(30) == 0x06ca6351 && Constant(31) == 0x14292967
  {
  }

  lemma Constants32()
    ensures Constant(32) == 0x27b70a85 && Constant(33) == 0x2e1b2138
    ensures Constant(34) == 0x4d2c6dfc && Constant(35) == 0x53380d13
    ensures Constant(36) == 0x650a7354 && Constant(37) == 0x766a0abb
    ensures Constant(38) == 0x81c2c92e && Constant(39) == 0x92722c85
  {
  }

  lemma Constants40()
    ensures Constant(40) == 0xa2bfe8a1 && Constant(41) == 0xa81a664b
    ensures Constant(42) == 0xc24b8b70 && Constant(43) == 0xc76c51a3
    ensures Constant(44) == 0xd192e819 && Constant(45) == 0xd6990624
    ensures Constant(46) == 0xf40e3585 && Constant(47) == 0x106aa070
  {
  }

  lemma Constants48()
    ensures Constant(48) == 0x19a4c116 && Constant(49) == 0x1e376c08
    ensures Constant(50) == 0x2748774c && Constant(51) == 0x34b0bcb5
    ensures Constant(52) == 0x391c0cb3 && Constant(53) == 0x4ed8aa4a
    ensures Constant(54) == 0x5b9cca4f && Constant(55) == 0x682e6ff3
  {
  }

  lemma Constants56()
    ensures Constant(56) == 0x748f82ee && Constant(57) == 0x78a5636f
    ensures Constant(58) == 0x84c87814 && Constant(59) == 0x8cc70208
    ensures Constant(60) == 0x90befffa && Constant(61) == 0xa4506ceb
    ensures Constant(62) == 0xbef9a3f7 && Constant(63) == 0xc67178f2
  {
  }

  // ---------- the roots ----------

  const TWO_32: nat := 0x1_0000_0000

  /** The whole part of the cube root, below 343. */
  function WholeCubeRoot(p: nat): nat {
    if p < 8 then 1 else if p < 27 then 2 else if p < 64 then 3 else if p < 125 then 4 else if p < 216 then 5 else 6
  }

  /** `bits` are the first 32 bits of the fractional part of the cube root of `p`. */
  predicate CubeRootBits(p: nat, bits: nat) {
    var x := WholeCubeRoot(p) * TWO_32 + bits;
    bits < TWO_32 && x * x * x <= p * TWO_32 * TWO_32 * TWO_32 < (x + 1) * (x + 1) * (x + 1)
  }

  /** The whole part of the square root, below 25. */
  function WholeSquareRoot(p: nat): nat {
    if p < 4 then 1 else if p < 9 then 2 else if p < 16 then 3 else 4
  }

  predicate SquareRootBits(p: nat, bits: nat) {
    var x := WholeSquareRoot(p) * TWO_32 + bits;
    bits < TWO_32 && x * x <= p * TWO_32 * TWO_32 < (x + 1) * (x + 1)
  }

  lemma CubeRoots0()
    ensures CubeRootBits(2, 0x428a2f98) && CubeRootBits(3, 0x71374491)
    ensures CubeRootBits(5, 0xb5c0fbcf) && CubeRootBits(7, 0xe9b5dba5)
    ensures CubeRootBits(11, 0x3956c25b) && CubeRootBits(13, 0x59f111f1)
    ensures CubeRootBits(17, 0x923f82a4) && CubeRootBits(19, 0xab1c5ed5)
    ensures CubeRootBits(23, 0xd807aa98) && CubeRootBits(29, 0x12835b01)
    ensures CubeRootBits(31, 0x243185be) && CubeRootBits(37, 0x550c7dc3)
    ensures CubeRootBits(41, 0x72be5d74) && CubeRootBits(43, 0x80deb1fe)
    ensures CubeRootBits(47, 0x9bdc06a7) && CubeRootBits(53, 0xc19bf174)
  {
  }

  lemma CubeRoots16()
    ensures CubeRootBits(59, 0xe49b69c1) && CubeRootBits(61, 0xefbe4786)
    ensures CubeRootBits(67, 0x0fc19dc6) && CubeRootBits(71, 0x240ca1cc)
    ensures CubeRootBits(73, 0x2de92c6f) && CubeRootBits(79, 0x4a7484aa)
    ensures CubeRootBits(83, 0x5cb0a9dc) && CubeRootBits(89, 0x76f988da)
    ensures CubeRootBits(97, 0x983e5152) && CubeRootBits(101, 0xa831c66d)
    ensures CubeRootBits(103, 0xb00327c8) && CubeRootBits(107, 0xbf597fc7)
    ensures CubeRootBits(109, 0xc6e00bf3) && CubeRootBits(113, 0xd5a79147)
    ensures CubeRootBits(127, 0x06ca6351) && CubeRootBits(131, 0x14292967)
  {
  }

  lemma CubeRoots32()
    ensures CubeRootBits(137, 0x27b70a85) && CubeRootBits(139, 0x2e1b2138)
    ensures CubeRootBits(149, 0x4d2c6dfc) && CubeRootBits(151, 0x53380d13)
    ensures CubeRootBits(157, 0x650a7354) && CubeRootBits(163, 0x766a0abb)
    ensures CubeRootBits(167, 0x81c2c92e) && CubeRootBits(173, 0x92722c85)
    ensures CubeRootBits(179, 0xa2bfe8a1) && CubeRootBits(181, 0xa81a664b)
    ensures CubeRootBits(191, 0xc24b8b70) && CubeRootBits(193, 0xc76c51a3)
    ensures CubeRootBits(197, 0xd192e819) && CubeRootBits(199, 0xd6990624)
    ensures CubeRootBits(211, 0xf40e3585) && CubeRootBits(223, 0x106aa070)
  {
  }

  lemma CubeRoots48()
    ensures CubeRootBits(227, 0x19a4c116) && CubeRootBits(229, 0x1e376c08)
    ensures CubeRootBits(233, 0x2748774c) && CubeRootBits(239, 0x34b0bcb5)
    ensures CubeRootBits(241, 0x391c0cb3) && CubeRootBits(251, 0x4ed8aa4a)
    ensures CubeRootBits(257, 0x5b9cca4f) && CubeRootBits(263, 0x682e6ff3)
    ensures CubeRootBits(269, 0x748f82ee) && CubeRootBits(271, 0x78a5636f)
    ensures CubeRootBits(277, 0x84c87814) && CubeRootBits(281, 0x8cc70208)
    ensures CubeRootBits(283, 0x90befffa) && CubeRootBits(293, 0xa4506ceb)
    ensures CubeRootBits(307, 0xbef9a3f7) && CubeRootBits(311, 0xc67178f2)
  {
  }

  // Each round constant is the fraction of the cube root of its prime.

  lemma RoundConstants0To15()
    ensures Constant(0) == 0x428a2f98 && CubeRootBits(2, 0x428a2f98)
    ensures Constant(1) == 0x71374491 && CubeRootBits(3, 0x71374491)
    ensures Constant(2) == 0xb5c0fbcf && CubeRootBits(5, 0xb5c0fbcf)
    ensures Constant(3) == 0xe9b5dba5 && CubeRootBits(7, 0xe9b5dba5)
    ensures Constant(4) == 0x3956c25b && CubeRootBits(11, 0x3956c25b)
    ensures Constant(5) == 0x59f111f1 && CubeRootBits(13, 0x59f111f1)
    ensures Constant(6) == 0x923f82a4 && CubeRootBits(17, 0x923f82a4)
    ensures Constant(7) == 0xab1c5ed5 && CubeRootBits(19, 0xab1c5ed5)
    ensures Constant(8) == 0xd807aa98 && CubeRootBits(23, 0xd807aa98)
    ensures Constant(9) == 0x12835b01 && CubeRootBits(29, 0x12835b01)
    ensures Constant(10) == 0x243185be && CubeRootBits(31, 0x243185be)
    ensures Constant(11) == 0x550c7dc3 && CubeRootBits(37, 0x550c7dc3)
    ensures Constant(12) == 0x72be5d74 && CubeRootBits(41, 0x72be5d74)
    ensures Constant(13) == 0x80deb1fe && CubeRootBits(43, 0x80deb1fe)
    ensures Constant(14) == 0x9bdc06a7 && CubeRootBits(47, 0x9bdc06a7)
    ensures Constant(15) == 0xc19bf174 && CubeRootBits(53, 0xc19bf174)
  {
    hide Constant, CubeRootBits;
    Constants0();
    Constants8();
    CubeRoots0();
  }

  lemma RoundConstants16To31()
    ensures Constant(16) == 0xe49b69c1 && CubeRootBits(59, 0xe49b69c1)
    ensures Constant(17) == 0xefbe4786 && CubeRootBits(61, 0xefbe4786)
    ensures Constant(18) == 0x0fc19dc6 && CubeRootBits(67, 0x0fc19dc6)
    ensures Constant(19) == 0x240ca1cc && CubeRootBits(71, 0x240ca1cc)
    ensures Constant(20) == 0x2de92c6f && CubeRootBits(73, 0x2de92c6f)
    ensures Constant(21) == 0x4a7484aa && CubeRootBits(79, 0x4a7484aa)
    ensures Constant(22) == 0x5cb0a9dc && CubeRootBits(83, 0x5cb0a9dc)
    ensures Constant(23) == 0x76f988da && CubeRootBits(89, 0x76f988da)
    ensures Constant(24) == 0x983e5152 && CubeRootBits(97, 0x983e5152)
    ensures Constant(25) == 0xa831c66d && CubeRootBits(101, 0xa831c66d)
    ensures Constant(26) == 0xb00327c8 && CubeRootBits(103, 0xb00327c8)
    ensures Constant(27) == 0xbf597fc7 && CubeRootBits(107, 0xbf597fc7)
    ensures Constant(28) == 0xc6e00bf3 && CubeRootBits(109, 0xc6e00bf3)
    ensures Constant(29) == 0xd5a79147 && CubeRootBits(113, 0xd5a79147)
    ensures Constant(30) == 0x06ca6351 && CubeRootBits(127, 0x06ca6351)
    ensures Constant(31) == 0x14292967 && CubeRootBits(131, 0x14292967)
  {
    hide Constant, CubeRootBits;
    Constants16();
    Constants24();
    CubeRoots16();
  }

  lemma RoundConstants32To47()
    ensures Constant(32) == 0x27b70a85 && CubeRootBits(137, 0x27b70a85)
    ensures Constant(33) == 0x2e1b2138 && CubeRootBits(139, 0x2e1b2138)
    ensures Constant(34) == 0x4d2c6dfc && CubeRootBits(149, 0x4d2c6dfc)
    ensures Constant(35) == 0x53380d13 && CubeRootBits(151, 0x53380d13)
    ensures Constant(36) == 0x650a7354 && CubeRootBits(157, 0x650a7354)
    ensures Constant(37) == 0x766a0abb && CubeRootBits(163, 0x766a0abb)
    ensures Constant(38) == 0x81c2c92e && CubeRootBits(167, 0x81c2c92e)
    ensures Constant(39) == 0x92722c85 && CubeRootBits(173, 0x92722c85)
    ensures Constant(40) == 0xa2bfe8a1 && CubeRootBits(179, 0xa2bfe8a1)
    ensures Constant(41) == 0xa81a664b && CubeRootBits(181, 0xa81a664b)
    ensures Constant(42) == 0xc24b8b70 && CubeRootBits(191, 0xc24b8b70)
    ensures Constant(43) == 0xc76c51a3 && CubeRootBits(193, 0xc76c51a3)
    ensures Constant(44) == 0xd192e819 && CubeRootBits(197, 0xd192e819)
    ensures Constant(45) == 0xd6990624 && CubeRootBits(199, 0xd6990624)
    ensures Constant(46) == 0xf40e3585 && CubeRootBits(211, 0xf40e3585)
    ensures Constant(47) == 0x106aa070 && CubeRootBits(223, 0x106aa070)
  {
    hide Constant, CubeRootBits;
    Constants32();
    Constants40();
    CubeRoots32();
  }

  lemma RoundConstants48To63()
    ensures Constant(48) == 0x19a4c116 && CubeRootBits(227, 0x19a4c116)
    ensures Constant(49) == 0x1e376c08 && CubeRootBits(229, 0x1e376c08)
    ensures Constant(50) == 0x2748774c && CubeRootBits(233, 0x2748774c)
    ensures Constant(51) == 0x34b0bcb5 && CubeRootBits(239, 0x34b0bcb5)
    ensures Constant(52) == 0x391c0cb3 && CubeRootBits(241, 0x391c0cb3)
    ensures Constant(53) == 0x4ed8aa4a && CubeRootBits(251, 0x4ed8aa4a)
    ensures Constant(54) == 0x5b9cca4f && CubeRootBits(257, 0x5b9cca4f)
    ensures Constant(55) == 0x682e6ff3 && CubeRootBits(263, 0x682e6ff3)
    ensures Constant(56) == 0x748f82ee && CubeRootBits(269, 0x748f82ee)
    ensures Constant(57) == 0x78a5636f && CubeRootBits(271, 0x78a5636f)
    ensures Constant(58) == 0x84c87814 && CubeRootBits(277, 0x84c87814)
    ensures Constant(59) == 0x8cc70208 && CubeRootBits(281, 0x8cc70208)
    ensures Constant(60) == 0x90befffa && CubeRootBits(283, 0x90befffa)
    ensures Constant(61) == 0xa4506ceb && CubeRootBits(293, 0xa4506ceb)
    ensures Constant(62) == 0xbef9a3f7 && CubeRootBits(307, 0xbef9a3f7)
    ensures Constant(63) == 0xc67178f2 && CubeRootBits(311, 0xc67178f2)
  {
    hide Constant, CubeRootBits;
    Constants48();
    Constants56();
    CubeRoots48();
  }

  /** Each initial word is the fraction of the square root of its prime. */
  lemma InitialWordsAreRoots()
    ensures INITIAL_HASH[0] == 0x6a09e667 && SquareRootBits(2, 0x6a09e667)
    ensures INITIAL_HASH[1] == 0xbb67ae85 && SquareRootBits(3, 0xbb67ae85)
    ensures INITIAL_HASH[2] == 0x3c6ef372 && SquareRootBits(5, 0x3c6ef372)
    ensures INITIAL_HASH[3] == 0xa54ff53a && SquareRootBits(7, 0xa54ff53a)
    ensures INITIAL_HASH[4] == 0x510e527f && SquareRootBits(11, 0x510e527f)
    ensures INITIAL_HASH[5] == 0x9b05688c && SquareRootBits(13, 0x9b05688c)
    ensures INITIAL_HASH[6] == 0x1f83d9ab && SquareRootBits(17, 0x1f83d9ab)
    ensures INITIAL_HASH[7] == 0x5be0cd19 && SquareRootBits(19, 0x5be0cd19)
  {
    SquareRoots();
    hide SquareRootBits;
  }

  lemma SquareRoots()
    ensures SquareRootBits(2, 0x6a09e667) && SquareRootBits(3, 0xbb67ae85)
    ensures SquareRootBits(5, 0x3c6ef372) && SquareRootBits(7, 0xa54ff53a)
    ensures SquareRootBits(11, 0x510e527f) && SquareRootBits(13, 0x9b05688c)
    ensures SquareRootBits(17, 0x1f83d9ab) && SquareRootBits(19, 0x5be0cd19)
  {
  }
}
