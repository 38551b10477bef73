/** The example of FIPS 180: the message "abc" and its digest, with every schedule word and every state of the
    working variables on the way. It ties the functions of the reference to numbers. */
module Fips180Example {
  import opened Fips180
  import opened Fips180Constants

  const ABC: seq<bv8> := [0x61, 0x62, 0x63]

  // ---------- the block ----------

  lemma PaddedBlock()
    ensures var b := Pad(ABC);
            && |b| == BLOCK_BYTES && b[0] == 0x61 && b[1] == 0x62 && b[2] == 0x63 && b[3] == 0x80
            && (forall i :: 4 <= i < 63 ==> b[i] == 0) && b[63] == 0x18
  {
    LengthBytes();
    hide BigEndian;
    assert ZeroBytes(3) == 52;
  }

  lemma LengthBytes()
    ensures BigEndian(24, 8) == [0, 0, 0, 0, 0, 0, 0, 0x18]
  {
    hide Low8;
    LowBytes();
    NoBytes(7);
  }

  lemma LowBytes()
    ensures Low8(24) == 0x18 && Low8(0) == 0
  {
  }

  lemma {:induction false} NoBytes(count: nat)
    ensures BigEndian(0, count) == Zeros(count)
  {
    LowBytes();
    if count > 0 {
      NoBytes(count - 1);
    }
  }

  lemma FirstWords(b: seq<bv8>)
    requires b == Pad(ABC)
    ensures |b| == BLOCK_BYTES && Schedule(b, 0) == 0x61626380 && Schedule(b, 15) == 0x18
    ensures forall t :: 1 <= t < 15 ==> Schedule(b, t) == 0
  {
    PaddedBlock();
    JoinedBytes();
    hide Pad, Join;
  }

  lemma JoinedBytes()
    ensures Join(0x61, 0x62, 0x63, 0x80) == 0x61626380 && Join(0, 0, 0, 0x18) == 0x18 && Join(0, 0, 0, 0) == 0
  {
  }

  // ---------- the schedule ----------

  lemma NextWord(b: seq<bv8>, t: nat)
    requires |b| == BLOCK_BYTES && 16 <= t < 64
    ensures Schedule(b, t) == Extend(Schedule(b, t - 2), Schedule(b, t - 7), Schedule(b, t - 15), Schedule(b, t - 16))
  {
    hide Extend;
  }

  lemma ExtendValues16()
    ensures Extend(0x00000000, 0x00000000, 0x00000000, 0x61626380) == 0x61626380
    ensures Extend(0x00000018, 0x00000000, 0x00000000, 0x00000000) == 0x000f0000
    ensures Extend(0x61626380, 0x00000000, 0x00000000, 0x00000000) == 0x7da86405
    ensures Extend(0x000f0000, 0x00000000, 0x00000000, 0x00000000) == 0x600003c6
    ensures Extend(0x7da86405, 0x00000000, 0x00000000, 0x00000000) == 0x3e9d7b78
    ensures Extend(0x600003c6, 0x00000000, 0x00000000, 0x00000000) == 0x0183fc00
    ensures Extend(0x3e9d7b78, 0x00000018, 0x00000000, 0x00000000) == 0x12dcbfdb
    ensures Extend(0x0183fc00, 0x61626380, 0x00000000, 0x00000000) == 0xe2e2c38e
    ensures Extend(0x12dcbfdb, 0x000f0000, 0x00000000, 0x00000000) == 0xc8215c1a
    ensures Extend(0xe2e2c38e, 0x7da86405, 0x00000000, 0x00000000) == 0xb73679a2
    ensures Extend(0xc8215c1a, 0x600003c6, 0x00000000, 0x00000000) == 0xe5bc3909
    ensures Extend(0xb73679a2, 0x3e9d7b78, 0x00000000, 0x00000000) == 0x32663c5b
  {
  }

  lemma ExtendValues28()
    ensures Extend(0xe5bc3909, 0x0183fc00, 0x00000000, 0x00000000) == 0x9d209d67
    ensures Extend(0x32663c5b, 0x12dcbfdb, 0x00000000, 0x00000000) == 0xec8726cb
    ensures Extend(0x9d209d67, 0xe2e2c38e, 0x00000018, 0x00000000) == 0x702138a4
    ensures Extend(0xec8726cb, 0xc8215c1a, 0x61626380, 0x00000018) == 0xd3b7973b
    ensures Extend(0x702138a4, 0xb73679a2, 0x000f0000, 0x61626380) == 0x93f5997f
    ensures Extend(0xd3b7973b, 0xe5bc3909, 0x7da86405, 0x000f0000) == 0x3b68ba73
    ensures Extend(0x93f5997f, 0x32663c5b, 0x600003c6, 0x7da86405) == 0xaff4ffc1
    ensures Extend(0x3b68ba73, 0x9d209d67, 0x3e9d7b78, 0x600003c6) == 0xf10a5c62
    ensures Extend(0xaff4ffc1, 0xec8726cb, 0x0183fc00, 0x3e9d7b78) == 0x0a8b3996
    ensures Extend(0xf10a5c62, 0x702138a4, 0x12dcbfdb, 0x0183fc00) == 0x72af830a
    ensures Extend(0x0a8b3996, 0xd3b7973b, 0xe2e2c38e, 0x12dcbfdb) == 0x9409e33e
    ensures Extend(0x72af830a, 0x93f5997f, 0xc8215c1a, 0xe2e2c38e) == 0x24641522
  {
  }

  lemma ExtendValues40()
    ensures Extend(0x9409e33e, 0x3b68ba73, 0xb73679a2, 0xc8215c1a) == 0x9f47bf94
    ensures Extend(0x24641522, 0xaff4ffc1, 0xe5bc3909, 0xb73679a2) == 0xf0a64f5a
    ensures Extend(0x9f47bf94, 0xf10a5c62, 0x32663c5b, 0xe5bc3909) == 0x3e246a79
    ensures Extend(0xf0a64f5a, 0x0a8b3996, 0x9d209d67, 0x32663c5b) == 0x27333ba3
    ensures Extend(0x3e246a79, 0x72af830a, 0xec8726cb, 0x9d209d67) == 0x0c4763f2
    ensures Extend(0x27333ba3, 0x9409e33e, 0x702138a4, 0xec8726cb) == 0x840abf27
    ensures Extend(0x0c4763f2, 0x24641522, 0xd3b7973b, 0x702138a4) == 0x7a290d5d
    ensures Extend(0x840abf27, 0x9f47bf94, 0x93f5997f, 0xd3b7973b) == 0x065c43da
    ensures Extend(0x7a290d5d, 0xf0a64f5a, 0x3b68ba73, 0x93f5997f) == 0xfb3e89cb
    ensures Extend(0x065c43da, 0x3e246a79, 0xaff4ffc1, 0x3b68ba73) == 0xcc7617db
    ensures Extend(0xfb3e89cb, 0x27333ba3, 0xf10a5c62, 0xaff4ffc1) == 0xb9e66c34
    ensures Extend(0xcc7617db, 0x0c4763f2, 0x0a8b3996, 0xf10a5c62) == 0xa9993667
  {
  }

  lemma ExtendValues52()
    ensures Extend(0xb9e66c34, 0x840abf27, 0x72af830a, 0x0a8b3996) == 0x84badedd
    ensures Extend(0xa9993667, 0x7a290d5d, 0x9409e33e, 0x72af830a) == 0xc21462bc
    ensures Extend(0x84badedd, 0x065c43da, 0x24641522, 0x9409e33e) == 0x1487472c
    ensures Extend(0xc21462bc, 0xfb3e89cb, 0x9f47bf94, 0x24641522) == 0xb20f7a99
    ensures Extend(0x1487472c, 0xcc7617db, 0xf0a64f5a, 0x9f47bf94) == 0xef57b9cd
    ensures Extend(0xb20f7a99, 0xb9e66c34, 0x3e246a79, 0xf0a64f5a) == 0xebe6b238
    ensures Extend(0xef57b9cd, 0xa9993667, 0x27333ba3, 0x3e246a79) == 0x9fe3095e
    ensures Extend(0xebe6b238, 0x84badedd, 0x0c4763f2, 0x27333ba3) == 0x78bc8d4b
    ensures Extend(0x9fe3095e, 0xc21462bc, 0x840abf27, 0x0c4763f2) == 0xa43fcf15
    ensures Extend(0x78bc8d4b, 0x1487472c, 0x7a290d5d, 0x840abf27) == 0x668b2ff8
    ensures Extend(0xa43fcf15, 0xb20f7a99, 0x065c43da, 0x7a290d5d) == 0xeeaba2cc
    ensures Extend(0x668b2ff8, 0xef57b9cd, 0xfb3e89cb, 0x065c43da) == 0x12b1edeb
  {
  }

  /** Words `from` to `from + 11` and the sixteen before them. */
  ghost predicate Words16(b: seq<bv8>) {
    |b| == BLOCK_BYTES &&
      Schedule(b, 16) == 0x61626380 && Schedule(b, 17) == 0x000f0000 && Schedule(b, 18) == 0x7da86405 &&
      Schedule(b, 19) == 0x600003c6 && Schedule(b, 20) == 0x3e9d7b78 && Schedule(b, 21) == 0x0183fc00 &&
      Schedule(b, 22) == 0x12dcbfdb && Schedule(b, 23) == 0xe2e2c38e && Schedule(b, 24) == 0xc8215c1a &&
      Schedule(b, 25) == 0xb73679a2 && Schedule(b, 26) == 0xe5bc3909 && Schedule(b, 27) == 0x32663c5b
  }

  ghost predicate Words28(b: seq<bv8>) {
    |b| == BLOCK_BYTES &&
      Schedule(b, 28) == 0x9d209d67 && Schedule(b, 29) == 0xec8726cb && Schedule(b, 30) == 0x702138a4 &&
      Schedule(b, 31) == 0xd3b7973b && Schedule(b, 32) == 0x93f5997f && Schedule(b, 33) == 0x3b68ba73 &&
      Schedule(b, 34) == 0xaff4ffc1 && Schedule(b, 35) == 0xf10a5c62 && Schedule(b, 36) == 0x0a8b3996 &&
      Schedule(b, 37) == 0x72af830a && Schedule(b, 38) == 0x9409e33e && Schedule(b, 39) == 0x24641522
  }

  ghost predicate Words40(b: seq<bv8>) {
    |b| == BLOCK_BYTES &&
      Schedule(b, 40) == 0x9f47bf94 && Schedule(b, 41) == 0xf0a64f5a && Schedule(b, 42) == 0x3e246a79 &&
      Schedule(b, 43) == 0x27333ba3 && Schedule(b, 44) == 0x0c4763f2 && Schedule(b, 45) == 0x840abf27 &&
      Schedule(b, 46) == 0x7a290d5d && Schedule(b, 47) == 0x065c43da && Schedule(b, 48) == 0xfb3e89cb &&
      Schedule(b, 49) == 0xcc7617db && Schedule(b, 50) == 0xb9e66c34 && Schedule(b, 51) == 0xa9993667
  }

  ghost predicate Words52(b: seq<bv8>) {
    |b| == BLOCK_BYTES &&
      Schedule(b, 52) == 0x84badedd && Schedule(b, 53) == 0xc21462bc && Schedule(b, 54) == 0x1487472c &&
      Schedule(b, 55) == 0xb20f7a99 && Schedule(b, 56) == 0xef57b9cd && Schedule(b, 57) == 0xebe6b238 &&
      Schedule(b, 58) == 0x9fe3095e && Schedule(b, 59) == 0x78bc8d4b && Schedule(b, 60) == 0xa43fcf15 &&
      Schedule(b, 61) == 0x668b2ff8 && Schedule(b, 62) == 0xeeaba2cc && Schedule(b, 63) == 0x12b1edeb
  }

  lemma WordsFrom16(b: seq<bv8>)
    requires b == Pad(ABC)
    ensures Words16(b)
  {
    hide Extend, Schedule, Pad;
    FirstWords(b);
    ExtendValues16();
    NextWord(b, 16); NextWord(b, 17); NextWord(b, 18); NextWord(b, 19);
    NextWord(b, 20); NextWord(b, 21); NextWord(b, 22); NextWord(b, 23);
    NextWord(b, 24); NextWord(b, 25); NextWord(b, 26); NextWord(b, 27);
  }

  lemma WordsFrom28(b: seq<bv8>)
    requires b == Pad(ABC)
    ensures Words28(b)
  {
    hide Extend, Schedule, Pad;
    WordsFrom16(b);
    FirstWords(b);
    ExtendValues28();
    NextWord(b, 28); NextWord(b, 29); NextWord(b, 30); NextWord(b, 31);
    NextWord(b, 32); NextWord(b, 33); NextWord(b, 34); NextWord(b, 35);
    NextWord(b, 36); NextWord(b, 37); NextWord(b, 38); NextWord(b, 39);
  }

  lemma WordsFrom40(b: seq<bv8>)
    requires b == Pad(ABC)
    ensures Words40(b)
  {
    hide Extend, Schedule, Pad;
    WordsFrom28(b);
    WordsFrom16(b);
    ExtendValues40();
    NextWord(b, 40); NextWord(b, 41); NextWord(b, 42); NextWord(b, 43);
    NextWord(b, 44); NextWord(b, 45); NextWord(b, 46); NextWord(b, 47);
    NextWord(b, 48); NextWord(b, 49); NextWord(b, 50); NextWord(b, 51);
  }

  lemma WordsFrom52(b: seq<bv8>)
    requires b == Pad(ABC)
    ensures Words52(b)
  {
    hide Extend, Schedule, Pad;
    WordsFrom40(b);
    WordsFrom28(b);
    ExtendValues52();
    NextWord(b, 52); NextWord(b, 53); NextWord(b, 54); NextWord(b, 55);
    NextWord(b, 56); NextWord(b, 57); NextWord(b, 58); NextWord(b, 59);
    NextWord(b, 60); NextWord(b, 61); NextWord(b, 62); NextWord(b, 63);
  }

  // ---------- the rounds ----------

  /** The working variables of the block after `t` rounds. */
  function After(b: seq<bv8>, t: nat): Working
    requires |b| == BLOCK_BYTES && t <= 64
  {
    Rounds(Load(INITIAL_HASH), b, t)
  }

  lemma NextRound(b: seq<bv8>, t: nat)
    requires |b| == BLOCK_BYTES && t < 64
    ensures After(b, t + 1) == Round(After(b, t), Constant(t), Schedule(b, t))
  {
    hide Round, Schedule, Load;
  }

  lemma RoundValues0()
    ensures Round(Working(0x6a09e667, 0xbb67ae85, 0x3c6ef372, 0xa54ff53a,
                          0x510e527f, 0x9b05688c, 0x1f83d9ab, 0x5be0cd19), 0x428a2f98, 0x61626380)
            == Working(0x5d6aebcd, 0x6a09e667, 0xbb67ae85, 0x3c6ef372, 0xfa2a4622, 0x510e527f, 0x9b05688c, 0x1f83d9ab)
    ensures Round(Working(0x5d6aebcd, 0x6a09e667, 0xbb67ae85, 0x3c6ef372,
                          0xfa2a4622, 0x510e527f, 0x9b05688c, 0x1f83d9ab), 0x71374491, 0x00000000)
            == Working(0x5a6ad9ad, 0x5d6aebcd, 0x6a09e667, 0xbb67ae85, 0x78ce7989, 0xfa2a4622, 0x510e527f, 0x9b05688c)
    ensures Round(Working(0x5a6ad9ad, 0x5d6aebcd, 0x6a09e667, 0xbb67ae85,
                          0x78ce7989, 0xfa2a4622, 0x510e527f, 0x9b05688c), 0xb5c0fbcf, 0x00000000)
            == Working(0xc8c347a7, 0x5a6ad9ad, 0x5d6aebcd, 0x6a09e667, 0xf92939eb, 0x78ce7989, 0xfa2a4622, 0x510e527f)
    ensures Round(Working(0xc8c347a7, 0x5a6ad9ad, 0x5d6aebcd, 0x6a09e667,
                          0xf92939eb, 0x78ce7989, 0xfa2a4622, 0x510e527f), 0xe9b5dba5, 0x00000000)
            == Working(0xd550f666, 0xc8c347a7, 0x5a6ad9ad, 0x5d6aebcd, 0x24e00850, 0xf92939eb, 0x78ce7989, 0xfa2a4622)
    ensures Round(Working(0xd550f666, 0xc8c347a7, 0x5a6ad9ad, 0x5d6aebcd,
                          0x24e00850, 0xf92939eb, 0x78ce7989, 0xfa2a4622), 0x3956c25b, 0x00000000)
            == Working(0x04409a6a, 0xd550f666, 0xc8c347a7, 0x5a6ad9ad, 0x43ada245, 0x24e00850, 0xf92939eb, 0x78ce7989)
    ensures Round(Working(0x04409a6a, 0xd550f666, 0xc8c347a7, 0x5a6ad9ad,
                          0x43ada245, 0x24e00850, 0xf92939eb, 0x78ce7989), 0x59f111f1, 0x00000000)
            == Working(0x2b4209f5, 0x04409a6a, 0xd550f666, 0xc8c347a7, 0x714260ad, 0x43ada245, 0x24e00850, 0xf92939eb)
    ensures Round(Working(0x2b4209f5, 0x04409a6a, 0xd550f666, 0xc8c347a7,
                          0x714260ad, 0x43ada245, 0x24e00850, 0xf92939eb), 0x923f82a4, 0x00000000)
            == Working(0xe5030380, 0x2b4209f5, 0x04409a6a, 0xd550f666, 0x9b27a401, 0x714260ad, 0x43ada245, 0x24e00850)
    ensures Round(Working(0xe5030380, 0x2b4209f5, 0x04409a6a, 0xd550f666,
                          0x9b27a401, 0x714260ad, 0x43ada245, 0x24e00850), 0xab1c5ed5, 0x00000000)
            == Working(0x85a07b5f, 0xe5030380, 0x2b4209f5, 0x04409a6a, 0x0c657a79, 0x9b27a401, 0x714260ad, 0x43ada245)
  {
  }

  lemma RoundValues8()
    ensures Round(Working(0x85a07b5f, 0xe5030380, 0x2b4209f5, 0x04409a6a,
                          0x0c657a79, 0x9b27a401, 0x714260ad, 0x43ada245), 0xd807aa98, 0x00000000)
            == Working(0x8e04ecb9, 0x85a07b5f, 0xe5030380, 0x2b4209f5, 0x32ca2d8c, 0x0c657a79, 0x9b27a401, 0x714260ad)
    ensures Round(Working(0x8e04ecb9, 0x85a07b5f, 0xe5030380, 0x2b4209f5,
                          0x32ca2d8c, 0x0c657a79, 0x9b27a401, 0x714260ad), 0x12835b01, 0x00000000)
            == Working(0x8c87346b, 0x8e04ecb9, 0x85a07b5f, 0xe5030380, 0x1cc92596, 0x32ca2d8c, 0x0c657a79, 0x9b27a401)
    ensures Round(Working(0x8c87346b, 0x8e04ecb9, 0x85a07b5f, 0xe5030380,
                          0x1cc92596, 0x32ca2d8c, 0x0c657a79, 0x9b27a401), 0x243185be, 0x00000000)
            == Working(0x4798a3f4, 0x8c87346b, 0x8e04ecb9, 0x85a07b5f, 0x436b23e8, 0x1cc92596, 0x32ca2d8c, 0x0c657a79)
    ensures Round(Working(0x4798a3f4, 0x8c87346b, 0x8e04ecb9, 0x85a07b5f,
                          0x436b23e8, 0x1cc92596, 0x32ca2d8c, 0x0c657a79), 0x550c7dc3, 0x00000000)
            == Working(0xf71fc5a9, 0x4798a3f4, 0x8c87346b, 0x8e04ecb9, 0x816fd6e9, 0x436b23e8, 0x1cc92596, 0x32ca2d8c)
    ensures Round(Working(0xf71fc5a9, 0x4798a3f4, 0x8c87346b, 0x8e04ecb9,
                          0x816fd6e9, 0x436b23e8, 0x1cc92596, 0x32ca2d8c), 0x72be5d74, 0x00000000)
            == Working(0x87912990, 0xf71fc5a9, 0x4798a3f4, 0x8c87346b, 0x1e578218, 0x816fd6e9, 0x436b23e8, 0x1cc92596)
    ensures Round(Working(0x87912990, 0xf71fc5a9, 0x4798a3f4, 0x8c87346b,
                          0x1e578218, 0x816fd6e9, 0x436b23e8, 0x1cc92596), 0x80deb1fe, 0x00000000)
            == Working(0xd932eb16, 0x87912990, 0xf71fc5a9, 0x4798a3f4, 0x745a48de, 0x1e578218, 0x816fd6e9, 0x436b23e8)
    ensures Round(Working(0xd932eb16, 0x87912990, 0xf71fc5a9, 0x4798a3f4,
                          0x745a48de, 0x1e578218, 0x816fd6e9, 0x436b23e8), 0x9bdc06a7, 0x00000000)
            == Working(0xc0645fde, 0xd932eb16, 0x87912990, 0xf71fc5a9, 0x0b92f20c, 0x745a48de, 0x1e578218, 0x816fd6e9)
    ensures Round(Working(0xc0645fde, 0xd932eb16, 0x87912990, 0xf71fc5a9,
                          0x0b92f20c, 0x745a48de, 0x1e578218, 0x816fd6e9), 0xc19bf174, 0x00000018)
            == Working(0xb0fa238e, 0xc0645fde, 0xd932eb16, 0x87912990, 0x07590dcd, 0x0b92f20c, 0x745a48de, 0x1e578218)
  {
  }

  lemma RoundValues16()
    ensures Round(Working(0xb0fa238e, 0xc0645fde, 0xd932eb16, 0x87912990,
                          0x07590dcd, 0x0b92f20c, 0x745a48de, 0x1e578218), 0xe49b69c1, 0x61626380)
            == Working(0x21da9a9b, 0xb0fa238e, 0xc0645fde, 0xd932eb16, 0x8034229c, 0x07590dcd, 0x0b92f20c, 0x745a48de)
    ensures Round(Working(0x21da9a9b, 0xb0fa238e, 0xc0645fde, 0xd932eb16,
                          0x8034229c, 0x07590dcd, 0x0b92f20c, 0x745a48de), 0xefbe4786, 0x000f0000)
            == Working(0xc2fbd9d1, 0x21da9a9b, 0xb0fa238e, 0xc0645fde, 0x846ee454, 0x8034229c, 0x07590dcd, 0x0b92f20c)
    ensures Round(Working(0xc2fbd9d1, 0x21da9a9b, 0xb0fa238e, 0xc0645fde,
                          0x846ee454, 0x8034229c, 0x07590dcd, 0x0b92f20c), 0x0fc19dc6, 0x7da86405)
            == Working(0xfe777bbf, 0xc2fbd9d1, 0x21da9a9b, 0xb0fa238e, 0xcc899961, 0x846ee454, 0x8034229c, 0x07590dcd)
    ensures Round(Working(0xfe777bbf, 0xc2fbd9d1, 0x21da9a9b, 0xb0fa238e,
                          0xcc899961, 0x846ee454, 0x8034229c, 0x07590dcd), 0x240ca1cc, 0x600003c6)
            == Working(0xe1f20c33, 0xfe777bbf, 0xc2fbd9d1, 0x21da9a9b, 0xb0638179, 0xcc899961, 0x846ee454, 0x8034229c)
    ensures Round(Working(0xe1f20c33, 0xfe777bbf, 0xc2fbd9d1, 0x21da9a9b,
                          0xb0638179, 0xcc899961, 0x846ee454, 0x8034229c), 0x2de92c6f, 0x3e9d7b78)
            == Working(0x9dc68b63, 0xe1f20c33, 0xfe777bbf, 0xc2fbd9d1, 0x8ada8930, 0xb0638179, 0xcc899961, 0x846ee454)
    ensures Round(Working(0x9dc68b63, 0xe1f20c33, 0xfe777bbf, 0xc2fbd9d1,
                          0x8ada8930, 0xb0638179, 0xcc899961, 0x846ee454), 0x4a7484aa, 0x0183fc00)
            == Working(0xc2606d6d, 0x9dc68b63, 0xe1f20c33, 0xfe777bbf, 0xe1257970, 0x8ada8930, 0xb0638179, 0xcc899961)
    ensures Round(Working(0xc2606d6d, 0x9dc68b63, 0xe1f20c33, 0xfe777bbf,
                          0xe1257970, 0x8ada8930, 0xb0638179, 0xcc899961), 0x5cb0a9dc, 0x12dcbfdb)
            == Working(0xa7a3623f, 0xc2606d6d, 0x9dc68b63, 0xe1f20c33, 0x49f5114a, 0xe1257970, 0x8ada8930, 0xb0638179)
    ensures Round(Working(0xa7a3623f, 0xc2606d6d, 0x9dc68b63, 0xe1f20c33,
                          0x49f5114a, 0xe1257970, 0x8ada8930, 0xb0638179), 0x76f988da, 0xe2e2c38e)
            == Working(0xc5d53d8d, 0xa7a3623f, 0xc2606d6d, 0x9dc68b63, 0xaa47c347, 0x49f5114a, 0xe1257970, 0x8ada8930)
  {
  }

  lemma RoundValues24()
    ensures Round(Working(0xc5d53d8d, 0xa7a3623f, 0xc2606d6d, 0x9dc68b63,
                          0xaa47c347, 0x49f5114a, 0xe1257970, 0x8ada8930), 0x983e5152, 0xc8215c1a)
            == Working(0x1c2c2838, 0xc5d53d8d, 0xa7a3623f, 0xc2606d6d, 0x2823ef91, 0xaa47c347, 0x49f5114a, 0xe1257970)
    ensures Round(Working(0x1c2c2838, 0xc5d53d8d, 0xa7a3623f, 0xc2606d6d,
                          0x2823ef91, 0xaa47c347, 0x49f5114a, 0xe1257970), 0xa831c66d, 0xb73679a2)
            == Working(0xcde8037d, 0x1c2c2838, 0xc5d53d8d, 0xa7a3623f, 0x14383d8e, 0x2823ef91, 0xaa47c347, 0x49f5114a)
    ensures Round(Working(0xcde8037d, 0x1c2c2838, 0xc5d53d8d, 0xa7a3623f,
                          0x14383d8e, 0x2823ef91, 0xaa47c347, 0x49f5114a), 0xb00327c8, 0xe5bc3909)
            == Working(0xb62ec4bc, 0xcde8037d, 0x1c2c2838, 0xc5d53d8d, 0xc74c6516, 0x14383d8e, 0x2823ef91, 0xaa47c347)
    ensures Round(Working(0xb62ec4bc, 0xcde8037d, 0x1c2c2838, 0xc5d53d8d,
                          0xc74c6516, 0x14383d8e, 0x2823ef91, 0xaa47c347), 0xbf597fc7, 0x32663c5b)
            == Working(0x77d37528, 0xb62ec4bc, 0xcde8037d, 0x1c2c2838, 0xedffbff8, 0xc74c6516, 0x14383d8e, 0x2823ef91)
    ensures Round(Working(0x77d37528, 0xb62ec4bc, 0xcde8037d, 0x1c2c2838,
                          0xedffbff8, 0xc74c6516, 0x14383d8e, 0x2823ef91), 0xc6e00bf3, 0x9d209d67)
            == Working(0x363482c9, 0x77d37528, 0xb62ec4bc, 0xcde8037d, 0x6112a3b7, 0xedffbff8, 0xc74c6516, 0x14383d8e)
    ensures Round(Working(0x363482c9, 0x77d37528, 0xb62ec4bc, 0xcde8037d,
                          0x6112a3b7, 0xedffbff8, 0xc74c6516, 0x14383d8e), 0xd5a79147, 0xec8726cb)
            == Working(0xa0060b30, 0x363482c9, 0x77d37528, 0xb62ec4bc, 0xade79437, 0x6112a3b7, 0xedffbff8, 0xc74c6516)
    ensures Round(Working(0xa0060b30, 0x363482c9, 0x77d37528, 0xb62ec4bc,
                          0xade79437, 0x6112a3b7, 0xedffbff8, 0xc74c6516), 0x06ca6351, 0x702138a4)
            == Working(0xea992a22, 0xa0060b30, 0x363482c9, 0x77d37528, 0x0109ab3a, 0xade79437, 0x6112a3b7, 0xedffbff8)
    ensures Round(Working(0xea992a22, 0xa0060b30, 0x363482c9, 0x77d37528,
                          0x0109ab3a, 0xade79437, 0x6112a3b7, 0xedffbff8), 0x14292967, 0xd3b7973b)
            == Working(0x73b33bf5, 0xea992a22, 0xa0060b30, 0x363482c9, 0xba591112, 0x0109ab3a, 0xade79437, 0x6112a3b7)
  {
  }

  lemma RoundValues32()
    ensures Round(Working(0x73b33bf5, 0xea992a22, 0xa0060b30, 0x363482c9,
                          0xba591112, 0x0109ab3a, 0xade79437, 0x6112a3b7), 0x27b70a85, 0x93f5997f)
            == Working(0x98e12507, 0x73b33bf5, 0xea992a22, 0xa0060b30, 0x9cd9f5f6, 0xba591112, 0x0109ab3a, 0xade79437)
    ensures Round(Working(0x98e12507, 0x73b33bf5, 0xea992a22, 0xa0060b30,
                          0x9cd9f5f6, 0xba591112, 0x0109ab3a, 0xade79437), 0x2e1b2138, 0x3b68ba73)
            == Working(0xfe604df5, 0x98e12507, 0x73b33bf5, 0xea992a22, 0x59249dd3, 0x9cd9f5f6, 0xba591112, 0x0109ab3a)
    ensures Round(Working(0xfe604df5, 0x98e12507, 0x73b33bf5, 0xea992a22,
                          0x59249dd3, 0x9cd9f5f6, 0xba591112, 0x0109ab3a), 0x4d2c6dfc, 0xaff4ffc1)
            == Working(0xa9a7738c, 0xfe604df5, 0x98e12507, 0x73b33bf5, 0x085f3833, 0x59249dd3, 0x9cd9f5f6, 0xba591112)
    ensures Round(Working(0xa9a7738c, 0xfe604df5, 0x98e12507, 0x73b33bf5,
                          0x085f3833, 0x59249dd3, 0x9cd9f5f6, 0xba591112), 0x53380d13, 0xf10a5c62)
            == Working(0x65a0cfe4, 0xa9a7738c, 0xfe604df5, 0x98e12507, 0xf4b002d6, 0x085f3833, 0x59249dd3, 0x9cd9f5f6)
    ensures Round(Working(0x65a0cfe4, 0xa9a7738c, 0xfe604df5, 0x98e12507,
                          0xf4b002d6, 0x085f3833, 0x59249dd3, 0x9cd9f5f6), 0x650a7354, 0x0a8b3996)
            == Working(0x41a65cb1, 0x65a0cfe4, 0xa9a7738c, 0xfe604df5, 0x0772a26b, 0xf4b002d6, 0x085f3833, 0x59249dd3)
    ensures Round(Working(0x41a65cb1, 0x65a0cfe4, 0xa9a7738c, 0xfe604df5,
                          0x0772a26b, 0xf4b002d6, 0x085f3833, 0x59249dd3), 0x766a0abb, 0x72af830a)
            == Working(0x34df1604, 0x41a65cb1, 0x65a0cfe4, 0xa9a7738c, 0xa507a53d, 0x0772a26b, 0xf4b002d6, 0x085f3833)
    ensures Round(Working(0x34df1604, 0x41a65cb1, 0x65a0cfe4, 0xa9a7738c,
                          0xa507a53d, 0x0772a26b, 0xf4b002d6, 0x085f3833), 0x81c2c92e, 0x9409e33e)
            == Working(0x6dc57a8a, 0x34df1604, 0x41a65cb1, 0x65a0cfe4, 0xf0781bc8, 0xa507a53d, 0x0772a26b, 0xf4b002d6)
    ensures Round(Working(0x6dc57a8a, 0x34df1604, 0x41a65cb1, 0x65a0cfe4,
                          0xf0781bc8, 0xa507a53d, 0x0772a26b, 0xf4b002d6), 0x92722c85, 0x24641522)
            == Working(0x79ea687a, 0x6dc57a8a, 0x34df1604, 0x41a65cb1, 0x1efbc0a0, 0xf0781bc8, 0xa507a53d, 0x0772a26b)
  {
  }

  lemma RoundValues40()
    ensures Round(Working(0x79ea687a, 0x6dc57a8a, 0x34df1604, 0x41a65cb1,
                          0x1efbc0a0, 0xf0781bc8, 0xa507a53d, 0x0772a26b), 0xa2bfe8a1, 0x9f47bf94)
            == Working(0xd6670766, 0x79ea687a, 0x6dc57a8a, 0x34df1604, 0x26352d63, 0x1efbc0a0, 0xf0781bc8, 0xa507a53d)
    ensures Round(Working(0xd6670766, 0x79ea687a, 0x6dc57a8a, 0x34df1604,
                          0x26352d63, 0x1efbc0a0, 0xf0781bc8, 0xa507a53d), 0xa81a664b, 0xf0a64f5a)
            == Working(0xdf46652f, 0xd6670766, 0x79ea687a, 0x6dc57a8a, 0x838b2711, 0x26352d63, 0x1efbc0a0, 0xf0781bc8)
    ensures Round(Working(0xdf46652f, 0xd6670766, 0x79ea687a, 0x6dc57a8a,
                          0x838b2711, 0x26352d63, 0x1efbc0a0, 0xf0781bc8), 0xc24b8b70, 0x3e246a79)
            == Working(0x17aa0dfe, 0xdf46652f, 0xd6670766, 0x79ea687a, 0xdecd4715, 0x838b2711, 0x26352d63, 0x1efbc0a0)
    ensures Round(Working(0x17aa0dfe, 0xdf46652f, 0xd6670766, 0x79ea687a,
                          0xdecd4715, 0x838b2711, 0x26352d63, 0x1efbc0a0), 0xc76c51a3, 0x27333ba3)
            == Working(0x9d4baf93, 0x17aa0dfe, 0xdf46652f, 0xd6670766, 0xfda24c2e, 0xdecd4715, 0x838b2711, 0x26352d63)
    ensures Round(Working(0x9d4baf93, 0x17aa0dfe, 0xdf46652f, 0xd6670766,
                          0xfda24c2e, 0xdecd4715, 0x838b2711, 0x26352d63), 0xd192e819, 0x0c4763f2)
            == Working(0x26628815, 0x9d4baf93, 0x17aa0dfe, 0xdf46652f, 0xa80f11f0, 0xfda24c2e, 0xdecd4715, 0x838b2711)
    ensures Round(Working(0x26628815, 0x9d4baf93, 0x17aa0dfe, 0xdf46652f,
                          0xa80f11f0, 0xfda24c2e, 0xdecd4715, 0x838b2711), 0xd6990624, 0x840abf27)
            == Working(0x72ab4b91, 0x26628815, 0x9d4baf93, 0x17aa0dfe, 0xb7755da1, 0xa80f11f0, 0xfda24c2e, 0xdecd4715)
    ensures Round(Working(0x72ab4b91, 0x26628815, 0x9d4baf93, 0x17aa0dfe,
                          0xb7755da1, 0xa80f11f0, 0xfda24c2e, 0xdecd4715), 0xf40e3585, 0x7a290d5d)
            == Working(0xa14c14b0, 0x72ab4b91, 0x26628815, 0x9d4baf93, 0xd57b94a9, 0xb7755da1, 0xa80f11f0, 0xfda24c2e)
    ensures Round(Working(0xa14c14b0, 0x72ab4b91, 0x26628815, 0x9d4baf93,
                          0xd57b94a9, 0xb7755da1, 0xa80f11f0, 0xfda24c2e), 0x106aa070, 0x065c43da)
            == Working(0x4172328d, 0xa14c14b0, 0x72ab4b91, 0x26628815, 0xfecf0bc6, 0xd57b94a9, 0xb7755da1, 0xa80f11f0)
  {
  }

  lemma RoundValues48()
    ensures Round(Working(0x4172328d, 0xa14c14b0, 0x72ab4b91, 0x26628815,
                          0xfecf0bc6, 0xd57b94a9, 0xb7755da1, 0xa80f11f0), 0x19a4c116, 0xfb3e89cb)
            == Working(0x05757ceb, 0x4172328d, 0xa14c14b0, 0x72ab4b91, 0xbd714038, 0xfecf0bc6, 0xd57b94a9, 0xb7755da1)
    ensures Round(Working(0x05757ceb, 0x4172328d, 0xa14c14b0, 0x72ab4b91,
                          0xbd714038, 0xfecf0bc6, 0xd57b94a9, 0xb7755da1), 0x1e376c08, 0xcc7617db)
            == Working(0xf11bfaa8, 0x05757ceb, 0x4172328d, 0xa14c14b0, 0x6e5c390c, 0xbd714038, 0xfecf0bc6, 0xd57b94a9)
    ensures Round(Working(0xf11bfaa8, 0x05757ceb, 0x4172328d, 0xa14c14b0,
                          0x6e5c390c, 0xbd714038, 0xfecf0bc6, 0xd57b94a9), 0x2748774c, 0xb9e66c34)
            == Working(0x7a0508a1, 0xf11bfaa8, 0x05757ceb, 0x4172328d, 0x52f1ccf7, 0x6e5c390c, 0xbd714038, 0xfecf0bc6)
    ensures Round(Working(0x7a0508a1, 0xf11bfaa8, 0x05757ceb, 0x4172328d,
                          0x52f1ccf7, 0x6e5c390c, 0xbd714038, 0xfecf0bc6), 0x34b0bcb5, 0xa9993667)
            == Working(0x886e7a22, 0x7a0508a1, 0xf11bfaa8, 0x05757ceb, 0x49231c1e, 0x52f1ccf7, 0x6e5c390c, 0xbd714038)
    ensures Round(Working(0x886e7a22, 0x7a0508a1, 0xf11bfaa8, 0x05757ceb,
                          0x49231c1e, 0x52f1ccf7, 0x6e5c390c, 0xbd714038), 0x391c0cb3, 0x84badedd)
            == Working(0x101fd28f, 0x886e7a22, 0x7a0508a1, 0xf11bfaa8, 0x529e7d00, 0x49231c1e, 0x52f1ccf7, 0x6e5c390c)
    ensures Round(Working(0x101fd28f, 0x886e7a22, 0x7a0508a1, 0xf11bfaa8,
                          0x529e7d00, 0x49231c1e, 0x52f1ccf7, 0x6e5c390c), 0x4ed8aa4a, 0xc21462bc)
            == Working(0xf5702fdb, 0x101fd28f, 0x886e7a22, 0x7a0508a1, 0x9f4787c3, 0x529e7d00, 0x49231c1e, 0x52f1ccf7)
    ensures Round(Working(0xf5702fdb, 0x101fd28f, 0x886e7a22, 0x7a0508a1,
                          0x9f4787c3, 0x529e7d00, 0x49231c1e, 0x52f1ccf7), 0x5b9cca4f, 0x1487472c)
            == Working(0x3ec45cdb, 0xf5702fdb, 0x101fd28f, 0x886e7a22, 0xe50e1b4f, 0x9f4787c3, 0x529e7d00, 0x49231c1e)
    ensures Round(Working(0x3ec45cdb, 0xf5702fdb, 0x101fd28f, 0x886e7a22,
                          0xe50e1b4f, 0x9f4787c3, 0x529e7d00, 0x49231c1e), 0x682e6ff3, 0xb20f7a99)
            == Working(0x38cc9913, 0x3ec45cdb, 0xf5702fdb, 0x101fd28f, 0x54cb266b, 0xe50e1b4f, 0x9f4787c3, 0x529e7d00)
  {
  }

  lemma RoundValues56()
    ensures Round(Working(0x38cc9913, 0x3ec45cdb, 0xf5702fdb, 0x101fd28f,
                          0x54cb266b, 0xe50e1b4f, 0x9f4787c3, 0x529e7d00), 0x748f82ee, 0xef57b9cd)
            == Working(0xfcd1887b, 0x38cc9913, 0x3ec45cdb, 0xf5702fdb, 0x9b5e906c, 0x54cb266b, 0xe50e1b4f, 0x9f4787c3)
    ensures Round(Working(0xfcd1887b, 0x38cc9913, 0x3ec45cdb, 0xf5702fdb,
                          0x9b5e906c, 0x54cb266b, 0xe50e1b4f, 0x9f4787c3), 0x78a5636f, 0xebe6b238)
            == Working(0xc062d46f, 0xfcd1887b, 0x38cc9913, 0x3ec45cdb, 0x7e44008e, 0x9b5e906c, 0x54cb266b, 0xe50e1b4f)
    ensures Round(Working(0xc062d46f, 0xfcd1887b, 0x38cc9913, 0x3ec45cdb,
                          0x7e44008e, 0x9b5e906c, 0x54cb266b, 0xe50e1b4f), 0x84c87814, 0x9fe3095e)
            == Working(0xffb70472, 0xc062d46f, 0xfcd1887b, 0x38cc9913, 0x6d83bfc6, 0x7e44008e, 0x9b5e906c, 0x54cb266b)
    ensures Round(Working(0xffb70472, 0xc062d46f, 0xfcd1887b, 0x38cc9913,
                          0x6d83bfc6, 0x7e44008e, 0x9b5e906c, 0x54cb266b), 0x8cc70208, 0x78bc8d4b)
            == Working(0xb6ae8fff, 0xffb70472, 0xc062d46f, 0xfcd1887b, 0xb21bad3d, 0x6d83bfc6, 0x7e44008e, 0x9b5e906c)
    ensures Round(Working(0xb6ae8fff, 0xffb70472, 0xc062d46f, 0xfcd1887b,
                          0xb21bad3d, 0x6d83bfc6, 0x7e44008e, 0x9b5e906c), 0x90befffa, 0xa43fcf15)
            == Working(0xb85e2ce9, 0xb6ae8fff, 0xffb70472, 0xc062d46f, 0x961f4894, 0xb21bad3d, 0x6d83bfc6, 0x7e44008e)
    ensures Round(Working(0xb85e2ce9, 0xb6ae8fff, 0xffb70472, 0xc062d46f,
                          0x961f4894, 0xb21bad3d, 0x6d83bfc6, 0x7e44008e), 0xa4506ceb, 0x668b2ff8)
            == Working(0x04d24d6c, 0xb85e2ce9, 0xb6ae8fff, 0xffb70472, 0x948d25b6, 0x961f4894, 0xb21bad3d, 0x6d83bfc6)
    ensures Round(Working(0x04d24d6c, 0xb85e2ce9, 0xb6ae8fff, 0xffb70472,
                          0x948d25b6, 0x961f4894, 0xb21bad3d, 0x6d83bfc6), 0xbef9a3f7, 0xeeaba2cc)
            == Working(0xd39a2165, 0x04d24d6c, 0xb85e2ce9, 0xb6ae8fff, 0xfb121210, 0x948d25b6, 0x961f4894, 0xb21bad3d)
    ensures Round(Working(0xd39a2165, 0x04d24d6c, 0xb85e2ce9, 0xb6ae8fff,
                          0xfb121210, 0x948d25b6, 0x961f4894, 0xb21bad3d), 0xc67178f2, 0x12b1edeb)
            == Working(0x506e3058, 0xd39a2165, 0x04d24d6c, 0xb85e2ce9, 0x5ef50f24, 0xfb121210, 0x948d25b6, 0x961f4894)
  {
  }

  lemma RoundsTo8(b: seq<bv8>)
    requires b == Pad(ABC)
    ensures |b| == BLOCK_BYTES
    ensures After(b, 8)
            == Working(0x85a07b5f, 0xe5030380, 0x2b4209f5, 0x04409a6a, 0x0c657a79, 0x9b27a401, 0x714260ad, 0x43ada245)
  {
    hide Round, Schedule, Pad, Extend, After, Constant;
    FirstWords(b);
    Start(b);
    RoundValues0();
    Constants0();
    NextRound(b, 0); NextRound(b, 1); NextRound(b, 2); NextRound(b, 3);
    NextRound(b, 4); NextRound(b, 5); NextRound(b, 6); NextRound(b, 7);
  }

  lemma RoundsTo16(b: seq<bv8>)
    requires b == Pad(ABC)
    ensures |b| == BLOCK_BYTES
    ensures After(b, 16)
            == Working(0xb0fa238e, 0xc0645fde, 0xd932eb16, 0x87912990, 0x07590dcd, 0x0b92f20c, 0x745a48de, 0x1e578218)
  {
    hide Round, Schedule, Pad, Extend, After, Constant;
    RoundsTo8(b);
    FirstWords(b);
    RoundValues8();
    Constants8();
    NextRound(b, 8); NextRound(b, 9); NextRound(b, 10); NextRound(b, 11);
    NextRound(b, 12); NextRound(b, 13); NextRound(b, 14); NextRound(b, 15);
  }

  lemma RoundsTo24(b: seq<bv8>)
    requires b == Pad(ABC)
    ensures |b| == BLOCK_BYTES
    ensures After(b, 24)
            == Working(0xc5d53d8d, 0xa7a3623f, 0xc2606d6d, 0x9dc68b63, 0xaa47c347, 0x49f5114a, 0xe1257970, 0x8ada8930)
  {
    hide Round, Schedule, Pad, Extend, After, Constant;
    RoundsTo16(b);
    WordsFrom16(b);
    RoundValues16();
    Constants16();
    NextRound(b, 16); NextRound(b, 17); NextRound(b, 18); NextRound(b, 19);
    NextRound(b, 20); NextRound(b, 21); NextRound(b, 22); NextRound(b, 23);
  }

  lemma RoundsTo32(b: seq<bv8>)
    requires b == Pad(ABC)
    ensures |b| == BLOCK_BYTES
    ensures After(b, 32)
            == Working(0x73b33bf5, 0xea992a22, 0xa0060b30, 0x363482c9, 0xba591112, 0x0109ab3a, 0xade79437, 0x6112a3b7)
  {
    hide Round, Schedule, Pad, Extend, After, Constant;
    RoundsTo24(b);
    WordsFrom16(b);
    WordsFrom28(b);
    RoundValues24();
    Constants24();
    NextRound(b, 24); NextRound(b, 25); NextRound(b, 26); NextRound(b, 27);
    NextRound(b, 28); NextRound(b, 29); NextRound(b, 30); NextRound(b, 31);
  }

  lemma RoundsTo40(b: seq<bv8>)
    requires b == Pad(ABC)
    ensures |b| == BLOCK_BYTES
    ensures After(b, 40)
            == Working(0x79ea687a, 0x6dc57a8a, 0x34df1604, 0x41a65cb1, 0x1efbc0a0, 0xf0781bc8, 0xa507a53d, 0x0772a26b)
  {
    hide Round, Schedule, Pad, Extend, After, Constant;
    RoundsTo32(b);
    WordsFrom28(b);
    RoundValues32();
    Constants32();
    NextRound(b, 32); NextRound(b, 33); NextRound(b, 34); NextRound(b, 35);
    NextRound(b, 36); NextRound(b, 37); NextRound(b, 38); NextRound(b, 39);
  }

  lemma RoundsTo48(b: seq<bv8>)
    requires b == Pad(ABC)
    ensures |b| == BLOCK_BYTES
    ensures After(b, 48)
            == Working(0x4172328d, 0xa14c14b0, 0x72ab4b91, 0x26628815, 0xfecf0bc6, 0xd57b94a9, 0xb7755da1, 0xa80f11f0)
  {
    hide Round, Schedule, Pad, Extend, After, Constant;
    RoundsTo40(b);
    WordsFrom40(b);
    RoundValues40();
    Constants40();
    NextRound(b, 40); NextRound(b, 41); NextRound(b, 42); NextRound(b, 43);
    NextRound(b, 44); NextRound(b, 45); NextRound(b, 46); NextRound(b, 47);
  }

  lemma RoundsTo56(b: seq<bv8>)
    requires b == Pad(ABC)
    ensures |b| == BLOCK_BYTES
    ensures After(b, 56)
            == Working(0x38cc9913, 0x3ec45cdb, 0xf5702fdb, 0x101fd28f, 0x54cb266b, 0xe50e1b4f, 0x9f4787c3, 0x529e7d00)
  {
    hide Round, Schedule, Pad, Extend, After, Constant;
    RoundsTo48(b);
    WordsFrom40(b);
    WordsFrom52(b);
    RoundValues48();
    Constants48();
    NextRound(b, 48); NextRound(b, 49); NextRound(b, 50); NextRound(b, 51);
    NextRound(b, 52); NextRound(b, 53); NextRound(b, 54); NextRound(b, 55);
  }

  lemma RoundsTo64(b: seq<bv8>)
    requires b == Pad(ABC)
    ensures |b| == BLOCK_BYTES
    ensures After(b, 64)
            == Working(0x506e3058, 0xd39a2165, 0x04d24d6c, 0xb85e2ce9, 0x5ef50f24, 0xfb121210, 0x948d25b6, 0x961f4894)
  {
    hide Round, Schedule, Pad, Extend, After, Constant;
    RoundsTo56(b);
    WordsFrom52(b);
    RoundValues56();
    Constants56();
    NextRound(b, 56); NextRound(b, 57); NextRound(b, 58); NextRound(b, 59);
    NextRound(b, 60); NextRound(b, 61); NextRound(b, 62); NextRound(b, 63);
  }

  lemma Start(b: seq<bv8>)
    requires |b| == BLOCK_BYTES
    ensures After(b, 0)
            == Working(0x6a09e667, 0xbb67ae85, 0x3c6ef372, 0xa54ff53a, 0x510e527f, 0x9b05688c, 0x1f83d9ab, 0x5be0cd19)
  {
  }

  // ---------- the digest ----------

  const DIGEST: seq<bv32> := [
    0xba7816bf, 0x8f01cfea, 0x414140de, 0x5dae2223, 0xb00361a3, 0x96177a9c, 0xb410ff61, 0xf20015ad
  ]

  lemma FinalSums()
    ensures [
              Sum2(0x6a09e667, 0x506e3058), Sum2(0xbb67ae85, 0xd39a2165),
              Sum2(0x3c6ef372, 0x04d24d6c), Sum2(0xa54ff53a, 0xb85e2ce9),
              Sum2(0x510e527f, 0x5ef50f24), Sum2(0x9b05688c, 0xfb121210),
              Sum2(0x1f83d9ab, 0x948d25b6), Sum2(0x5be0cd19, 0x961f4894)] == DIGEST
  {
  }

  /** SHA-256 of "abc". */
  lemma DigestOfAbc(message: seq<bv8>)
    requires message == [0x61, 0x62, 0x63]
    ensures Sha256(message) == DIGEST
  {
    hide Rounds, Pad, Sum2;
    var b := Pad(message);
    RoundsTo64(b);
    FinalSums();
    assert b[..0] == [] && b[0..] == b;
    assert HashBlocks(b) == Compress(HashBlocks(b[..0]), b[0..]);
  }
}
