/**
 The example of FIPS 180-4: the digest of "abc". Its schedule and its rounds are gone through word by word, so the
 example holds the functions of the specification to their published values.
 */
module Sha256Vector {
  import opened Arithmetic
  import opened Bytes
  import opened Sha256Spec
  import opened Sha256Constants

  const ABC: seq<byte> := [0x61, 0x62, 0x63]

  function Block(): (b: seq<byte>)
    ensures |b| == 64
  {
    ABC + [0x80] + Zeros(59) + [24]
  }

  lemma AbcIsOneBlock()
    ensures Pad(ABC) == Block()
  {
    var p := BE64(24);
    assert Pow256(0) == 1 && Pow256(1) == 256 && Pow256(2) == 65536;
    forall j | 0 <= j < 7 ensures p[j] == 0 { SmallInHigh(7 - j); }
    assert p[7] == 24;
    assert ZeroCount(3) == 52;
    assert p == Zeros(7) + [24];
    assert Zeros(52) + Zeros(7) == Zeros(59);
  }

  lemma SmallInHigh(k: nat)
    requires k >= 1
    ensures 24 / Pow256(k) == 0
  {
    assert Pow256(k) >= 256;
    hide Pow256;
    DivModUnique(0, Pow256(k), 24);
  }

  predicate At(b: seq<byte>, t: nat, w: Word)
    requires |b| == 64
  {
    Schedule(b, t) == w
  }

  lemma ScheduleStep(b: seq<byte>, t: nat, w2: Word, w7: Word, w15: Word, w16: Word, w: Word)
    requires |b| == 64 && t >= 16 && At(b, t - 2, w2) && At(b, t - 7, w7) && At(b, t - 15, w15) && At(b, t - 16, w16)
    requires Add(Add(Add(Sig1(w2), w7), Sig0(w15)), w16) == w
    ensures At(b, t, w)
  {
    hide Add, Sig0, Sig1;
  }

  lemma FourBytes(b: seq<byte>, t: nat, b0: byte, b1: byte, b2: byte, b3: byte, w: Word)
    requires |b| == 64 && t < 16 && b[4 * t] == b0 && b[4 * t + 1] == b1 && b[4 * t + 2] == b2 && b[4 * t + 3] == b3
    requires BigEndianWord(b0, b1, b2, b3) == w
    ensures At(b, t, w)
  {
    hide BigEndianWord;
  }

  lemma FirstWords(b: seq<byte>)
    requires b == Block()
    ensures At(b, 0, 0x61626380) && At(b, 1, 0x00000000) && At(b, 2, 0x00000000) && At(b, 3, 0x00000000)
    ensures At(b, 4, 0x00000000) && At(b, 5, 0x00000000) && At(b, 6, 0x00000000) && At(b, 7, 0x00000000)
    ensures At(b, 8, 0x00000000) && At(b, 9, 0x00000000) && At(b, 10, 0x00000000) && At(b, 11, 0x00000000)
    ensures At(b, 12, 0x00000000) && At(b, 13, 0x00000000) && At(b, 14, 0x00000000) && At(b, 15, 0x00000018)
  {
    assert b[0] == 0x61 && b[1] == 0x62 && b[2] == 0x63 && b[3] == 0x80 && b[63] == 24;
    assert forall i :: 4 <= i < 63 ==> b[i] == 0;
    hide Block, At;
    FourBytes(b, 0, 0x61, 0x62, 0x63, 0x80, 0x61626380);
    FourBytes(b, 15, 0, 0, 0, 24, 24);
    forall t | 1 <= t < 15
      ensures At(b, t, 0)
    {
      FourBytes(b, t, 0, 0, 0, 0, 0);
    }
  }

  lemma Words16(b: seq<byte>)
    requires b == Block()
    ensures At(b, 16, 0x61626380) && At(b, 17, 0x000f0000) && At(b, 18, 0x7da86405) && At(b, 19, 0x600003c6)
    ensures At(b, 20, 0x3e9d7b78) && At(b, 21, 0x0183fc00) && At(b, 22, 0x12dcbfdb) && At(b, 23, 0xe2e2c38e)
  {
    hide At, Block;
    FirstWords(b);
    ScheduleStep(b, 16, 0x00000000, 0x00000000, 0x00000000, 0x61626380, 0x61626380);
    ScheduleStep(b, 17, 0x00000018, 0x00000000, 0x00000000, 0x00000000, 0x000f0000);
    ScheduleStep(b, 18, 0x61626380, 0x00000000, 0x00000000, 0x00000000, 0x7da86405);
    ScheduleStep(b, 19, 0x000f0000, 0x00000000, 0x00000000, 0x00000000, 0x600003c6);
    ScheduleStep(b, 20, 0x7da86405, 0x00000000, 0x00000000, 0x00000000, 0x3e9d7b78);
    ScheduleStep(b, 21, 0x600003c6, 0x00000000, 0x00000000, 0x00000000, 0x0183fc00);
    ScheduleStep(b, 22, 0x3e9d7b78, 0x00000018, 0x00000000, 0x00000000, 0x12dcbfdb);
    ScheduleStep(b, 23, 0x0183fc00, 0x61626380, 0x00000000, 0x00000000, 0xe2e2c38e);
  }

  lemma Words24(b: seq<byte>)
    requires b == Block()
    ensures At(b, 24, 0xc8215c1a) && At(b, 25, 0xb73679a2) && At(b, 26, 0xe5bc3909) && At(b, 27, 0x32663c5b)
    ensures At(b, 28, 0x9d209d67) && At(b, 29, 0xec8726cb) && At(b, 30, 0x702138a4) && At(b, 31, 0xd3b7973b)
  {
    hide At, Block;
    Words16(b);
    FirstWords(b);
    ScheduleStep(b, 24, 0x12dcbfdb, 0x000f0000, 0x00000000, 0x00000000, 0xc8215c1a);
    ScheduleStep(b, 25, 0xe2e2c38e, 0x7da86405, 0x00000000, 0x00000000, 0xb73679a2);
    ScheduleStep(b, 26, 0xc8215c1a, 0x600003c6, 0x00000000, 0x00000000, 0xe5bc3909);
    ScheduleStep(b, 27, 0xb73679a2, 0x3e9d7b78, 0x00000000, 0x00000000, 0x32663c5b);
    ScheduleStep(b, 28, 0xe5bc3909, 0x0183fc00, 0x00000000, 0x00000000, 0x9d209d67);
    ScheduleStep(b, 29, 0x32663c5b, 0x12dcbfdb, 0x00000000, 0x00000000, 0xec8726cb);
    ScheduleStep(b, 30, 0x9d209d67, 0xe2e2c38e, 0x00000018, 0x00000000, 0x702138a4);
    ScheduleStep(b, 31, 0xec8726cb, 0xc8215c1a, 0x61626380, 0x00000018, 0xd3b7973b);
  }

  lemma Words32(b: seq<byte>)
    requires b == Block()
    ensures At(b, 32, 0x93f5997f) && At(b, 33, 0x3b68ba73) && At(b, 34, 0xaff4ffc1) && At(b, 35, 0xf10a5c62)
    ensures At(b, 36, 0x0a8b3996) && At(b, 37, 0x72af830a) && At(b, 38, 0x9409e33e) && At(b, 39, 0x24641522)
  {
    hide At, Block;
    Words24(b);
    Words16(b);
    ScheduleStep(b, 32, 0x702138a4, 0xb73679a2, 0x000f0000, 0x61626380, 0x93f5997f);
    ScheduleStep(b, 33, 0xd3b7973b, 0xe5bc3909, 0x7da86405, 0x000f0000, 0x3b68ba73);
    ScheduleStep(b, 34, 0x93f5997f, 0x32663c5b, 0x600003c6, 0x7da86405, 0xaff4ffc1);
    ScheduleStep(b, 35, 0x3b68ba73, 0x9d209d67, 0x3e9d7b78, 0x600003c6, 0xf10a5c62);
    ScheduleStep(b, 36, 0xaff4ffc1, 0xec8726cb, 0x0183fc00, 0x3e9d7b78, 0x0a8b3996);
    ScheduleStep(b, 37, 0xf10a5c62, 0x702138a4, 0x12dcbfdb, 0x0183fc00, 0x72af830a);
    ScheduleStep(b, 38, 0x0a8b3996, 0xd3b7973b, 0xe2e2c38e, 0x12dcbfdb, 0x9409e33e);
    ScheduleStep(b, 39, 0x72af830a, 0x93f5997f, 0xc8215c1a, 0xe2e2c38e, 0x24641522);
  }

  lemma Words40(b: seq<byte>)
    requires b == Block()
    ensures At(b, 40, 0x9f47bf94) && At(b, 41, 0xf0a64f5a) && At(b, 42, 0x3e246a79) && At(b, 43, 0x27333ba3)
    ensures At(b, 44, 0x0c4763f2) && At(b, 45, 0x840abf27) && At(b, 46, 0x7a290d5d) && At(b, 47, 0x065c43da)
  {
    hide At, Block;
    Words32(b);
    Words24(b);
    ScheduleStep(b, 40, 0x9409e33e, 0x3b68ba73, 0xb73679a2, 0xc8215c1a, 0x9f47bf94);
    ScheduleStep(b, 41, 0x24641522, 0xaff4ffc1, 0xe5bc3909, 0xb73679a2, 0xf0a64f5a);
    ScheduleStep(b, 42, 0x9f47bf94, 0xf10a5c62, 0x32663c5b, 0xe5bc3909, 0x3e246a79);
    ScheduleStep(b, 43, 0xf0a64f5a, 0x0a8b3996, 0x9d209d67, 0x32663c5b, 0x27333ba3);
    ScheduleStep(b, 44, 0x3e246a79, 0x72af830a, 0xec8726cb, 0x9d209d67, 0x0c4763f2);
    ScheduleStep(b, 45, 0x27333ba3, 0x9409e33e, 0x702138a4, 0xec8726cb, 0x840abf27);
    ScheduleStep(b, 46, 0x0c4763f2, 0x24641522, 0xd3b7973b, 0x702138a4, 0x7a290d5d);
    ScheduleStep(b, 47, 0x840abf27, 0x9f47bf94, 0x93f5997f, 0xd3b7973b, 0x065c43da);
  }

  lemma Words48(b: seq<byte>)
    requires b == Block()
    ensures At(b, 48, 0xfb3e89cb) && At(b, 49, 0xcc7617db) && At(b, 50, 0xb9e66c34) && At(b, 51, 0xa9993667)
    ensures At(b, 52, 0x84badedd) && At(b, 53, 0xc21462bc) && At(b, 54, 0x1487472c) && At(b, 55, 0xb20f7a99)
  {
    hide At, Block;
    Words40(b);
    Words32(b);
    ScheduleStep(b, 48, 0x7a290d5d, 0xf0a64f5a, 0x3b68ba73, 0x93f5997f, 0xfb3e89cb);
    ScheduleStep(b, 49, 0x065c43da, 0x3e246a79, 0xaff4ffc1, 0x3b68ba73, 0xcc7617db);
    ScheduleStep(b, 50, 0xfb3e89cb, 0x27333ba3, 0xf10a5c62, 0xaff4ffc1, 0xb9e66c34);
    ScheduleStep(b, 51, 0xcc7617db, 0x0c4763f2, 0x0a8b3996, 0xf10a5c62, 0xa9993667);
    ScheduleStep(b, 52, 0xb9e66c34, 0x840abf27, 0x72af830a, 0x0a8b3996, 0x84badedd);
    ScheduleStep(b, 53, 0xa9993667, 0x7a290d5d, 0x9409e33e, 0x72af830a, 0xc21462bc);
    ScheduleStep(b, 54, 0x84badedd, 0x065c43da, 0x24641522, 0x9409e33e, 0x1487472c);
    ScheduleStep(b, 55, 0xc21462bc, 0xfb3e89cb, 0x9f47bf94, 0x24641522, 0xb20f7a99);
  }

  lemma Words56(b: seq<byte>)
    requires b == Block()
    ensures At(b, 56, 0xef57b9cd) && At(b, 57, 0xebe6b238) && At(b, 58, 0x9fe3095e) && At(b, 59, 0x78bc8d4b)
    ensures At(b, 60, 0xa43fcf15) && At(b, 61, 0x668b2ff8) && At(b, 62, 0xeeaba2cc) && At(b, 63, 0x12b1edeb)
  {
    hide At, Block;
    Words48(b);
    Words40(b);
    ScheduleStep(b, 56, 0x1487472c, 0xcc7617db, 0xf0a64f5a, 0x9f47bf94, 0xef57b9cd);
    ScheduleStep(b, 57, 0xb20f7a99, 0xb9e66c34, 0x3e246a79, 0xf0a64f5a, 0xebe6b238);
    ScheduleStep(b, 58, 0xef57b9cd, 0xa9993667, 0x27333ba3, 0x3e246a79, 0x9fe3095e);
    ScheduleStep(b, 59, 0xebe6b238, 0x84badedd, 0x0c4763f2, 0x27333ba3, 0x78bc8d4b);
    ScheduleStep(b, 60, 0x9fe3095e, 0xc21462bc, 0x840abf27, 0x0c4763f2, 0xa43fcf15);
    ScheduleStep(b, 61, 0x78bc8d4b, 0x1487472c, 0x7a290d5d, 0x840abf27, 0x668b2ff8);
    ScheduleStep(b, 62, 0xa43fcf15, 0xb20f7a99, 0x065c43da, 0x7a290d5d, 0xeeaba2cc);
    ScheduleStep(b, 63, 0x668b2ff8, 0xef57b9cd, 0xfb3e89cb, 0x065c43da, 0x12b1edeb);
  }

  predicate After(b: seq<byte>, t: nat, v: Vars)
    requires |b| == 64 && t <= 64
  {
    Rounds(Load(H0()), b, t) == v
  }

  lemma RoundStep(b: seq<byte>, t: nat, v: Vars, k: Word, w: Word, a: Word, e: Word)
    requires |b| == 64 && t < 64 && After(b, t, v) && K[t] == k && At(b, t, w)
    requires Round(v, k, w) == Vars(a, v.a, v.b, v.c, e, v.e, v.f, v.g)
    ensures After(b, t + 1, Vars(a, v.a, v.b, v.c, e, v.e, v.f, v.g))
  {
    hide Round, K, Schedule;
  }

  lemma Rounds0(b: seq<byte>)
    requires b == Block()
    requires After(b, 0, Vars(0x6a09e667, 0xbb67ae85, 0x3c6ef372, 0xa54ff53a, 0x510e527f, 0x9b05688c, 0x1f83d9ab,
      0x5be0cd19))
    ensures After(b, 8, Vars(0x85a07b5f, 0xe5030380, 0x2b4209f5, 0x04409a6a, 0x0c657a79, 0x9b27a401, 0x714260ad,
      0x43ada245))
  {
    hide After, At, K, Block;
    Constants0();
    FirstWords(b);
    RoundStep(b, 0, Vars(0x6a09e667, 0xbb67ae85, 0x3c6ef372, 0xa54ff53a,
              0x510e527f, 0x9b05688c, 0x1f83d9ab, 0x5be0cd19), 0x428a2f98, 0x61626380, 0x5d6aebcd, 0xfa2a4622);
    RoundStep(b, 1, Vars(0x5d6aebcd, 0x6a09e667, 0xbb67ae85, 0x3c6ef372,
              0xfa2a4622, 0x510e527f, 0x9b05688c, 0x1f83d9ab), 0x71374491, 0x00000000, 0x5a6ad9ad, 0x78ce7989);
    RoundStep(b, 2, Vars(0x5a6ad9ad, 0x5d6aebcd, 0x6a09e667, 0xbb67ae85,
              0x78ce7989, 0xfa2a4622, 0x510e527f, 0x9b05688c), 0xb5c0fbcf, 0x00000000, 0xc8c347a7, 0xf92939eb);
    RoundStep(b, 3, Vars(0xc8c347a7, 0x5a6ad9ad, 0x5d6aebcd, 0x6a09e667,
              0xf92939eb, 0x78ce7989, 0xfa2a4622, 0x510e527f), 0xe9b5dba5, 0x00000000, 0xd550f666, 0x24e00850);
    RoundStep(b, 4, Vars(0xd550f666, 0xc8c347a7, 0x5a6ad9ad, 0x5d6aebcd,
              0x24e00850, 0xf92939eb, 0x78ce7989, 0xfa2a4622), 0x3956c25b, 0x00000000, 0x04409a6a, 0x43ada245);
    RoundStep(b, 5, Vars(0x04409a6a, 0xd550f666, 0xc8c347a7, 0x5a6ad9ad,
              0x43ada245, 0x24e00850, 0xf92939eb, 0x78ce7989), 0x59f111f1, 0x00000000, 0x2b4209f5, 0x714260ad);
    RoundStep(b, 6, Vars(0x2b4209f5, 0x04409a6a, 0xd550f666, 0xc8c347a7,
              0x714260ad, 0x43ada245, 0x24e00850, 0xf92939eb), 0x923f82a4, 0x00000000, 0xe5030380, 0x9b27a401);
    RoundStep(b, 7, Vars(0xe5030380, 0x2b4209f5, 0x04409a6a, 0xd550f666,
              0x9b27a401, 0x714260ad, 0x43ada245, 0x24e00850), 0xab1c5ed5, 0x00000000, 0x85a07b5f, 0x0c657a79);
  }

  lemma Rounds8(b: seq<byte>)
    requires b == Block()
    requires After(b, 8, Vars(0x85a07b5f, 0xe5030380, 0x2b4209f5, 0x04409a6a, 0x0c657a79, 0x9b27a401, 0x714260ad,
      0x43ada245))
    ensures After(b, 16, Vars(0xb0fa238e, 0xc0645fde, 0xd932eb16, 0x87912990, 0x07590dcd, 0x0b92f20c, 0x745a48de,
      0x1e578218))
  {
    hide After, At, K, Block;
    Constants8();
    FirstWords(b);
    RoundStep(b, 8, Vars(0x85a07b5f, 0xe5030380, 0x2b4209f5, 0x04409a6a,
              0x0c657a79, 0x9b27a401, 0x714260ad, 0x43ada245), 0xd807aa98, 0x00000000, 0x8e04ecb9, 0x32ca2d8c);
    RoundStep(b, 9, Vars(0x8e04ecb9, 0x85a07b5f, 0xe5030380, 0x2b4209f5,
              0x32ca2d8c, 0x0c657a79, 0x9b27a401, 0x714260ad), 0x12835b01, 0x00000000, 0x8c87346b, 0x1cc92596);
    RoundStep(b, 10, Vars(0x8c87346b, 0x8e04ecb9, 0x85a07b5f, 0xe5030380,
              0x1cc92596, 0x32ca2d8c, 0x0c657a79, 0x9b27a401), 0x243185be, 0x00000000, 0x4798a3f4, 0x436b23e8);
    RoundStep(b, 11, Vars(0x4798a3f4, 0x8c87346b, 0x8e04ecb9, 0x85a07b5f,
              0x436b23e8, 0x1cc92596, 0x32ca2d8c, 0x0c657a79), 0x550c7dc3, 0x00000000, 0xf71fc5a9, 0x816fd6e9);
    RoundStep(b, 12, Vars(0xf71fc5a9, 0x4798a3f4, 0x8c87346b, 0x8e04ecb9,
              0x816fd6e9, 0x436b23e8, 0x1cc92596, 0x32ca2d8c), 0x72be5d74, 0x00000000, 0x87912990, 0x1e578218);
    RoundStep(b, 13, Vars(0x87912990, 0xf71fc5a9, 0x4798a3f4, 0x8c87346b,
              0x1e578218, 0x816fd6e9, 0x436b23e8, 0x1cc92596), 0x80deb1fe, 0x00000000, 0xd932eb16, 0x745a48de);
    RoundStep(b, 14, Vars(0xd932eb16, 0x87912990, 0xf71fc5a9, 0x4798a3f4,
              0x745a48de, 0x1e578218, 0x816fd6e9, 0x436b23e8), 0x9bdc06a7, 0x00000000, 0xc0645fde, 0x0b92f20c);
    RoundStep(b, 15, Vars(0xc0645fde, 0xd932eb16, 0x87912990, 0xf71fc5a9,
              0x0b92f20c, 0x745a48de, 0x1e578218, 0x816fd6e9), 0xc19bf174, 0x00000018, 0xb0fa238e, 0x07590dcd);
  }

  lemma Rounds16(b: seq<byte>)
    requires b == Block()
    requires After(b, 16,
      Vars(0xb0fa238e, 0xc0645fde, 0xd932eb16, 0x87912990, 0x07590dcd, 0x0b92f20c, 0x745a48de, 0x1e578218))
    ensures After(b, 24, Vars(0xc5d53d8d, 0xa7a3623f, 0xc2606d6d, 0x9dc68b63, 0xaa47c347, 0x49f5114a, 0xe1257970,
      0x8ada8930))
  {
    hide After, At, K, Block;
    Constants16();
    Words16(b);
    RoundStep(b, 16, Vars(0xb0fa238e, 0xc0645fde, 0xd932eb16, 0x87912990,
              0x07590dcd, 0x0b92f20c, 0x745a48de, 0x1e578218), 0xe49b69c1, 0x61626380, 0x21da9a9b, 0x8034229c);
    RoundStep(b, 17, Vars(0x21da9a9b, 0xb0fa238e, 0xc0645fde, 0xd932eb16,
              0x8034229c, 0x07590dcd, 0x0b92f20c, 0x745a48de), 0xefbe4786, 0x000f0000, 0xc2fbd9d1, 0x846ee454);
    RoundStep(b, 18, Vars(0xc2fbd9d1, 0x21da9a9b, 0xb0fa238e, 0xc0645fde,
              0x846ee454, 0x8034229c, 0x07590dcd, 0x0b92f20c), 0x0fc19dc6, 0x7da86405, 0xfe777bbf, 0xcc899961);
    RoundStep(b, 19, Vars(0xfe777bbf, 0xc2fbd9d1, 0x21da9a9b, 0xb0fa238e,
              0xcc899961, 0x846ee454, 0x8034229c, 0x07590dcd), 0x240ca1cc, 0x600003c6, 0xe1f20c33, 0xb0638179);
    RoundStep(b, 20, Vars(0xe1f20c33, 0xfe777bbf, 0xc2fbd9d1, 0x21da9a9b,
              0xb0638179, 0xcc899961, 0x846ee454, 0x8034229c), 0x2de92c6f, 0x3e9d7b78, 0x9dc68b63, 0x8ada8930);
    RoundStep(b, 21, Vars(0x9dc68b63, 0xe1f20c33, 0xfe777bbf, 0xc2fbd9d1,
              0x8ada8930, 0xb0638179, 0xcc899961, 0x846ee454), 0x4a7484aa, 0x0183fc00, 0xc2606d6d, 0xe1257970);
    RoundStep(b, 22, Vars(0xc2606d6d, 0x9dc68b63, 0xe1f20c33, 0xfe777bbf,
              0xe1257970, 0x8ada8930, 0xb0638179, 0xcc899961), 0x5cb0a9dc, 0x12dcbfdb, 0xa7a3623f, 0x49f5114a);
    RoundStep(b, 23, Vars(0xa7a3623f, 0xc2606d6d, 0x9dc68b63, 0xe1f20c33,
              0x49f5114a, 0xe1257970, 0x8ada8930, 0xb0638179), 0x76f988da, 0xe2e2c38e, 0xc5d53d8d, 0xaa47c347);
  }

  lemma Rounds24(b: seq<byte>)
    requires b == Block()
    requires After(b, 24,
      Vars(0xc5d53d8d, 0xa7a3623f, 0xc2606d6d, 0x9dc68b63, 0xaa47c347, 0x49f5114a, 0xe1257970, 0x8ada8930))
    ensures After(b, 32, Vars(0x73b33bf5, 0xea992a22, 0xa0060b30, 0x363482c9, 0xba591112, 0x0109ab3a, 0xade79437,
      0x6112a3b7))
  {
    hide After, At, K, Block;
    Constants24();
    Words24(b);
    RoundStep(b, 24, Vars(0xc5d53d8d, 0xa7a3623f, 0xc2606d6d, 0x9dc68b63,
              0xaa47c347, 0x49f5114a, 0xe1257970, 0x8ada8930), 0x983e5152, 0xc8215c1a, 0x1c2c2838, 0x2823ef91);
    RoundStep(b, 25, Vars(0x1c2c2838, 0xc5d53d8d, 0xa7a3623f, 0xc2606d6d,
              0x2823ef91, 0xaa47c347, 0x49f5114a, 0xe1257970), 0xa831c66d, 0xb73679a2, 0xcde8037d, 0x14383d8e);
    RoundStep(b, 26, Vars(0xcde8037d, 0x1c2c2838, 0xc5d53d8d, 0xa7a3623f,
              0x14383d8e, 0x2823ef91, 0xaa47c347, 0x49f5114a), 0xb00327c8, 0xe5bc3909, 0xb62ec4bc, 0xc74c6516);
    RoundStep(b, 27, Vars(0xb62ec4bc, 0xcde8037d, 0x1c2c2838, 0xc5d53d8d,
              0xc74c6516, 0x14383d8e, 0x2823ef91, 0xaa47c347), 0xbf597fc7, 0x32663c5b, 0x77d37528, 0xedffbff8);
    RoundStep(b, 28, Vars(0x77d37528, 0xb62ec4bc, 0xcde8037d, 0x1c2c2838,
              0xedffbff8, 0xc74c6516, 0x14383d8e, 0x2823ef91), 0xc6e00bf3, 0x9d209d67, 0x363482c9, 0x6112a3b7);
    RoundStep(b, 29, Vars(0x363482c9, 0x77d37528, 0xb62ec4bc, 0xcde8037d,
              0x6112a3b7, 0xedffbff8, 0xc74c6516, 0x14383d8e), 0xd5a79147, 0xec8726cb, 0xa0060b30, 0xade79437);
    RoundStep(b, 30, Vars(0xa0060b30, 0x363482c9, 0x77d37528, 0xb62ec4bc,
              0xade79437, 0x6112a3b7, 0xedffbff8, 0xc74c6516), 0x06ca6351, 0x702138a4, 0xea992a22, 0x0109ab3a);
    RoundStep(b, 31, Vars(0xea992a22, 0xa0060b30, 0x363482c9, 0x77d37528,
              0x0109ab3a, 0xade79437, 0x6112a3b7, 0xedffbff8), 0x14292967, 0xd3b7973b, 0x73b33bf5, 0xba591112);
  }

  lemma Rounds32(b: seq<byte>)
    requires b == Block()
    requires After(b, 32,
      Vars(0x73b33bf5, 0xea992a22, 0xa0060b30, 0x363482c9, 0xba591112, 0x0109ab3a, 0xade79437, 0x6112a3b7))
    ensures After(b, 40, Vars(0x79ea687a, 0x6dc57a8a, 0x34df1604, 0x41a65cb1, 0x1efbc0a0, 0xf0781bc8, 0xa507a53d,
      0x0772a26b))
  {
    hide After, At, K, Block;
    Constants32();
    Words32(b);
    RoundStep(b, 32, Vars(0x73b33bf5, 0xea992a22, 0xa0060b30, 0x363482c9,
              0xba591112, 0x0109ab3a, 0xade79437, 0x6112a3b7), 0x27b70a85, 0x93f5997f, 0x98e12507, 0x9cd9f5f6);
    RoundStep(b, 33, Vars(0x98e12507, 0x73b33bf5, 0xea992a22, 0xa0060b30,
              0x9cd9f5f6, 0xba591112, 0x0109ab3a, 0xade79437), 0x2e1b2138, 0x3b68ba73, 0xfe604df5, 0x59249dd3);
    RoundStep(b, 34, Vars(0xfe604df5, 0x98e12507, 0x73b33bf5, 0xea992a22,
              0x59249dd3, 0x9cd9f5f6, 0xba591112, 0x0109ab3a), 0x4d2c6dfc, 0xaff4ffc1, 0xa9a7738c, 0x085f3833);
    RoundStep(b, 35, Vars(0xa9a7738c, 0xfe604df5, 0x98e12507, 0x73b33bf5,
              0x085f3833, 0x59249dd3, 0x9cd9f5f6, 0xba591112), 0x53380d13, 0xf10a5c62, 0x65a0cfe4, 0xf4b002d6);
    RoundStep(b, 36, Vars(0x65a0cfe4, 0xa9a7738c, 0xfe604df5, 0x98e12507,
              0xf4b002d6, 0x085f3833, 0x59249dd3, 0x9cd9f5f6), 0x650a7354, 0x0a8b3996, 0x41a65cb1, 0x0772a26b);
    RoundStep(b, 37, Vars(0x41a65cb1, 0x65a0cfe4, 0xa9a7738c, 0xfe604df5,
              0x0772a26b, 0xf4b002d6, 0x085f3833, 0x59249dd3), 0x766a0abb, 0x72af830a, 0x34df1604, 0xa507a53d);
    RoundStep(b, 38, Vars(0x34df1604, 0x41a65cb1, 0x65a0cfe4, 0xa9a7738c,
              0xa507a53d, 0x0772a26b, 0xf4b002d6, 0x085f3833), 0x81c2c92e, 0x9409e33e, 0x6dc57a8a, 0xf0781bc8);
    RoundStep(b, 39, Vars(0x6dc57a8a, 0x34df1604, 0x41a65cb1, 0x65a0cfe4,
              0xf0781bc8, 0xa507a53d, 0x0772a26b, 0xf4b002d6), 0x92722c85, 0x24641522, 0x79ea687a, 0x1efbc0a0);
  }

  lemma Rounds40(b: seq<byte>)
    requires b == Block()
    requires After(b, 40,
      Vars(0x79ea687a, 0x6dc57a8a, 0x34df1604, 0x41a65cb1, 0x1efbc0a0, 0xf0781bc8, 0xa507a53d, 0x0772a26b))
    ensures After(b, 48, Vars(0x4172328d, 0xa14c14b0, 0x72ab4b91, 0x26628815, 0xfecf0bc6, 0xd57b94a9, 0xb7755da1,
      0xa80f11f0))
  {
    hide After, At, K, Block;
    Constants40();
    Words40(b);
    RoundStep(b, 40, Vars(0x79ea687a, 0x6dc57a8a, 0x34df1604, 0x41a65cb1,
              0x1efbc0a0, 0xf0781bc8, 0xa507a53d, 0x0772a26b), 0xa2bfe8a1, 0x9f47bf94, 0xd6670766, 0x26352d63);
    RoundStep(b, 41, Vars(0xd6670766, 0x79ea687a, 0x6dc57a8a, 0x34df1604,
              0x26352d63, 0x1efbc0a0, 0xf0781bc8, 0xa507a53d), 0xa81a664b, 0xf0a64f5a, 0xdf46652f, 0x838b2711);
    RoundStep(b, 42, Vars(0xdf46652f, 0xd6670766, 0x79ea687a, 0x6dc57a8a,
              0x838b2711, 0x26352d63, 0x1efbc0a0, 0xf0781bc8), 0xc24b8b70, 0x3e246a79, 0x17aa0dfe, 0xdecd4715);
    RoundStep(b, 43, Vars(0x17aa0dfe, 0xdf46652f, 0xd6670766, 0x79ea687a,
              0xdecd4715, 0x838b2711, 0x26352d63, 0x1efbc0a0), 0xc76c51a3, 0x27333ba3, 0x9d4baf93, 0xfda24c2e);
    RoundStep(b, 44, Vars(0x9d4baf93, 0x17aa0dfe, 0xdf46652f, 0xd6670766,
              0xfda24c2e, 0xdecd4715, 0x838b2711, 0x26352d63), 0xd192e819, 0x0c4763f2, 0x26628815, 0xa80f11f0);
    RoundStep(b, 45, Vars(0x26628815, 0x9d4baf93, 0x17aa0dfe, 0xdf46652f,
              0xa80f11f0, 0xfda24c2e, 0xdecd4715, 0x838b2711), 0xd6990624, 0x840abf27, 0x72ab4b91, 0xb7755da1);
    RoundStep(b, 46, Vars(0x72ab4b91, 0x26628815, 0x9d4baf93, 0x17aa0dfe,
              0xb7755da1, 0xa80f11f0, 0xfda24c2e, 0xdecd4715), 0xf40e3585, 0x7a290d5d, 0xa14c14b0, 0xd57b94a9);
    RoundStep(b, 47, Vars(0xa14c14b0, 0x72ab4b91, 0x26628815, 0x9d4baf93,
              0xd57b94a9, 0xb7755da1, 0xa80f11f0, 0xfda24c2e), 0x106aa070, 0x065c43da, 0x4172328d, 0xfecf0bc6);
  }

  lemma Rounds48(b: seq<byte>)
    requires b == Block()
    requires After(b, 48,
      Vars(0x4172328d, 0xa14c14b0, 0x72ab4b91, 0x26628815, 0xfecf0bc6, 0xd57b94a9, 0xb7755da1, 0xa80f11f0))
    ensures After(b, 56, Vars(0x38cc9913, 0x3ec45cdb, 0xf5702fdb, 0x101fd28f, 0x54cb266b, 0xe50e1b4f, 0x9f4787c3,
      0x529e7d00))
  {
    hide After, At, K, Block;
    Constants48();
    Words48(b);
    RoundStep(b, 48, Vars(0x4172328d, 0xa14c14b0, 0x72ab4b91, 0x26628815,
              0xfecf0bc6, 0xd57b94a9, 0xb7755da1, 0xa80f11f0), 0x19a4c116, 0xfb3e89cb, 0x05757ceb, 0xbd714038);
    RoundStep(b, 49, Vars(0x05757ceb, 0x4172328d, 0xa14c14b0, 0x72ab4b91,
              0xbd714038, 0xfecf0bc6, 0xd57b94a9, 0xb7755da1), 0x1e376c08, 0xcc7617db, 0xf11bfaa8, 0x6e5c390c);
    RoundStep(b, 50, Vars(0xf11bfaa8, 0x05757ceb, 0x4172328d, 0xa14c14b0,
              0x6e5c390c, 0xbd714038, 0xfecf0bc6, 0xd57b94a9), 0x2748774c, 0xb9e66c34, 0x7a0508a1, 0x52f1ccf7);
    RoundStep(b, 51, Vars(0x7a0508a1, 0xf11bfaa8, 0x05757ceb, 0x4172328d,
              0x52f1ccf7, 0x6e5c390c, 0xbd714038, 0xfecf0bc6), 0x34b0bcb5, 0xa9993667, 0x886e7a22, 0x49231c1e);
    RoundStep(b, 52, Vars(0x886e7a22, 0x7a0508a1, 0xf11bfaa8, 0x05757ceb,
              0x49231c1e, 0x52f1ccf7, 0x6e5c390c, 0xbd714038), 0x391c0cb3, 0x84badedd, 0x101fd28f, 0x529e7d00);
    RoundStep(b, 53, Vars(0x101fd28f, 0x886e7a22, 0x7a0508a1, 0xf11bfaa8,
              0x529e7d00, 0x49231c1e, 0x52f1ccf7, 0x6e5c390c), 0x4ed8aa4a, 0xc21462bc, 0xf5702fdb, 0x9f4787c3);
    RoundStep(b, 54, Vars(0xf5702fdb, 0x101fd28f, 0x886e7a22, 0x7a0508a1,
              0x9f4787c3, 0x529e7d00, 0x49231c1e, 0x52f1ccf7), 0x5b9cca4f, 0x1487472c, 0x3ec45cdb, 0xe50e1b4f);
    RoundStep(b, 55, Vars(0x3ec45cdb, 0xf5702fdb, 0x101fd28f, 0x886e7a22,
              0xe50e1b4f, 0x9f4787c3, 0x529e7d00, 0x49231c1e), 0x682e6ff3, 0xb20f7a99, 0x38cc9913, 0x54cb266b);
  }

  lemma Rounds56(b: seq<byte>)
    requires b == Block()
    requires After(b, 56,
      Vars(0x38cc9913, 0x3ec45cdb, 0xf5702fdb, 0x101fd28f, 0x54cb266b, 0xe50e1b4f, 0x9f4787c3, 0x529e7d00))
    ensures After(b, 64, Vars(0x506e3058, 0xd39a2165, 0x04d24d6c, 0xb85e2ce9, 0x5ef50f24, 0xfb121210, 0x948d25b6,
      0x961f4894))
  {
    hide After, At, K, Block;
    Constants56();
    Words56(b);
    RoundStep(b, 56, Vars(0x38cc9913, 0x3ec45cdb, 0xf5702fdb, 0x101fd28f,
              0x54cb266b, 0xe50e1b4f, 0x9f4787c3, 0x529e7d00), 0x748f82ee, 0xef57b9cd, 0xfcd1887b, 0x9b5e906c);
    RoundStep(b, 57, Vars(0xfcd1887b, 0x38cc9913, 0x3ec45cdb, 0xf5702fdb,
              0x9b5e906c, 0x54cb266b, 0xe50e1b4f, 0x9f4787c3), 0x78a5636f, 0xebe6b238, 0xc062d46f, 0x7e44008e);
    RoundStep(b, 58, Vars(0xc062d46f, 0xfcd1887b, 0x38cc9913, 0x3ec45cdb,
              0x7e44008e, 0x9b5e906c, 0x54cb266b, 0xe50e1b4f), 0x84c87814, 0x9fe3095e, 0xffb70472, 0x6d83bfc6);
    RoundStep(b, 59, Vars(0xffb70472, 0xc062d46f, 0xfcd1887b, 0x38cc9913,
              0x6d83bfc6, 0x7e44008e, 0x9b5e906c, 0x54cb266b), 0x8cc70208, 0x78bc8d4b, 0xb6ae8fff, 0xb21bad3d);
    RoundStep(b, 60, Vars(0xb6ae8fff, 0xffb70472, 0xc062d46f, 0xfcd1887b,
              0xb21bad3d, 0x6d83bfc6, 0x7e44008e, 0x9b5e906c), 0x90befffa, 0xa43fcf15, 0xb85e2ce9, 0x961f4894);
    RoundStep(b, 61, Vars(0xb85e2ce9, 0xb6ae8fff, 0xffb70472, 0xc062d46f,
              0x961f4894, 0xb21bad3d, 0x6d83bfc6, 0x7e44008e), 0xa4506ceb, 0x668b2ff8, 0x04d24d6c, 0x948d25b6);
    RoundStep(b, 62, Vars(0x04d24d6c, 0xb85e2ce9, 0xb6ae8fff, 0xffb70472,
              0x948d25b6, 0x961f4894, 0xb21bad3d, 0x6d83bfc6), 0xbef9a3f7, 0xeeaba2cc, 0xd39a2165, 0xfb121210);
    RoundStep(b, 63, Vars(0xd39a2165, 0x04d24d6c, 0xb85e2ce9, 0xb6ae8fff,
              0xfb121210, 0x948d25b6, 0x961f4894, 0xb21bad3d), 0xc67178f2, 0x12b1edeb, 0x506e3058, 0x5ef50f24);
  }

  function AbcWords(): Chain {
    [0xba7816bf, 0x8f01cfea, 0x414140de, 0x5dae2223,
     0xb00361a3, 0x96177a9c, 0xb410ff61, 0xf20015ad]
  }

  lemma AbcRounds(b: seq<byte>)
    requires b == Block()
    ensures Rounds(Load(H0()), b, 64) == Vars(0x506e3058, 0xd39a2165, 0x04d24d6c, 0xb85e2ce9, 0x5ef50f24, 0xfb121210,
      0x948d25b6, 0x961f4894)
  {
    assert After(b, 0, Vars(0x6a09e667, 0xbb67ae85, 0x3c6ef372, 0xa54ff53a, 0x510e527f, 0x9b05688c, 0x1f83d9ab,
      0x5be0cd19));
    assert After(b, 64, Vars(0x506e3058, 0xd39a2165, 0x04d24d6c, 0xb85e2ce9, 0x5ef50f24, 0xfb121210, 0x948d25b6,
      0x961f4894)) by {
      hide After, Block;
      Rounds0(b);
      Rounds8(b);
      Rounds16(b);
      Rounds24(b);
      Rounds32(b);
      Rounds40(b);
      Rounds48(b);
      Rounds56(b);
    }
  }

  lemma AbcCompressed(b: seq<byte>)
    requires b == Block()
    ensures Compress(H0(), b) == AbcWords()
  {
    hide Rounds, Block;
    AbcRounds(b);
  }

  lemma AbcChain()
    ensures HashBlocks(Pad(ABC)) == AbcWords()
  {
    var b := Block();
    AbcIsOneBlock();
    AbcCompressed(b);
    hide Compress, Block, H0, Pad, AbcWords;
    OneBlock(b);
  }

  lemma OneBlock(b: seq<byte>)
    requires |b| == 64
    ensures HashBlocks(b) == Compress(H0(), b)
  {
    hide Compress, H0;
    assert b[..0] == [] && b[0..] == b;
  }

  function AbcHead(): seq<byte> {
    [0xba, 0x78, 0x16, 0xbf] + [0x8f, 0x01, 0xcf, 0xea]
    + [0x41, 0x41, 0x40, 0xde] + [0x5d, 0xae, 0x22, 0x23]
  }

  function AbcTail(): seq<byte> {
    [0xb0, 0x03, 0x61, 0xa3] + [0x96, 0x17, 0x7a, 0x9c]
    + [0xb4, 0x10, 0xff, 0x61] + [0xf2, 0x00, 0x15, 0xad]
  }

  function AbcDigest(): (d: seq<byte>)
    ensures |d| == 32
  {
    AbcHead() + AbcTail()
  }

  lemma WordOfDigest(h: Chain, j: nat, w: Word, b0: byte, b1: byte, b2: byte, b3: byte)
    requires j < 8 && h[j] == w
    requires WordByte(w, 0) == b0 && WordByte(w, 1) == b1 && WordByte(w, 2) == b2 && WordByte(w, 3) == b3
    ensures
      var d := DigestBytes(h);
      d[4 * j] == b0 && d[4 * j + 1] == b1 && d[4 * j + 2] == b2 && d[4 * j + 3] == b3
  {
    hide WordByte;
  }

  /** The example of FIPS 180-4. */
  lemma DigestOfAbc()
    ensures Sha256(ABC) == AbcDigest()
  {
    hide HashBlocks, Pad, DigestBytes;
    AbcChain();
    var h, d := AbcWords(), AbcDigest();
    var r := DigestBytes(h);
    WordOfDigest(h, 0, 0xba7816bf, 0xba, 0x78, 0x16, 0xbf);
    WordOfDigest(h, 1, 0x8f01cfea, 0x8f, 0x01, 0xcf, 0xea);
    WordOfDigest(h, 2, 0x414140de, 0x41, 0x41, 0x40, 0xde);
    WordOfDigest(h, 3, 0x5dae2223, 0x5d, 0xae, 0x22, 0x23);
    WordOfDigest(h, 4, 0xb00361a3, 0xb0, 0x03, 0x61, 0xa3);
    WordOfDigest(h, 5, 0x96177a9c, 0x96, 0x17, 0x7a, 0x9c);
    WordOfDigest(h, 6, 0xb410ff61, 0xb4, 0x10, 0xff, 0x61);
    WordOfDigest(h, 7, 0xf20015ad, 0xf2, 0x00, 0x15, 0xad);
    assert forall i :: 0 <= i < 32 ==> r[i] == d[i];
  }
}
