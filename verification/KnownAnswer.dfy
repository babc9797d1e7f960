/** A known answer: the SHA-256 digest of the three bytes "abc", the first of the examples that are published with
    FIPS 180-4, worked out four rounds at a time. */
module KnownAnswer {
  import opened Bytes
  import opened WordOps
  import opened Sha256
  import opened Constants
  import opened MidstateProof

  /** Rounds with the given constants and words. */
  function RunRounds(v: Vars, k: seq<Word>, w: seq<Word>): Vars
    requires |k| == |w|
    decreases |k|
  {
    if w == [] then v else RunRounds(Round(v, k[0], w[0]), k[1..], w[1..])
  }

  function NextWord(w0: Word, w1: Word, w9: Word, w14: Word): Word {
    Add(Add(Add(SmallSigma1(w14), w9), SmallSigma0(w1)), w0)
  }

  /** The four words of the schedule behind sixteen. */
  function Next4(p: seq<Word>, q: seq<Word>, r: seq<Word>, s: seq<Word>): seq<Word>
    requires |p| == |q| == |r| == |s| == 4
  {
    var a, b := NextWord(p[0], p[1], r[1], s[2]), NextWord(p[1], p[2], r[2], s[3]);
    [a, b, NextWord(p[2], p[3], r[3], a), NextWord(p[3], q[0], s[0], b)]
  }

  const W0: seq<Word> := [0x61626380, 0x00000000, 0x00000000, 0x00000000]
  const W4: seq<Word> := [0x00000000, 0x00000000, 0x00000000, 0x00000000]
  const W8: seq<Word> := [0x00000000, 0x00000000, 0x00000000, 0x00000000]
  const W12: seq<Word> := [0x00000000, 0x00000000, 0x00000000, 0x00000018]
  const W16: seq<Word> := [0x61626380, 0x000f0000, 0x7da86405, 0x600003c6]
  const W20: seq<Word> := [0x3e9d7b78, 0x0183fc00, 0x12dcbfdb, 0xe2e2c38e]
  const W24: seq<Word> := [0xc8215c1a, 0xb73679a2, 0xe5bc3909, 0x32663c5b]
  const W28: seq<Word> := [0x9d209d67, 0xec8726cb, 0x702138a4, 0xd3b7973b]
  const W32: seq<Word> := [0x93f5997f, 0x3b68ba73, 0xaff4ffc1, 0xf10a5c62]
  const W36: seq<Word> := [0x0a8b3996, 0x72af830a, 0x9409e33e, 0x24641522]
  const W40: seq<Word> := [0x9f47bf94, 0xf0a64f5a, 0x3e246a79, 0x27333ba3]
  const W44: seq<Word> := [0x0c4763f2, 0x840abf27, 0x7a290d5d, 0x065c43da]
  const W48: seq<Word> := [0xfb3e89cb, 0xcc7617db, 0xb9e66c34, 0xa9993667]
  const W52: seq<Word> := [0x84badedd, 0xc21462bc, 0x1487472c, 0xb20f7a99]
  const W56: seq<Word> := [0xef57b9cd, 0xebe6b238, 0x9fe3095e, 0x78bc8d4b]
  const W60: seq<Word> := [0xa43fcf15, 0x668b2ff8, 0xeeaba2cc, 0x12b1edeb]

  const K0: seq<Word> := [0x428a2f98, 0x71374491, 0xb5c0fbcf, 0xe9b5dba5]
  const K4: seq<Word> := [0x3956c25b, 0x59f111f1, 0x923f82a4, 0xab1c5ed5]
  const K8: seq<Word> := [0xd807aa98, 0x12835b01, 0x243185be, 0x550c7dc3]
  const K12: seq<Word> := [0x72be5d74, 0x80deb1fe, 0x9bdc06a7, 0xc19bf174]
  const K16: seq<Word> := [0xe49b69c1, 0xefbe4786, 0x0fc19dc6, 0x240ca1cc]
  const K20: seq<Word> := [0x2de92c6f, 0x4a7484aa, 0x5cb0a9dc, 0x76f988da]
  const K24: seq<Word> := [0x983e5152, 0xa831c66d, 0xb00327c8, 0xbf597fc7]
  const K28: seq<Word> := [0xc6e00bf3, 0xd5a79147, 0x06ca6351, 0x14292967]
  const K32: seq<Word> := [0x27b70a85, 0x2e1b2138, 0x4d2c6dfc, 0x53380d13]
  const K36: seq<Word> := [0x650a7354, 0x766a0abb, 0x81c2c92e, 0x92722c85]
  const K40: seq<Word> := [0xa2bfe8a1, 0xa81a664b, 0xc24b8b70, 0xc76c51a3]
  const K44: seq<Word> := [0xd192e819, 0xd6990624, 0xf40e3585, 0x106aa070]
  const K48: seq<Word> := [0x19a4c116, 0x1e376c08, 0x2748774c, 0x34b0bcb5]
  const K52: seq<Word> := [0x391c0cb3, 0x4ed8aa4a, 0x5b9cca4f, 0x682e6ff3]
  const K56: seq<Word> := [0x748f82ee, 0x78a5636f, 0x84c87814, 0x8cc70208]
  const K60: seq<Word> := [0x90befffa, 0xa4506ceb, 0xbef9a3f7, 0xc67178f2]

  const V0 := INITIAL
  const V4 := Vars(0xd550f666, 0xc8c347a7, 0x5a6ad9ad, 0x5d6aebcd, 0x24e00850, 0xf92939eb, 0x78ce7989, 0xfa2a4622)
  const V8 := Vars(0x85a07b5f, 0xe5030380, 0x2b4209f5, 0x04409a6a, 0x0c657a79, 0x9b27a401, 0x714260ad, 0x43ada245)
  const V12 := Vars(0xf71fc5a9, 0x4798a3f4, 0x8c87346b, 0x8e04ecb9, 0x816fd6e9, 0x436b23e8, 0x1cc92596, 0x32ca2d8c)
  const V16 := Vars(0xb0fa238e, 0xc0645fde, 0xd932eb16, 0x87912990, 0x07590dcd, 0x0b92f20c, 0x745a48de, 0x1e578218)
  const V20 := Vars(0xe1f20c33, 0xfe777bbf, 0xc2fbd9d1, 0x21da9a9b, 0xb0638179, 0xcc899961, 0x846ee454, 0x8034229c)
  const V24 := Vars(0xc5d53d8d, 0xa7a3623f, 0xc2606d6d, 0x9dc68b63, 0xaa47c347, 0x49f5114a, 0xe1257970, 0x8ada8930)
  const V28 := Vars(0x77d37528, 0xb62ec4bc, 0xcde8037d, 0x1c2c2838, 0xedffbff8, 0xc74c6516, 0x14383d8e, 0x2823ef91)
  const V32 := Vars(0x73b33bf5, 0xea992a22, 0xa0060b30, 0x363482c9, 0xba591112, 0x0109ab3a, 0xade79437, 0x6112a3b7)
  const V36 := Vars(0x65a0cfe4, 0xa9a7738c, 0xfe604df5, 0x98e12507, 0xf4b002d6, 0x085f3833, 0x59249dd3, 0x9cd9f5f6)
  const V40 := Vars(0x79ea687a, 0x6dc57a8a, 0x34df1604, 0x41a65cb1, 0x1efbc0a0, 0xf0781bc8, 0xa507a53d, 0x0772a26b)
  const V44 := Vars(0x9d4baf93, 0x17aa0dfe, 0xdf46652f, 0xd6670766, 0xfda24c2e, 0xdecd4715, 0x838b2711, 0x26352d63)
  const V48 := Vars(0x4172328d, 0xa14c14b0, 0x72ab4b91, 0x26628815, 0xfecf0bc6, 0xd57b94a9, 0xb7755da1, 0xa80f11f0)
  const V52 := Vars(0x886e7a22, 0x7a0508a1, 0xf11bfaa8, 0x05757ceb, 0x49231c1e, 0x52f1ccf7, 0x6e5c390c, 0xbd714038)
  const V56 := Vars(0x38cc9913, 0x3ec45cdb, 0xf5702fdb, 0x101fd28f, 0x54cb266b, 0xe50e1b4f, 0x9f4787c3, 0x529e7d00)
  const V60 := Vars(0xb6ae8fff, 0xffb70472, 0xc062d46f, 0xfcd1887b, 0xb21bad3d, 0x6d83bfc6, 0x7e44008e, 0x9b5e906c)
  const V64 := Vars(0x506e3058, 0xd39a2165, 0x04d24d6c, 0xb85e2ce9, 0x5ef50f24, 0xfb121210, 0x948d25b6, 0x961f4894)

  lemma Rounds0()
    ensures |W0| == 4 == |K0| && RunRounds(V0, K0, W0) == V4
  {
    var a := Vars(0x5d6aebcd, 0x6a09e667, 0xbb67ae85, 0x3c6ef372, 0xfa2a4622, 0x510e527f, 0x9b05688c, 0x1f83d9ab);
    var b := Vars(0x5a6ad9ad, 0x5d6aebcd, 0x6a09e667, 0xbb67ae85, 0x78ce7989, 0xfa2a4622, 0x510e527f, 0x9b05688c);
    var c := Vars(0xc8c347a7, 0x5a6ad9ad, 0x5d6aebcd, 0x6a09e667, 0xf92939eb, 0x78ce7989, 0xfa2a4622, 0x510e527f);
    assert Round(V0, K0[0], W0[0]) == a;
    assert Round(a, K0[1], W0[1]) == b;
    assert Round(b, K0[2], W0[2]) == c;
    assert Round(c, K0[3], W0[3]) == V4;
  }

  lemma Rounds4()
    ensures |W4| == 4 == |K4| && RunRounds(V4, K4, W4) == V8
  {
    var a := Vars(0x04409a6a, 0xd550f666, 0xc8c347a7, 0x5a6ad9ad, 0x43ada245, 0x24e00850, 0xf92939eb, 0x78ce7989);
    var b := Vars(0x2b4209f5, 0x04409a6a, 0xd550f666, 0xc8c347a7, 0x714260ad, 0x43ada245, 0x24e00850, 0xf92939eb);
    var c := Vars(0xe5030380, 0x2b4209f5, 0x04409a6a, 0xd550f666, 0x9b27a401, 0x714260ad, 0x43ada245, 0x24e00850);
    assert Round(V4, K4[0], W4[0]) == a;
    assert Round(a, K4[1], W4[1]) == b;
    assert Round(b, K4[2], W4[2]) == c;
    assert Round(c, K4[3], W4[3]) == V8;
  }

  lemma Rounds8()
    ensures |W8| == 4 == |K8| && RunRounds(V8, K8, W8) == V12
  {
    var a := Vars(0x8e04ecb9, 0x85a07b5f, 0xe5030380, 0x2b4209f5, 0x32ca2d8c, 0x0c657a79, 0x9b27a401, 0x714260ad);
    var b := Vars(0x8c87346b, 0x8e04ecb9, 0x85a07b5f, 0xe5030380, 0x1cc92596, 0x32ca2d8c, 0x0c657a79, 0x9b27a401);
    var c := Vars(0x4798a3f4, 0x8c87346b, 0x8e04ecb9, 0x85a07b5f, 0x436b23e8, 0x1cc92596, 0x32ca2d8c, 0x0c657a79);
    assert Round(V8, K8[0], W8[0]) == a;
    assert Round(a, K8[1], W8[1]) == b;
    assert Round(b, K8[2], W8[2]) == c;
    assert Round(c, K8[3], W8[3]) == V12;
  }

  lemma Rounds12()
    ensures |W12| == 4 == |K12| && RunRounds(V12, K12, W12) == V16
  {
    var a := Vars(0x87912990, 0xf71fc5a9, 0x4798a3f4, 0x8c87346b, 0x1e578218, 0x816fd6e9, 0x436b23e8, 0x1cc92596);
    var b := Vars(0xd932eb16, 0x87912990, 0xf71fc5a9, 0x4798a3f4, 0x745a48de, 0x1e578218, 0x816fd6e9, 0x436b23e8);
    var c := Vars(0xc0645fde, 0xd932eb16, 0x87912990, 0xf71fc5a9, 0x0b92f20c, 0x745a48de, 0x1e578218, 0x816fd6e9);
    assert Round(V12, K12[0], W12[0]) == a;
    assert Round(a, K12[1], W12[1]) == b;
    assert Round(b, K12[2], W12[2]) == c;
    assert Round(c, K12[3], W12[3]) == V16;
  }

  lemma Rounds16()
    ensures |W16| == 4 == |K16| && RunRounds(V16, K16, W16) == V20
  {
    var a := Vars(0x21da9a9b, 0xb0fa238e, 0xc0645fde, 0xd932eb16, 0x8034229c, 0x07590dcd, 0x0b92f20c, 0x745a48de);
    var b := Vars(0xc2fbd9d1, 0x21da9a9b, 0xb0fa238e, 0xc0645fde, 0x846ee454, 0x8034229c, 0x07590dcd, 0x0b92f20c);
    var c := Vars(0xfe777bbf, 0xc2fbd9d1, 0x21da9a9b, 0xb0fa238e, 0xcc899961, 0x846ee454, 0x8034229c, 0x07590dcd);
    assert Round(V16, K16[0], W16[0]) == a;
    assert Round(a, K16[1], W16[1]) == b;
    assert Round(b, K16[2], W16[2]) == c;
    assert Round(c, K16[3], W16[3]) == V20;
  }

  lemma Rounds20()
    ensures |W20| == 4 == |K20| && RunRounds(V20, K20, W20) == V24
  {
    var a := Vars(0x9dc68b63, 0xe1f20c33, 0xfe777bbf, 0xc2fbd9d1, 0x8ada8930, 0xb0638179, 0xcc899961, 0x846ee454);
    var b := Vars(0xc2606d6d, 0x9dc68b63, 0xe1f20c33, 0xfe777bbf, 0xe1257970, 0x8ada8930, 0xb0638179, 0xcc899961);
    var c := Vars(0xa7a3623f, 0xc2606d6d, 0x9dc68b63, 0xe1f20c33, 0x49f5114a, 0xe1257970, 0x8ada8930, 0xb0638179);
    assert Round(V20, K20[0], W20[0]) == a;
    assert Round(a, K20[1], W20[1]) == b;
    assert Round(b, K20[2], W20[2]) == c;
    assert Round(c, K20[3], W20[3]) == V24;
  }

  lemma Rounds24()
    ensures |W24| == 4 == |K24| && RunRounds(V24, K24, W24) == V28
  {
    var a := Vars(0x1c2c2838, 0xc5d53d8d, 0xa7a3623f, 0xc2606d6d, 0x2823ef91, 0xaa47c347, 0x49f5114a, 0xe1257970);
    var b := Vars(0xcde8037d, 0x1c2c2838, 0xc5d53d8d, 0xa7a3623f, 0x14383d8e, 0x2823ef91, 0xaa47c347, 0x49f5114a);
    var c := Vars(0xb62ec4bc, 0xcde8037d, 0x1c2c2838, 0xc5d53d8d, 0xc74c6516, 0x14383d8e, 0x2823ef91, 0xaa47c347);
    assert Round(V24, K24[0], W24[0]) == a;
    assert Round(a, K24[1], W24[1]) == b;
    assert Round(b, K24[2], W24[2]) == c;
    assert Round(c, K24[3], W24[3]) == V28;
  }

  lemma Rounds28()
    ensures |W28| == 4 == |K28| && RunRounds(V28, K28, W28) == V32
  {
    var a := Vars(0x363482c9, 0x77d37528, 0xb62ec4bc, 0xcde8037d, 0x6112a3b7, 0xedffbff8, 0xc74c6516, 0x14383d8e);
    var b := Vars(0xa0060b30, 0x363482c9, 0x77d37528, 0xb62ec4bc, 0xade79437, 0x6112a3b7, 0xedffbff8, 0xc74c6516);
    var c := Vars(0xea992a22, 0xa0060b30, 0x363482c9, 0x77d37528, 0x0109ab3a, 0xade79437, 0x6112a3b7, 0xedffbff8);
    assert Round(V28, K28[0], W28[0]) == a;
    assert Round(a, K28[1], W28[1]) == b;
    assert Round(b, K28[2], W28[2]) == c;
    assert Round(c, K28[3], W28[3]) == V32;
  }

  lemma Rounds32()
    ensures |W32| == 4 == |K32| && RunRounds(V32, K32, W32) == V36
  {
    var a := Vars(0x98e12507, 0x73b33bf5, 0xea992a22, 0xa0060b30, 0x9cd9f5f6, 0xba591112, 0x0109ab3a, 0xade79437);
    var b := Vars(0xfe604df5, 0x98e12507, 0x73b33bf5, 0xea992a22, 0x59249dd3, 0x9cd9f5f6, 0xba591112, 0x0109ab3a);
    var c := Vars(0xa9a7738c, 0xfe604df5, 0x98e12507, 0x73b33bf5, 0x085f3833, 0x59249dd3, 0x9cd9f5f6, 0xba591112);
    assert Round(V32, K32[0], W32[0]) == a;
    assert Round(a, K32[1], W32[1]) == b;
    assert Round(b, K32[2], W32[2]) == c;
    assert Round(c, K32[3], W32[3]) == V36;
  }

  lemma Rounds36()
    ensures |W36| == 4 == |K36| && RunRounds(V36, K36, W36) == V40
  {
    var a := Vars(0x41a65cb1, 0x65a0cfe4, 0xa9a7738c, 0xfe604df5, 0x0772a26b, 0xf4b002d6, 0x085f3833, 0x59249dd3);
    var b := Vars(0x34df1604, 0x41a65cb1, 0x65a0cfe4, 0xa9a7738c, 0xa507a53d, 0x0772a26b, 0xf4b002d6, 0x085f3833);
    var c := Vars(0x6dc57a8a, 0x34df1604, 0x41a65cb1, 0x65a0cfe4, 0xf0781bc8, 0xa507a53d, 0x0772a26b, 0xf4b002d6);
    assert Round(V36, K36[0], W36[0]) == a;
    assert Round(a, K36[1], W36[1]) == b;
    assert Round(b, K36[2], W36[2]) == c;
    assert Round(c, K36[3], W36[3]) == V40;
  }

  lemma Rounds40()
    ensures |W40| == 4 == |K40| && RunRounds(V40, K40, W40) == V44
  {
    var a := Vars(0xd6670766, 0x79ea687a, 0x6dc57a8a, 0x34df1604, 0x26352d63, 0x1efbc0a0, 0xf0781bc8, 0xa507a53d);
    var b := Vars(0xdf46652f, 0xd6670766, 0x79ea687a, 0x6dc57a8a, 0x838b2711, 0x26352d63, 0x1efbc0a0, 0xf0781bc8);
    var c := Vars(0x17aa0dfe, 0xdf46652f, 0xd6670766, 0x79ea687a, 0xdecd4715, 0x838b2711, 0x26352d63, 0x1efbc0a0);
    assert Round(V40, K40[0], W40[0]) == a;
    assert Round(a, K40[1], W40[1]) == b;
    assert Round(b, K40[2], W40[2]) == c;
    assert Round(c, K40[3], W40[3]) == V44;
  }

  lemma Rounds44()
    ensures |W44| == 4 == |K44| && RunRounds(V44, K44, W44) == V48
  {
    var a := Vars(0x26628815, 0x9d4baf93, 0x17aa0dfe, 0xdf46652f, 0xa80f11f0, 0xfda24c2e, 0xdecd4715, 0x838b2711);
    var b := Vars(0x72ab4b91, 0x26628815, 0x9d4baf93, 0x17aa0dfe, 0xb7755da1, 0xa80f11f0, 0xfda24c2e, 0xdecd4715);
    var c := Vars(0xa14c14b0, 0x72ab4b91, 0x26628815, 0x9d4baf93, 0xd57b94a9, 0xb7755da1, 0xa80f11f0, 0xfda24c2e);
    assert Round(V44, K44[0], W44[0]) == a;
    assert Round(a, K44[1], W44[1]) == b;
    assert Round(b, K44[2], W44[2]) == c;
    assert Round(c, K44[3], W44[3]) == V48;
  }

  lemma Rounds48()
    ensures |W48| == 4 == |K48| && RunRounds(V48, K48, W48) == V52
  {
    var a := Vars(0x05757ceb, 0x4172328d, 0xa14c14b0, 0x72ab4b91, 0xbd714038, 0xfecf0bc6, 0xd57b94a9, 0xb7755da1);
    var b := Vars(0xf11bfaa8, 0x05757ceb, 0x4172328d, 0xa14c14b0, 0x6e5c390c, 0xbd714038, 0xfecf0bc6, 0xd57b94a9);
    var c := Vars(0x7a0508a1, 0xf11bfaa8, 0x05757ceb, 0x4172328d, 0x52f1ccf7, 0x6e5c390c, 0xbd714038, 0xfecf0bc6);
    assert Round(V48, K48[0], W48[0]) == a;
    assert Round(a, K48[1], W48[1]) == b;
    assert Round(b, K48[2], W48[2]) == c;
    assert Round(c, K48[3], W48[3]) == V52;
  }

  lemma Rounds52()
    ensures |W52| == 4 == |K52| && RunRounds(V52, K52, W52) == V56
  {
    var a := Vars(0x101fd28f, 0x886e7a22, 0x7a0508a1, 0xf11bfaa8, 0x529e7d00, 0x49231c1e, 0x52f1ccf7, 0x6e5c390c);
    var b := Vars(0xf5702fdb, 0x101fd28f, 0x886e7a22, 0x7a0508a1, 0x9f4787c3, 0x529e7d00, 0x49231c1e, 0x52f1ccf7);
    var c := Vars(0x3ec45cdb, 0xf5702fdb, 0x101fd28f, 0x886e7a22, 0xe50e1b4f, 0x9f4787c3, 0x529e7d00, 0x49231c1e);
    assert Round(V52, K52[0], W52[0]) == a;
    assert Round(a, K52[1], W52[1]) == b;
    assert Round(b, K52[2], W52[2]) == c;
    assert Round(c, K52[3], W52[3]) == V56;
  }

  lemma Rounds56()
    ensures |W56| == 4 == |K56| && RunRounds(V56, K56, W56) == V60
  {
    var a := Vars(0xfcd1887b, 0x38cc9913, 0x3ec45cdb, 0xf5702fdb, 0x9b5e906c, 0x54cb266b, 0xe50e1b4f, 0x9f4787c3);
    var b := Vars(0xc062d46f, 0xfcd1887b, 0x38cc9913, 0x3ec45cdb, 0x7e44008e, 0x9b5e906c, 0x54cb266b, 0xe50e1b4f);
    var c := Vars(0xffb70472, 0xc062d46f, 0xfcd1887b, 0x38cc9913, 0x6d83bfc6, 0x7e44008e, 0x9b5e906c, 0x54cb266b);
    assert Round(V56, K56[0], W56[0]) == a;
    assert Round(a, K56[1], W56[1]) == b;
    assert Round(b, K56[2], W56[2]) == c;
    assert Round(c, K56[3], W56[3]) == V60;
  }

  lemma Rounds60()
    ensures |W60| == 4 == |K60| && RunRounds(V60, K60, W60) == V64
  {
    var a := Vars(0xb85e2ce9, 0xb6ae8fff, 0xffb70472, 0xc062d46f, 0x961f4894, 0xb21bad3d, 0x6d83bfc6, 0x7e44008e);
    var b := Vars(0x04d24d6c, 0xb85e2ce9, 0xb6ae8fff, 0xffb70472, 0x948d25b6, 0x961f4894, 0xb21bad3d, 0x6d83bfc6);
    var c := Vars(0xd39a2165, 0x04d24d6c, 0xb85e2ce9, 0xb6ae8fff, 0xfb121210, 0x948d25b6, 0x961f4894, 0xb21bad3d);
    assert Round(V60, K60[0], W60[0]) == a;
    assert Round(a, K60[1], W60[1]) == b;
    assert Round(b, K60[2], W60[2]) == c;
    assert Round(c, K60[3], W60[3]) == V64;
  }

  lemma Words16()
    ensures Next4(W0, W4, W8, W12) == W16
  {
  }

  lemma Words20()
    ensures Next4(W4, W8, W12, W16) == W20
  {
  }

  lemma Words24()
    ensures Next4(W8, W12, W16, W20) == W24
  {
  }

  lemma Words28()
    ensures Next4(W12, W16, W20, W24) == W28
  {
  }

  lemma Words32()
    ensures Next4(W16, W20, W24, W28) == W32
  {
  }

  lemma Words36()
    ensures Next4(W20, W24, W28, W32) == W36
  {
  }

  lemma Words40()
    ensures Next4(W24, W28, W32, W36) == W40
  {
  }

  lemma Words44()
    ensures Next4(W28, W32, W36, W40) == W44
  {
  }

  lemma Words48()
    ensures Next4(W32, W36, W40, W44) == W48
  {
  }

  lemma Words52()
    ensures Next4(W36, W40, W44, W48) == W52
  {
  }

  lemma Words56()
    ensures Next4(W40, W44, W48, W52) == W56
  {
  }

  lemma Words60()
    ensures Next4(W44, W48, W52, W56) == W60
  {
  }

  lemma Constants0()
    ensures |K| == 64 && K[0..4] == K0 && K[4..8] == K4 && K[8..12] == K8 && K[12..16] == K12
  {
    TableFrom0();
    hide K;
  }

  lemma Constants16()
    ensures |K| == 64 && K[16..20] == K16 && K[20..24] == K20 && K[24..28] == K24 && K[28..32] == K28
  {
    TableFrom16();
    hide K;
  }

  lemma Constants32()
    ensures |K| == 64 && K[32..36] == K32 && K[36..40] == K36 && K[40..44] == K40 && K[44..48] == K44
  {
    TableFrom32();
    hide K;
  }

  lemma Constants48()
    ensures |K| == 64 && K[48..52] == K48 && K[52..56] == K52 && K[56..60] == K56 && K[60..64] == K60
  {
    TableFrom48();
    hide K;
  }

  // What these tables say of the standard's functions.

  lemma FourRounds(v: Vars, schedule: nat -> Word, i: nat, k: seq<Word>, w: seq<Word>)
    requires |K| == 64 && i <= 60 && |w| == 4 && k == K[i..i + 4]
    requires forall j :: 0 <= j < 4 ==> w[j] == schedule(i + j)
    ensures Rounds(v, schedule, i + 4) == RunRounds(Rounds(v, schedule, i), k, w)
  {
    hide Round, K;
    var v0 := Rounds(v, schedule, i);
    var v1 := Round(v0, k[0], w[0]);
    var v2 := Round(v1, k[1], w[1]);
    var v3 := Round(v2, k[2], w[2]);
    assert Rounds(v, schedule, i + 1) == v1;
    assert Rounds(v, schedule, i + 2) == v2;
    assert Rounds(v, schedule, i + 3) == v3;
    assert RunRounds(v3, k[1..][1..][1..], w[1..][1..][1..]) == Round(v3, k[3], w[3]);
    assert RunRounds(v2, k[1..][1..], w[1..][1..]) == Round(v3, k[3], w[3]);
    assert RunRounds(v1, k[1..], w[1..]) == Round(v3, k[3], w[3]);
  }

  predicate InSchedule(m: Block, t: nat, row: seq<Word>) {
    |row| == 4 && forall j :: 0 <= j < 4 ==> row[j] == W(m, t + j)
  }

  lemma NextInSchedule(m: Block, t: nat, p: seq<Word>, q: seq<Word>, r: seq<Word>, s: seq<Word>)
    requires InSchedule(m, t, p) && InSchedule(m, t + 4, q) && InSchedule(m, t + 8, r) && InSchedule(m, t + 12, s)
    ensures InSchedule(m, t + 16, Next4(p, q, r, s))
  {
    hide NextWord, W;
    ScheduleStep(m, t); ScheduleStep(m, t + 1); ScheduleStep(m, t + 2); ScheduleStep(m, t + 3);
    var n := Next4(p, q, r, s);
    assert p[0] == W(m, t) && p[1] == W(m, t + 1) && p[2] == W(m, t + 2) && p[3] == W(m, t + 3) && q[0] == W(m, t + 4);
    assert r[1] == W(m, t + 9) && r[2] == W(m, t + 10) && r[3] == W(m, t + 11) && s[0] == W(m, t + 12);
    assert s[2] == W(m, t + 14) && s[3] == W(m, t + 15);
    assert n[0] == W(m, t + 16) && n[1] == W(m, t + 17);
    assert n[2] == W(m, t + 18) && n[3] == W(m, t + 19);
  }

  lemma ScheduleStep(m: Block, t: nat)
    ensures W(m, t + 16) == NextWord(W(m, t), W(m, t + 1), W(m, t + 9), W(m, t + 14))
  {
    hide Add, SmallSigma0, SmallSigma1;
  }

  const ABC_BLOCK: Block := W0 + W4 + W8 + W12

  lemma ScheduleOfAbc()
    ensures InSchedule(ABC_BLOCK, 0, W0) && InSchedule(ABC_BLOCK, 4, W4)
    ensures InSchedule(ABC_BLOCK, 8, W8) && InSchedule(ABC_BLOCK, 12, W12)
    ensures InSchedule(ABC_BLOCK, 16, W16) && InSchedule(ABC_BLOCK, 20, W20)
    ensures InSchedule(ABC_BLOCK, 24, W24) && InSchedule(ABC_BLOCK, 28, W28)
    ensures InSchedule(ABC_BLOCK, 32, W32) && InSchedule(ABC_BLOCK, 36, W36)
    ensures InSchedule(ABC_BLOCK, 40, W40) && InSchedule(ABC_BLOCK, 44, W44)
    ensures InSchedule(ABC_BLOCK, 48, W48) && InSchedule(ABC_BLOCK, 52, W52)
    ensures InSchedule(ABC_BLOCK, 56, W56) && InSchedule(ABC_BLOCK, 60, W60)
  {
    FirstWords();
    hide InSchedule, Next4, ABC_BLOCK, W0, W4, W8, W12, W16, W20, W24, W28, W32, W36, W40, W44, W48, W52, W56, W60;
    Words16(); NextInSchedule(ABC_BLOCK, 0, W0, W4, W8, W12);
    Words20(); NextInSchedule(ABC_BLOCK, 4, W4, W8, W12, W16);
    Words24(); NextInSchedule(ABC_BLOCK, 8, W8, W12, W16, W20);
    Words28(); NextInSchedule(ABC_BLOCK, 12, W12, W16, W20, W24);
    Words32(); NextInSchedule(ABC_BLOCK, 16, W16, W20, W24, W28);
    Words36(); NextInSchedule(ABC_BLOCK, 20, W20, W24, W28, W32);
    Words40(); NextInSchedule(ABC_BLOCK, 24, W24, W28, W32, W36);
    Words44(); NextInSchedule(ABC_BLOCK, 28, W28, W32, W36, W40);
    Words48(); NextInSchedule(ABC_BLOCK, 32, W32, W36, W40, W44);
    Words52(); NextInSchedule(ABC_BLOCK, 36, W36, W40, W44, W48);
    Words56(); NextInSchedule(ABC_BLOCK, 40, W40, W44, W48, W52);
    Words60(); NextInSchedule(ABC_BLOCK, 44, W44, W48, W52, W56);
  }

  lemma FirstWords()
    ensures InSchedule(ABC_BLOCK, 0, W0) && InSchedule(ABC_BLOCK, 4, W4)
    ensures InSchedule(ABC_BLOCK, 8, W8) && InSchedule(ABC_BLOCK, 12, W12)
  {
  }

  lemma RoundsOfAbc()
    ensures Rounds(INITIAL, Schedule(ABC_BLOCK), 64) == V64
  {
    hide InSchedule, RunRounds, ABC_BLOCK, K, INITIAL,
      W0, W4, W8, W12, W16, W20, W24, W28, W32, W36, W40, W44, W48, W52, W56, W60,
      K0, K4, K8, K12, K16, K20, K24, K28, K32, K36, K40, K44, K48, K52, K56, K60,
      V0, V4, V8, V12, V16, V20, V24, V28, V32, V36, V40, V44, V48, V52, V56, V60, V64;
    var s := Schedule(ABC_BLOCK);
    ScheduleOfAbc();
    Constants0(); Constants16(); Constants32(); Constants48();
    RoundsStart(s);
    Rounds0(); RowRounds(0, K0, W0);
    Rounds4(); RowRounds(4, K4, W4);
    Rounds8(); RowRounds(8, K8, W8);
    Rounds12(); RowRounds(12, K12, W12);
    Rounds16(); RowRounds(16, K16, W16);
    Rounds20(); RowRounds(20, K20, W20);
    Rounds24(); RowRounds(24, K24, W24);
    Rounds28(); RowRounds(28, K28, W28);
    Rounds32(); RowRounds(32, K32, W32);
    Rounds36(); RowRounds(36, K36, W36);
    Rounds40(); RowRounds(40, K40, W40);
    Rounds44(); RowRounds(44, K44, W44);
    Rounds48(); RowRounds(48, K48, W48);
    Rounds52(); RowRounds(52, K52, W52);
    Rounds56(); RowRounds(56, K56, W56);
    Rounds60(); RowRounds(60, K60, W60);
  }

  lemma RoundsStart(s: nat -> Word)
    ensures Rounds(INITIAL, s, 0) == V0
  {
  }

  lemma RowRounds(i: nat, k: seq<Word>, w: seq<Word>)
    requires |K| == 64 && i <= 60 && |k| == 4 && k == K[i..i + 4] && InSchedule(ABC_BLOCK, i, w)
    ensures |w| == 4
    ensures Rounds(INITIAL, Schedule(ABC_BLOCK), i + 4) == RunRounds(Rounds(INITIAL, Schedule(ABC_BLOCK), i), k, w)
  {
    hide ABC_BLOCK, K, INITIAL, RunRounds;
    FourRounds(INITIAL, Schedule(ABC_BLOCK), i, k, w);
  }

  const ABC: bytes := [0x61, 0x62, 0x63]

  const ABC_DIGEST: bytes := [
    0xba, 0x78, 0x16, 0xbf, 0x8f, 0x01, 0xcf, 0xea, 0x41, 0x41, 0x40, 0xde, 0x5d, 0xae, 0x22, 0x23,
    0xb0, 0x03, 0x61, 0xa3, 0x96, 0x17, 0x7a, 0x9c, 0xb4, 0x10, 0xff, 0x61, 0xf2, 0x00, 0x15, 0xad]

  const ABC_STATE :=
    Vars(0xba7816bf, 0x8f01cfea, 0x414140de, 0x5dae2223, 0xb00361a3, 0x96177a9c, 0xb410ff61, 0xf20015ad)

  lemma AbcState()
    ensures AddVars(INITIAL, V64) == ABC_STATE
  {
  }

  lemma AbcBytesAD()
    ensures WordBytes(0xba7816bf) == [0xba, 0x78, 0x16, 0xbf]
    ensures WordBytes(0x8f01cfea) == [0x8f, 0x01, 0xcf, 0xea]
    ensures WordBytes(0x414140de) == [0x41, 0x41, 0x40, 0xde]
    ensures WordBytes(0x5dae2223) == [0x5d, 0xae, 0x22, 0x23]
  {
  }

  lemma AbcBytesEH()
    ensures WordBytes(0xb00361a3) == [0xb0, 0x03, 0x61, 0xa3]
    ensures WordBytes(0x96177a9c) == [0x96, 0x17, 0x7a, 0x9c]
    ensures WordBytes(0xb410ff61) == [0xb4, 0x10, 0xff, 0x61]
    ensures WordBytes(0xf20015ad) == [0xf2, 0x00, 0x15, 0xad]
  {
  }

  lemma AbcDigest()
    ensures Digest(ABC_STATE) == ABC_DIGEST
  {
    hide WordBytes;
    AbcBytesAD(); AbcBytesEH();
  }

  lemma LengthOfAbc()
    ensures LengthBytes(24) == [0, 0, 0, 0, 0, 0, 0, 24]
  {
    assert BigEndianBytes(0, 4) == [0, 0, 0, 0];
    assert BigEndianBytes(0, 7) == BigEndianBytes(0, 4) + [0, 0, 0];
  }

  lemma PadAbc()
    ensures Pad(ABC) == [0x61, 0x62, 0x63, 0x80] + (Zeros(56) + [0, 0, 0, 24])
  {
    hide LengthBytes;
    LengthOfAbc();
    assert Pad(ABC) == ABC + [0x80] + Zeros(52) + [0, 0, 0, 0, 0, 0, 0, 24];
  }

  lemma AbcWords()
    ensures BytesWord([0x61, 0x62, 0x63, 0x80]) == 0x61626380 && BytesWord([0, 0, 0, 24]) == 24
  {
  }

  lemma BlockOfAbc()
    ensures ABC_BLOCK == [0x61626380] + seq(14, _ => 0) + [24]
  {
  }

  lemma AbcBlock()
    ensures |Pad(ABC)| == 64 && ParseBlock(Pad(ABC)) == ABC_BLOCK
  {
    hide Pad, BytesWord, Words, ABC, ABC_BLOCK, ParseBlock;
    var a: bytes, z: bytes, n: bytes := [0x61, 0x62, 0x63, 0x80], Zeros(56), [0, 0, 0, 24];
    PadAbc();
    assert |a + (z + n)| == 64;
    ParseIsWords(a + (z + n));
    WordsAppend(z, n);
    WordsAppend(a, z + n);
    OneWord(a);
    OneWord(n);
    ZeroWords(14);
    AbcWords();
    BlockOfAbc();
    var zeros: seq<Word> := seq(14, _ => 0);
    assert Words(a + (z + n)) == [0x61626380] + (zeros + [24]);
    assert [0x61626380] + (zeros + [24]) == [0x61626380] + zeros + [24];
  }

  /** SHA-256 of "abc". */
  lemma Sha256OfAbc()
    ensures Sha256.Sha256(ABC) == ABC_DIGEST
  {
    hide Pad, Digest, HashBlocks, ParseBlock, AddVars, Rounds, ABC_BLOCK, ABC, ABC_STATE, ABC_DIGEST, V64,
      INITIAL;
    AbcBlock();
    OneBlock(INITIAL, Pad(ABC));
    RoundsOfAbc();
    AbcState();
    AbcDigest();
  }
}
