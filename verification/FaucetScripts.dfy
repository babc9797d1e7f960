/** The three faucet programs (powcoins/scripts.go), piece by piece, and what their bytes mean. */
module FaucetScripts {
  import opened Bytes
  import opened Script

  /** The difficulty d becomes d - 16, which must not be negative ... */
  const CHECK_LOW_CODE: bytes := [0x60, 0x94, 0x76, 0x00, 0xa2, 0x69]
  const CHECK_LOW := Then(SmallInt(16), Then(Sub, Then(Dup, Then(Push([]), Then(GreaterThanOrEqual, Then(Verify,
    End))))))

  /** ... and must be below 64. */
  const CHECK_HIGH_CODE: bytes := [0x76] + [0x01, 0x40] + [0x9f, 0x69]
  const CHECK_HIGH := Then(Dup, Then(Push([0x40]), Then(LessThan, Then(Verify, End))))

  /** Ten times d - 16, by doubling and adding; then 640 less that. */
  const TIMES_TEN_CODE: bytes := [0x76, 0x76, 0x93, 0x76, 0x76] + [0x93, 0x76, 0x93, 0x93]
  const TIMES_TEN := Then(Dup, Then(Dup, Then(Add, Then(Dup, Then(Dup, Then(Add, Then(Dup, Then(Add, Then(Add,
    End)))))))))

  const FROM_640_CODE: bytes := [0x02, 0x80, 0x02] + [0x7c, 0x94]
  const FROM_640 := Then(Push([0x80, 0x02]), Then(Swap, Then(Sub, End)))

  /** Four times d - 16; then 256 less that. */
  const TIMES_FOUR_CODE: bytes := [0x76, 0x76, 0x93, 0x76, 0x93]
  const TIMES_FOUR := Then(Dup, Then(Dup, Then(Add, Then(Dup, Then(Add, End)))))

  const FROM_256_CODE: bytes := [0x02, 0x00, 0x01] + [0x7c, 0x94]
  const FROM_256 := Then(Push([0x00, 0x01]), Then(Swap, Then(Sub, End)))

  /** 64 less d - 16. */
  const FROM_64_CODE: bytes := [0x76] + [0x01, 0x40] + [0x7c, 0x94]
  const FROM_64 := Then(Dup, Then(Push([0x40]), Then(Swap, Then(Sub, End))))

  /** Ask for the relative lock, then start the zero bytes with two. */
  const CHECK_DELAY_CODE: bytes := [0xb2, 0x75] + [0x02, 0x00, 0x00] + [0x6b]
  const CHECK_DELAY := Then(CheckSequenceVerify, Then(Drop, Then(Push([0x00, 0x00]), Then(ToAltStack, End))))

  /** Four more zero bytes for 32 bits of difficulty. */
  const TEST_32_CODE: bytes := [0x76] + [0x01, 0x20] + [0xa2, 0x63]
  const TEST_32 := Then(Dup, Then(Push([0x20]), Then(GreaterThanOrEqual, Then(If, End))))

  const ADD_FOUR_CODE: bytes := [0x6c] + [0x04, 0x00, 0x00, 0x00, 0x00] + [0x7e, 0x6b] + [0x01, 0x20] + [0x94, 0x68]
  const ADD_FOUR := Then(FromAltStack, Then(Push([0x00, 0x00, 0x00, 0x00]), Then(Cat, Then(ToAltStack,
    Then(Push([0x20]), Then(Sub, Then(EndIf, End)))))))

  /** Two more for 16. */
  const TEST_16_CODE: bytes := [0x76, 0x60, 0xa2, 0x63]
  const TEST_16 := Then(Dup, Then(SmallInt(16), Then(GreaterThanOrEqual, Then(If, End))))

  const ADD_TWO_CODE: bytes := [0x6c] + [0x02, 0x00, 0x00] + [0x7e, 0x6b, 0x60, 0x94, 0x68]
  const ADD_TWO := Then(FromAltStack, Then(Push([0x00, 0x00]), Then(Cat, Then(ToAltStack, Then(SmallInt(16),
    Then(Sub, Then(EndIf, End)))))))

  /** One more for 8. */
  const TEST_8_CODE: bytes := [0x76, 0x58, 0xa2, 0x63]
  const TEST_8 := Then(Dup, Then(SmallInt(8), Then(GreaterThanOrEqual, Then(If, End))))

  const ADD_ONE_CODE: bytes := [0x6c] + [0x01, 0x00] + [0x7e, 0x6b, 0x58, 0x94, 0x68]
  const ADD_ONE := Then(FromAltStack, Then(Push([0x00]), Then(Cat, Then(ToAltStack, Then(SmallInt(8), Then(Sub,
    Then(EndIf, End)))))))

  /** hA must be one byte; keep it, and read it as an unsigned number. */
  const KEEP_BYTE_CODE: bytes := [0x7c, 0x82, 0x51, 0x88, 0x76, 0x6b]
  const KEEP_BYTE := Then(Swap, Then(Size, Then(SmallInt(1), Then(EqualVerify, Then(Dup, Then(ToAltStack, End))))))

  const AS_NUMBER_CODE: bytes := [0x51, 0x7e] + [0x02, 0x00, 0x01] + [0x94, 0x7c]
  const AS_NUMBER := Then(SmallInt(1), Then(Cat, Then(Push([0x00, 0x01]), Then(Sub, Then(Swap, End)))))

  /** The power 2^(8 - r) for the remaining r bits, r = 0 to 6 ... */
  const RUNG_0_CODE: bytes := [0x76, 0x00, 0x87, 0x63] + [0x02, 0x00, 0x01] + [0x67]
  const RUNG_0 := Then(Dup, Then(Push([]), Then(Equal, Then(If, Then(Push([0x00, 0x01]), Then(Else, End))))))

  const RUNG_1_CODE: bytes := [0x76, 0x51, 0x87, 0x63] + [0x02, 0x80, 0x00] + [0x67]
  const RUNG_1 := Then(Dup, Then(SmallInt(1), Then(Equal, Then(If, Then(Push([0x80, 0x00]), Then(Else, End))))))

  const RUNG_2_CODE: bytes := [0x76, 0x52, 0x87, 0x63] + [0x01, 0x40] + [0x67]
  const RUNG_2 := Then(Dup, Then(SmallInt(2), Then(Equal, Then(If, Then(Push([0x40]), Then(Else, End))))))

  const RUNG_3_CODE: bytes := [0x76, 0x53, 0x87, 0x63] + [0x01, 0x20] + [0x67]
  const RUNG_3 := Then(Dup, Then(SmallInt(3), Then(Equal, Then(If, Then(Push([0x20]), Then(Else, End))))))

  const RUNG_4_CODE: bytes := [0x76, 0x54, 0x87, 0x63, 0x60, 0x67]
  const RUNG_4 := Then(Dup, Then(SmallInt(4), Then(Equal, Then(If, Then(SmallInt(16), Then(Else, End))))))

  const RUNG_5_CODE: bytes := [0x76, 0x55, 0x87, 0x63, 0x58, 0x67]
  const RUNG_5 := Then(Dup, Then(SmallInt(5), Then(Equal, Then(If, Then(SmallInt(8), Then(Else, End))))))

  const RUNG_6_CODE: bytes := [0x76, 0x56, 0x87, 0x63, 0x54, 0x67]
  const RUNG_6 := Then(Dup, Then(SmallInt(6), Then(Equal, Then(If, Then(SmallInt(4), Then(Else, End))))))

  /** ... and 7; then the seven conditionals close. */
  const LAST_RUNG_CODE: bytes := [0x52, 0x68, 0x68, 0x68] + [0x68, 0x68, 0x68, 0x68]
  const LAST_RUNG := Then(SmallInt(2), Then(EndIf, Then(EndIf, Then(EndIf, Then(EndIf, Then(EndIf, Then(EndIf,
    Then(EndIf, End))))))))

  /** hA must be below that power. */
  const COMPARE_CODE: bytes := [0x77, 0x9f, 0x69]
  const COMPARE := Then(Nip, Then(LessThan, Then(Verify, End)))

  /** hB, hA and the zero bytes make the hash. */
  const REBUILD_HASH_CODE: bytes := [0x6c, 0x6c, 0x7e, 0x7e, 0x6b]
  const REBUILD_HASH := Then(FromAltStack, Then(FromAltStack, Then(Cat, Then(Cat, Then(ToAltStack, End)))))

  /** A 32-byte key and a 64-byte signature. */
  const CHECK_SIZES_CODE: bytes := [0x70, 0x82] + [0x01, 0x20] + [0x88, 0x75, 0x82] + [0x01, 0x40] + [0x88]
  const CHECK_SIZES := Then(TwoOver, Then(Size, Then(Push([0x20]), Then(EqualVerify, Then(Drop, Then(Size,
    Then(Push([0x40]), Then(EqualVerify, End))))))))

  /** The suffix behind its size, behind the signature; before them the prefix behind its size. */
  const ADD_SUFFIX_CODE: bytes := [0x7c, 0x82, 0x7c, 0x7e, 0x7e]
  const ADD_SUFFIX := Then(Swap, Then(Size, Then(Swap, Then(Cat, Then(Cat, End)))))

  const ADD_PREFIX_CODE: bytes := [0x7c, 0x82, 0x7c, 0x7e, 0x7c, 0x7e]
  const ADD_PREFIX := Then(Swap, Then(Size, Then(Swap, Then(Cat, Then(Swap, Then(Cat, End))))))

  /** The header must have that hash, and the signature must be good. */
  const FINISH_CODE: bytes := [0xaa, 0x6c, 0x88, 0xac]
  const FINISH := Then(Hash256, Then(FromAltStack, Then(EqualVerify, Then(CheckSig, End))))

  lemma ParsePush(code: bytes, data: bytes)
    requires 1 <= |data| <= 75 && code == [|data| as byte] + data
    ensures Parse(code) == Some(Then(Push(data), End))
  {
    assert code[1..1 + |data|] == data && code[1 + |data|..] == [];
  }

  lemma CheckLowParses()
    ensures Parse(CHECK_LOW_CODE) == Some(CHECK_LOW)
  {
  }

  lemma CheckHighParses()
    ensures Parse(CHECK_HIGH_CODE) == Some(CHECK_HIGH)
  {
    ParsePush([0x01, 0x40], [0x40]);
    assert Parse([0x9f, 0x69]) == Some(Then(LessThan, Then(Verify, End)));
    ParseAppend([0x76], [0x01, 0x40]);
    ParseAppend([0x76] + [0x01, 0x40], [0x9f, 0x69]);
  }

  lemma TimesTenParses()
    ensures Parse(TIMES_TEN_CODE) == Some(TIMES_TEN)
  {
    assert Parse([0x76, 0x76, 0x93, 0x76, 0x76]) == Some(Then(Dup, Then(Dup, Then(Add, Then(Dup, Then(Dup,
      End))))));
    assert Parse([0x93, 0x76, 0x93, 0x93]) == Some(Then(Add, Then(Dup, Then(Add, Then(Add, End)))));
    ParseAppend([0x76, 0x76, 0x93, 0x76, 0x76], [0x93, 0x76, 0x93, 0x93]);
  }

  lemma From640Parses()
    ensures Parse(FROM_640_CODE) == Some(FROM_640)
  {
    ParsePush([0x02, 0x80, 0x02], [0x80, 0x02]);
    assert Parse([0x7c, 0x94]) == Some(Then(Swap, Then(Sub, End)));
    ParseAppend([0x02, 0x80, 0x02], [0x7c, 0x94]);
  }

  lemma TimesFourParses()
    ensures Parse(TIMES_FOUR_CODE) == Some(TIMES_FOUR)
  {
  }

  lemma From256Parses()
    ensures Parse(FROM_256_CODE) == Some(FROM_256)
  {
    ParsePush([0x02, 0x00, 0x01], [0x00, 0x01]);
    assert Parse([0x7c, 0x94]) == Some(Then(Swap, Then(Sub, End)));
    ParseAppend([0x02, 0x00, 0x01], [0x7c, 0x94]);
  }

  lemma From64Parses()
    ensures Parse(FROM_64_CODE) == Some(FROM_64)
  {
    ParsePush([0x01, 0x40], [0x40]);
    assert Parse([0x7c, 0x94]) == Some(Then(Swap, Then(Sub, End)));
    ParseAppend([0x76], [0x01, 0x40]);
    ParseAppend([0x76] + [0x01, 0x40], [0x7c, 0x94]);
  }

  lemma CheckDelayParses()
    ensures Parse(CHECK_DELAY_CODE) == Some(CHECK_DELAY)
  {
    assert Parse([0xb2, 0x75]) == Some(Then(CheckSequenceVerify, Then(Drop, End)));
    ParsePush([0x02, 0x00, 0x00], [0x00, 0x00]);
    ParseAppend([0xb2, 0x75], [0x02, 0x00, 0x00]);
    ParseAppend([0xb2, 0x75] + [0x02, 0x00, 0x00], [0x6b]);
  }

  lemma Test32Parses()
    ensures Parse(TEST_32_CODE) == Some(TEST_32)
  {
    ParsePush([0x01, 0x20], [0x20]);
    assert Parse([0xa2, 0x63]) == Some(Then(GreaterThanOrEqual, Then(If, End)));
    ParseAppend([0x76], [0x01, 0x20]);
    ParseAppend([0x76] + [0x01, 0x20], [0xa2, 0x63]);
  }

  lemma AddFourParses()
    ensures Parse(ADD_FOUR_CODE) == Some(ADD_FOUR)
  {
    ParsePush([0x04, 0x00, 0x00, 0x00, 0x00], [0x00, 0x00, 0x00, 0x00]);
    assert Parse([0x7e, 0x6b]) == Some(Then(Cat, Then(ToAltStack, End)));
    ParsePush([0x01, 0x20], [0x20]);
    assert Parse([0x94, 0x68]) == Some(Then(Sub, Then(EndIf, End)));
    ParseAppend([0x6c], [0x04, 0x00, 0x00, 0x00, 0x00]);
    ParseAppend([0x6c] + [0x04, 0x00, 0x00, 0x00, 0x00], [0x7e, 0x6b]);
    ParseAppend([0x6c] + [0x04, 0x00, 0x00, 0x00, 0x00] + [0x7e, 0x6b], [0x01, 0x20]);
    ParseAppend([0x6c] + [0x04, 0x00, 0x00, 0x00, 0x00] + [0x7e, 0x6b] + [0x01, 0x20], [0x94, 0x68]);
  }

  lemma Test16Parses()
    ensures Parse(TEST_16_CODE) == Some(TEST_16)
  {
  }

  lemma AddTwoParses()
    ensures Parse(ADD_TWO_CODE) == Some(ADD_TWO)
  {
    ParsePush([0x02, 0x00, 0x00], [0x00, 0x00]);
    assert Parse([0x7e, 0x6b, 0x60, 0x94, 0x68]) == Some(Then(Cat, Then(ToAltStack, Then(SmallInt(16), Then(Sub,
      Then(EndIf, End))))));
    ParseAppend([0x6c], [0x02, 0x00, 0x00]);
    ParseAppend([0x6c] + [0x02, 0x00, 0x00], [0x7e, 0x6b, 0x60, 0x94, 0x68]);
  }

  lemma Test8Parses()
    ensures Parse(TEST_8_CODE) == Some(TEST_8)
  {
  }

  lemma AddOneParses()
    ensures Parse(ADD_ONE_CODE) == Some(ADD_ONE)
  {
    ParsePush([0x01, 0x00], [0x00]);
    assert Parse([0x7e, 0x6b, 0x58, 0x94, 0x68]) == Some(Then(Cat, Then(ToAltStack, Then(SmallInt(8), Then(Sub,
      Then(EndIf, End))))));
    ParseAppend([0x6c], [0x01, 0x00]);
    ParseAppend([0x6c] + [0x01, 0x00], [0x7e, 0x6b, 0x58, 0x94, 0x68]);
  }

  lemma KeepByteParses()
    ensures Parse(KEEP_BYTE_CODE) == Some(KEEP_BYTE)
  {
  }

  lemma AsNumberParses()
    ensures Parse(AS_NUMBER_CODE) == Some(AS_NUMBER)
  {
    assert Parse([0x51, 0x7e]) == Some(Then(SmallInt(1), Then(Cat, End)));
    ParsePush([0x02, 0x00, 0x01], [0x00, 0x01]);
    assert Parse([0x94, 0x7c]) == Some(Then(Sub, Then(Swap, End)));
    ParseAppend([0x51, 0x7e], [0x02, 0x00, 0x01]);
    ParseAppend([0x51, 0x7e] + [0x02, 0x00, 0x01], [0x94, 0x7c]);
  }

  lemma Rung0Parses()
    ensures Parse(RUNG_0_CODE) == Some(RUNG_0)
  {
    assert Parse([0x76, 0x00, 0x87, 0x63]) == Some(Then(Dup, Then(Push([]), Then(Equal, Then(If, End)))));
    ParsePush([0x02, 0x00, 0x01], [0x00, 0x01]);
    ParseAppend([0x76, 0x00, 0x87, 0x63], [0x02, 0x00, 0x01]);
    ParseAppend([0x76, 0x00, 0x87, 0x63] + [0x02, 0x00, 0x01], [0x67]);
  }

  lemma Rung1Parses()
    ensures Parse(RUNG_1_CODE) == Some(RUNG_1)
  {
    assert Parse([0x76, 0x51, 0x87, 0x63]) == Some(Then(Dup, Then(SmallInt(1), Then(Equal, Then(If, End)))));
    ParsePush([0x02, 0x80, 0x00], [0x80, 0x00]);
    ParseAppend([0x76, 0x51, 0x87, 0x63], [0x02, 0x80, 0x00]);
    ParseAppend([0x76, 0x51, 0x87, 0x63] + [0x02, 0x80, 0x00], [0x67]);
  }

  lemma Rung2Parses()
    ensures Parse(RUNG_2_CODE) == Some(RUNG_2)
  {
    assert Parse([0x76, 0x52, 0x87, 0x63]) == Some(Then(Dup, Then(SmallInt(2), Then(Equal, Then(If, End)))));
    ParsePush([0x01, 0x40], [0x40]);
    ParseAppend([0x76, 0x52, 0x87, 0x63], [0x01, 0x40]);
    ParseAppend([0x76, 0x52, 0x87, 0x63] + [0x01, 0x40], [0x67]);
  }

  lemma Rung3Parses()
    ensures Parse(RUNG_3_CODE) == Some(RUNG_3)
  {
    assert Parse([0x76, 0x53, 0x87, 0x63]) == Some(Then(Dup, Then(SmallInt(3), Then(Equal, Then(If, End)))));
    ParsePush([0x01, 0x20], [0x20]);
    ParseAppend([0x76, 0x53, 0x87, 0x63], [0x01, 0x20]);
    ParseAppend([0x76, 0x53, 0x87, 0x63] + [0x01, 0x20], [0x67]);
  }

  lemma Rung4Parses()
    ensures Parse(RUNG_4_CODE) == Some(RUNG_4)
  {
  }

  lemma Rung5Parses()
    ensures Parse(RUNG_5_CODE) == Some(RUNG_5)
  {
  }

  lemma Rung6Parses()
    ensures Parse(RUNG_6_CODE) == Some(RUNG_6)
  {
  }

  lemma LastRungParses()
    ensures Parse(LAST_RUNG_CODE) == Some(LAST_RUNG)
  {
    assert Parse([0x52, 0x68, 0x68, 0x68]) == Some(Then(SmallInt(2), Then(EndIf, Then(EndIf, Then(EndIf, End)))));
    assert Parse([0x68, 0x68, 0x68, 0x68]) == Some(Then(EndIf, Then(EndIf, Then(EndIf, Then(EndIf, End)))));
    ParseAppend([0x52, 0x68, 0x68, 0x68], [0x68, 0x68, 0x68, 0x68]);
  }

  lemma CompareParses()
    ensures Parse(COMPARE_CODE) == Some(COMPARE)
  {
  }

  lemma RebuildHashParses()
    ensures Parse(REBUILD_HASH_CODE) == Some(REBUILD_HASH)
  {
  }

  lemma CheckSizesParses()
    ensures Parse(CHECK_SIZES_CODE) == Some(CHECK_SIZES)
  {
    assert Parse([0x70, 0x82]) == Some(Then(TwoOver, Then(Size, End)));
    ParsePush([0x01, 0x20], [0x20]);
    assert Parse([0x88, 0x75, 0x82]) == Some(Then(EqualVerify, Then(Drop, Then(Size, End))));
    ParsePush([0x01, 0x40], [0x40]);
    ParseAppend([0x70, 0x82], [0x01, 0x20]);
    ParseAppend([0x70, 0x82] + [0x01, 0x20], [0x88, 0x75, 0x82]);
    ParseAppend([0x70, 0x82] + [0x01, 0x20] + [0x88, 0x75, 0x82], [0x01, 0x40]);
    ParseAppend([0x70, 0x82] + [0x01, 0x20] + [0x88, 0x75, 0x82] + [0x01, 0x40], [0x88]);
  }

  lemma AddSuffixParses()
    ensures Parse(ADD_SUFFIX_CODE) == Some(ADD_SUFFIX)
  {
  }

  lemma AddPrefixParses()
    ensures Parse(ADD_PREFIX_CODE) == Some(ADD_PREFIX)
  {
  }

  lemma FinishParses()
    ensures Parse(FINISH_CODE) == Some(FINISH)
  {
  }

  // The pieces in order. Only the delay differs between the three programs.

  const HEAD_CODE: bytes := CHECK_LOW_CODE + CHECK_HIGH_CODE
  const HEAD := Append(CHECK_LOW, CHECK_HIGH)

  const TEN_CODE: bytes := TIMES_TEN_CODE + FROM_640_CODE
  const TEN := Append(TIMES_TEN, FROM_640)
  const FOUR_CODE: bytes := TIMES_FOUR_CODE + FROM_256_CODE
  const FOUR := Append(TIMES_FOUR, FROM_256)

  const ZEROS_CODE: bytes :=
    TEST_32_CODE + (ADD_FOUR_CODE + (TEST_16_CODE + (ADD_TWO_CODE + (TEST_8_CODE + ADD_ONE_CODE))))
  const ZEROS := Append(TEST_32, Append(ADD_FOUR, Append(TEST_16, Append(ADD_TWO, Append(TEST_8, ADD_ONE)))))

  const POWER_CODE: bytes :=
    RUNG_0_CODE + (RUNG_1_CODE + (RUNG_2_CODE + (RUNG_3_CODE +
    (RUNG_4_CODE + (RUNG_5_CODE + (RUNG_6_CODE + LAST_RUNG_CODE))))))
  const POWER :=
    Append(RUNG_0, Append(RUNG_1, Append(RUNG_2, Append(RUNG_3,
    Append(RUNG_4, Append(RUNG_5, Append(RUNG_6, LAST_RUNG)))))))

  const BYTE_CODE: bytes := KEEP_BYTE_CODE + (AS_NUMBER_CODE + (POWER_CODE + COMPARE_CODE))
  const BYTE := Append(KEEP_BYTE, Append(AS_NUMBER, Append(POWER, COMPARE)))

  const PROOF_CODE: bytes :=
    REBUILD_HASH_CODE + (CHECK_SIZES_CODE + (ADD_SUFFIX_CODE + (ADD_PREFIX_CODE + FINISH_CODE)))
  const PROOF := Append(REBUILD_HASH, Append(CHECK_SIZES, Append(ADD_SUFFIX, Append(ADD_PREFIX, FINISH))))

  function Code(delay: bytes): bytes {
    HEAD_CODE + (delay + (CHECK_DELAY_CODE + (ZEROS_CODE + (BYTE_CODE + PROOF_CODE))))
  }

  function Whole(delay: Program): Program {
    Append(HEAD, Append(delay, Append(CHECK_DELAY, Append(ZEROS, Append(BYTE, PROOF)))))
  }

  lemma ZerosParses()
    ensures Parse(ZEROS_CODE) == Some(ZEROS)
  {
    hide Parse, Append;
    Test32Parses(); AddFourParses(); Test16Parses(); AddTwoParses(); Test8Parses(); AddOneParses();
    ParseAppend(TEST_8_CODE, ADD_ONE_CODE);
    ParseAppend(ADD_TWO_CODE, TEST_8_CODE + ADD_ONE_CODE);
    ParseAppend(TEST_16_CODE, ADD_TWO_CODE + (TEST_8_CODE + ADD_ONE_CODE));
    ParseAppend(ADD_FOUR_CODE, TEST_16_CODE + (ADD_TWO_CODE + (TEST_8_CODE + ADD_ONE_CODE)));
    ParseAppend(TEST_32_CODE, ADD_FOUR_CODE + (TEST_16_CODE + (ADD_TWO_CODE + (TEST_8_CODE + ADD_ONE_CODE))));
  }

  lemma PowerParses()
    ensures Parse(POWER_CODE) == Some(POWER)
  {
    hide Parse, Append;
    Rung0Parses(); Rung1Parses(); Rung2Parses(); Rung3Parses();
    Rung4Parses(); Rung5Parses(); Rung6Parses(); LastRungParses();
    var c6 := RUNG_6_CODE + LAST_RUNG_CODE;
    ParseAppend(RUNG_6_CODE, LAST_RUNG_CODE);
    ParseAppend(RUNG_5_CODE, c6);
    var c4 := RUNG_4_CODE + (RUNG_5_CODE + c6);
    ParseAppend(RUNG_4_CODE, RUNG_5_CODE + c6);
    ParseAppend(RUNG_3_CODE, c4);
    var c2 := RUNG_2_CODE + (RUNG_3_CODE + c4);
    ParseAppend(RUNG_2_CODE, RUNG_3_CODE + c4);
    ParseAppend(RUNG_1_CODE, c2);
    ParseAppend(RUNG_0_CODE, RUNG_1_CODE + c2);
  }

  lemma ByteParses()
    ensures Parse(BYTE_CODE) == Some(BYTE)
  {
    hide Parse, Append, POWER, POWER_CODE;
    KeepByteParses(); AsNumberParses(); PowerParses(); CompareParses();
    ParseAppend(POWER_CODE, COMPARE_CODE);
    ParseAppend(AS_NUMBER_CODE, POWER_CODE + COMPARE_CODE);
    ParseAppend(KEEP_BYTE_CODE, AS_NUMBER_CODE + (POWER_CODE + COMPARE_CODE));
  }

  lemma ProofParses()
    ensures Parse(PROOF_CODE) == Some(PROOF)
  {
    hide Parse, Append;
    RebuildHashParses(); CheckSizesParses(); AddSuffixParses(); AddPrefixParses(); FinishParses();
    ParseAppend(ADD_PREFIX_CODE, FINISH_CODE);
    ParseAppend(ADD_SUFFIX_CODE, ADD_PREFIX_CODE + FINISH_CODE);
    ParseAppend(CHECK_SIZES_CODE, ADD_SUFFIX_CODE + (ADD_PREFIX_CODE + FINISH_CODE));
    ParseAppend(REBUILD_HASH_CODE, CHECK_SIZES_CODE + (ADD_SUFFIX_CODE + (ADD_PREFIX_CODE + FINISH_CODE)));
  }

  lemma CodeParses(delay: bytes)
    requires Parse(delay).Some?
    ensures Parse(Code(delay)) == Some(Whole(Parse(delay).value))
  {
    hide Parse, Append, ZEROS, ZEROS_CODE, BYTE, BYTE_CODE, PROOF, PROOF_CODE;
    CheckLowParses(); CheckHighParses(); CheckDelayParses(); ZerosParses(); ByteParses(); ProofParses();
    ParseAppend(CHECK_LOW_CODE, CHECK_HIGH_CODE);
    ParseAppend(BYTE_CODE, PROOF_CODE);
    ParseAppend(ZEROS_CODE, BYTE_CODE + PROOF_CODE);
    var rest := CHECK_DELAY_CODE + (ZEROS_CODE + (BYTE_CODE + PROOF_CODE));
    ParseAppend(CHECK_DELAY_CODE, ZEROS_CODE + (BYTE_CODE + PROOF_CODE));
    ParseAppend(delay, rest);
    ParseAppend(HEAD_CODE, delay + rest);
  }

  lemma DelaysParse()
    ensures Parse(TEN_CODE) == Some(TEN) && Parse(FOUR_CODE) == Some(FOUR) && Parse(FROM_64_CODE) == Some(FROM_64)
  {
    hide Parse, Append;
    TimesTenParses(); From640Parses(); TimesFourParses(); From256Parses(); From64Parses();
    ParseAppend(TIMES_TEN_CODE, FROM_640_CODE);
    ParseAppend(TIMES_FOUR_CODE, FROM_256_CODE);
  }

  /** A faucet: its parameters and program, and the address and the output script that are derived from the program. */
  datatype FaucetScript = FaucetScript(delay: int, minDiff: int, maxDiff: int, script: bytes, address: string,
                                       scriptPubKey: string)

  datatype Spec = Spec(delay: int, minDiff: int, maxDiff: int, script: bytes)

  const SPECS: seq<Spec> := [
    Spec(10, 16, 80, Code(TEN_CODE)), Spec(4, 16, 80, Code(FOUR_CODE)), Spec(1, 16, 80, Code(FROM_64_CODE))]

  /** What library code derives from a script: an address, and an output script in hex. */
  datatype Destination = Destination(address: string, scriptPubKey: string)

  function FaucetOf(spec: Spec, d: Destination): FaucetScript {
    FaucetScript(spec.delay, spec.minDiff, spec.maxDiff, spec.script, d.address, d.scriptPubKey)
  }

  /** The faucets that have these parameters, whatever is derived for them. */
  predicate IsFaucet(f: FaucetScript) {
    Spec(f.delay, f.minDiff, f.maxDiff, f.script) in SPECS
  }

  /** The three faucets: their delays, the range of their difficulties, and what is derived from their programs. */
  method BuildFaucetScripts(derive: bytes -> Destination) returns (scripts: seq<FaucetScript>)
    ensures |scripts| == 3 && scripts[0].delay == 10 && scripts[1].delay == 4 && scripts[2].delay == 1
    ensures forall f :: f in scripts ==> IsFaucet(f) && f.minDiff == 16 && f.maxDiff == 80
    ensures forall f :: f in scripts ==>
      f.address == derive(f.script).address && f.scriptPubKey == derive(f.script).scriptPubKey
  {
    hide Code;
    scripts := [];
    for i := 0 to |SPECS|
      invariant |scripts| == i
      invariant forall j :: 0 <= j < i ==> scripts[j] == FaucetOf(SPECS[j], derive(SPECS[j].script))
    {
      scripts := scripts + [FaucetOf(SPECS[i], derive(SPECS[i].script))];
    }
  }
}
