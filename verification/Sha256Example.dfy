/** The message "abc", worked out round by round. */
module Sha256Example {
  import opened Bytes
  import opened Sha256Spec

  function S(a: bv32, b: bv32, c: bv32, d: bv32, e: bv32, f: bv32, g: bv32, h: bv32): State {
    State(Word(a), Word(b), Word(c), Word(d), Word(e), Word(f), Word(g), Word(h))
  }

  /** Its one block. */
  function Block(): seq<Word> {
    [Word(0x61626380), ZERO, ZERO, ZERO, ZERO, ZERO, ZERO, ZERO,
     ZERO, ZERO, ZERO, ZERO, ZERO, ZERO, ZERO, Word(0x18)]
  }

  /** The message schedule. */
  function W(t: nat): Word
    requires t < 64
  {
    Word(if t < 8 then
           [0x61626380, 0x00000000, 0x00000000, 0x00000000,
            0x00000000, 0x00000000, 0x00000000, 0x00000000][t]
         else if t < 16 then
           [0x00000000, 0x00000000, 0x00000000, 0x00000000,
            0x00000000, 0x00000000, 0x00000000, 0x00000018][t - 8]
         else if t < 24 then
           [0x61626380, 0x000f0000, 0x7da86405, 0x600003c6,
            0x3e9d7b78, 0x0183fc00, 0x12dcbfdb, 0xe2e2c38e][t - 16]
         else if t < 32 then
           [0xc8215c1a, 0xb73679a2, 0xe5bc3909, 0x32663c5b,
            0x9d209d67, 0xec8726cb, 0x702138a4, 0xd3b7973b][t - 24]
         else if t < 40 then
           [0x93f5997f, 0x3b68ba73, 0xaff4ffc1, 0xf10a5c62,
            0x0a8b3996, 0x72af830a, 0x9409e33e, 0x24641522][t - 32]
         else if t < 48 then
           [0x9f47bf94, 0xf0a64f5a, 0x3e246a79, 0x27333ba3,
            0x0c4763f2, 0x840abf27, 0x7a290d5d, 0x065c43da][t - 40]
         else if t < 56 then
           [0xfb3e89cb, 0xcc7617db, 0xb9e66c34, 0xa9993667,
            0x84badedd, 0xc21462bc, 0x1487472c, 0xb20f7a99][t - 48]
         else
           [0xef57b9cd, 0xebe6b238, 0x9fe3095e, 0x78bc8d4b,
            0xa43fcf15, 0x668b2ff8, 0xeeaba2cc, 0x12b1edeb][t - 56])
  }

  ghost predicate WordIs(t: nat)
    requires t < 64
  {
    Schedule(Block(), t) == W(t)
  }

  lemma NextIs(t: nat)
    requires 16 <= t < 64 && WordIs(t - 2) && WordIs(t - 7) && WordIs(t - 15) && WordIs(t - 16)
    requires NextWord(W(t - 2), W(t - 7), W(t - 15), W(t - 16)) == W(t)
    ensures WordIs(t)
  {
    hide NextWord, W;
  }

  lemma Word16() ensures NextWord(W(14), W(9), W(1), W(0)) == W(16) {}
  lemma Word17() ensures NextWord(W(15), W(10), W(2), W(1)) == W(17) {}
  lemma Word18() ensures NextWord(W(16), W(11), W(3), W(2)) == W(18) {}
  lemma Word19() ensures NextWord(W(17), W(12), W(4), W(3)) == W(19) {}
  lemma Word20() ensures NextWord(W(18), W(13), W(5), W(4)) == W(20) {}
  lemma Word21() ensures NextWord(W(19), W(14), W(6), W(5)) == W(21) {}
  lemma Word22() ensures NextWord(W(20), W(15), W(7), W(6)) == W(22) {}
  lemma Word23() ensures NextWord(W(21), W(16), W(8), W(7)) == W(23) {}
  lemma Word24() ensures NextWord(W(22), W(17), W(9), W(8)) == W(24) {}
  lemma Word25() ensures NextWord(W(23), W(18), W(10), W(9)) == W(25) {}
  lemma Word26() ensures NextWord(W(24), W(19), W(11), W(10)) == W(26) {}
  lemma Word27() ensures NextWord(W(25), W(20), W(12), W(11)) == W(27) {}
  lemma Word28() ensures NextWord(W(26), W(21), W(13), W(12)) == W(28) {}
  lemma Word29() ensures NextWord(W(27), W(22), W(14), W(13)) == W(29) {}
  lemma Word30() ensures NextWord(W(28), W(23), W(15), W(14)) == W(30) {}
  lemma Word31() ensures NextWord(W(29), W(24), W(16), W(15)) == W(31) {}
  lemma Word32() ensures NextWord(W(30), W(25), W(17), W(16)) == W(32) {}
  lemma Word33() ensures NextWord(W(31), W(26), W(18), W(17)) == W(33) {}
  lemma Word34() ensures NextWord(W(32), W(27), W(19), W(18)) == W(34) {}
  lemma Word35() ensures NextWord(W(33), W(28), W(20), W(19)) == W(35) {}
  lemma Word36() ensures NextWord(W(34), W(29), W(21), W(20)) == W(36) {}
  lemma Word37() ensures NextWord(W(35), W(30), W(22), W(21)) == W(37) {}
  lemma Word38() ensures NextWord(W(36), W(31), W(23), W(22)) == W(38) {}
  lemma Word39() ensures NextWord(W(37), W(32), W(24), W(23)) == W(39) {}
  lemma Word40() ensures NextWord(W(38), W(33), W(25), W(24)) == W(40) {}
  lemma Word41() ensures NextWord(W(39), W(34), W(26), W(25)) == W(41) {}
  lemma Word42() ensures NextWord(W(40), W(35), W(27), W(26)) == W(42) {}
  lemma Word43() ensures NextWord(W(41), W(36), W(28), W(27)) == W(43) {}
  lemma Word44() ensures NextWord(W(42), W(37), W(29), W(28)) == W(44) {}
  lemma Word45() ensures NextWord(W(43), W(38), W(30), W(29)) == W(45) {}
  lemma Word46() ensures NextWord(W(44), W(39), W(31), W(30)) == W(46) {}
  lemma Word47() ensures NextWord(W(45), W(40), W(32), W(31)) == W(47) {}
  lemma Word48() ensures NextWord(W(46), W(41), W(33), W(32)) == W(48) {}
  lemma Word49() ensures NextWord(W(47), W(42), W(34), W(33)) == W(49) {}
  lemma Word50() ensures NextWord(W(48), W(43), W(35), W(34)) == W(50) {}
  lemma Word51() ensures NextWord(W(49), W(44), W(36), W(35)) == W(51) {}
  lemma Word52() ensures NextWord(W(50), W(45), W(37), W(36)) == W(52) {}
  lemma Word53() ensures NextWord(W(51), W(46), W(38), W(37)) == W(53) {}
  lemma Word54() ensures NextWord(W(52), W(47), W(39), W(38)) == W(54) {}
  lemma Word55() ensures NextWord(W(53), W(48), W(40), W(39)) == W(55) {}
  lemma Word56() ensures NextWord(W(54), W(49), W(41), W(40)) == W(56) {}
  lemma Word57() ensures NextWord(W(55), W(50), W(42), W(41)) == W(57) {}
  lemma Word58() ensures NextWord(W(56), W(51), W(43), W(42)) == W(58) {}
  lemma Word59() ensures NextWord(W(57), W(52), W(44), W(43)) == W(59) {}
  lemma Word60() ensures NextWord(W(58), W(53), W(45), W(44)) == W(60) {}
  lemma Word61() ensures NextWord(W(59), W(54), W(46), W(45)) == W(61) {}
  lemma Word62() ensures NextWord(W(60), W(55), W(47), W(46)) == W(62) {}
  lemma Word63() ensures NextWord(W(61), W(56), W(48), W(47)) == W(63) {}

  lemma Words0To15()
    ensures forall t :: 0 <= t < 16 ==> WordIs(t)
  {
  }

  lemma Words16To19()
    ensures forall t :: 0 <= t < 20 ==> WordIs(t)
  {
    hide WordIs, NextWord;
    Words0To15();
    Word16();
    NextIs(16);
    Word17();
    NextIs(17);
    Word18();
    NextIs(18);
    Word19();
    NextIs(19);
  }

  lemma Words20To23()
    ensures forall t :: 0 <= t < 24 ==> WordIs(t)
  {
    hide WordIs, NextWord;
    Words16To19();
    Word20();
    NextIs(20);
    Word21();
    NextIs(21);
    Word22();
    NextIs(22);
    Word23();
    NextIs(23);
  }

  lemma Words24To27()
    ensures forall t :: 0 <= t < 28 ==> WordIs(t)
  {
    hide WordIs, NextWord;
    Words20To23();
    Word24();
    NextIs(24);
    Word25();
    NextIs(25);
    Word26();
    NextIs(26);
    Word27();
    NextIs(27);
  }

  lemma Words28To31()
    ensures forall t :: 0 <= t < 32 ==> WordIs(t)
  {
    hide WordIs, NextWord;
    Words24To27();
    Word28();
    NextIs(28);
    Word29();
    NextIs(29);
    Word30();
    NextIs(30);
    Word31();
    NextIs(31);
  }

  lemma Words32To35()
    ensures forall t :: 0 <= t < 36 ==> WordIs(t)
  {
    hide WordIs, NextWord;
    Words28To31();
    Word32();
    NextIs(32);
    Word33();
    NextIs(33);
    Word34();
    NextIs(34);
    Word35();
    NextIs(35);
  }

  lemma Words36To39()
    ensures forall t :: 0 <= t < 40 ==> WordIs(t)
  {
    hide WordIs, NextWord;
    Words32To35();
    Word36();
    NextIs(36);
    Word37();
    NextIs(37);
    Word38();
    NextIs(38);
    Word39();
    NextIs(39);
  }

  lemma Words40To43()
    ensures forall t :: 0 <= t < 44 ==> WordIs(t)
  {
    hide WordIs, NextWord;
    Words36To39();
    Word40();
    NextIs(40);
    Word41();
    NextIs(41);
    Word42();
    NextIs(42);
    Word43();
    NextIs(43);
  }

  lemma Words44To47()
    ensures forall t :: 0 <= t < 48 ==> WordIs(t)
  {
    hide WordIs, NextWord;
    Words40To43();
    Word44();
    NextIs(44);
    Word45();
    NextIs(45);
    Word46();
    NextIs(46);
    Word47();
    NextIs(47);
  }

  lemma Words48To51()
    ensures forall t :: 0 <= t < 52 ==> WordIs(t)
  {
    hide WordIs, NextWord;
    Words44To47();
    Word48();
    NextIs(48);
    Word49();
    NextIs(49);
    Word50();
    NextIs(50);
    Word51();
    NextIs(51);
  }

  lemma Words52To55()
    ensures forall t :: 0 <= t < 56 ==> WordIs(t)
  {
    hide WordIs, NextWord;
    Words48To51();
    Word52();
    NextIs(52);
    Word53();
    NextIs(53);
    Word54();
    NextIs(54);
    Word55();
    NextIs(55);
  }

  lemma Words56To59()
    ensures forall t :: 0 <= t < 60 ==> WordIs(t)
  {
    hide WordIs, NextWord;
    Words52To55();
    Word56();
    NextIs(56);
    Word57();
    NextIs(57);
    Word58();
    NextIs(58);
    Word59();
    NextIs(59);
  }

  lemma Words60To63()
    ensures forall t :: 0 <= t < 64 ==> WordIs(t)
  {
    hide WordIs, NextWord;
    Words56To59();
    Word60();
    NextIs(60);
    Word61();
    NextIs(61);
    Word62();
    NextIs(62);
    Word63();
    NextIs(63);
  }

  // -------------------------------------------------------------- the rounds

  ghost predicate After(t: nat, s: State)
    requires t <= 64
  {
    Rounds(IV(), Block(), t) == s
  }

  lemma Then(t: nat, s: State, s': State)
    requires t < 64 && After(t, s) && WordIs(t) && Round(s, K(t), W(t)) == s'
    ensures After(t + 1, s')
  {
    hide Round, K, W, Schedule;
  }

  lemma Rounds0(s: State)
    requires s == IV()
    ensures After(0, s)
  {
  }

  lemma Rounds2(s: State)
    requires s == S(0x5a6ad9ad, 0x5d6aebcd, 0x6a09e667, 0xbb67ae85, 0x78ce7989, 0xfa2a4622, 0x510e527f, 0x9b05688c)
    ensures After(2, s)
  {
    hide After, WordIs;
    Words60To63();
    var s0 := S(0x6a09e667, 0xbb67ae85, 0x3c6ef372, 0xa54ff53a, 0x510e527f, 0x9b05688c, 0x1f83d9ab, 0x5be0cd19);
    var s1 := S(0x5d6aebcd, 0x6a09e667, 0xbb67ae85, 0x3c6ef372, 0xfa2a4622, 0x510e527f, 0x9b05688c, 0x1f83d9ab);
    Rounds0(s0);
    Then(0, s0, s1);
    Then(1, s1, s);
  }

  lemma Rounds4(s: State)
    requires s == S(0xd550f666, 0xc8c347a7, 0x5a6ad9ad, 0x5d6aebcd, 0x24e00850, 0xf92939eb, 0x78ce7989, 0xfa2a4622)
    ensures After(4, s)
  {
    hide After, WordIs;
    Words60To63();
    var s0 := S(0x5a6ad9ad, 0x5d6aebcd, 0x6a09e667, 0xbb67ae85, 0x78ce7989, 0xfa2a4622, 0x510e527f, 0x9b05688c);
    var s1 := S(0xc8c347a7, 0x5a6ad9ad, 0x5d6aebcd, 0x6a09e667, 0xf92939eb, 0x78ce7989, 0xfa2a4622, 0x510e527f);
    Rounds2(s0);
    Then(2, s0, s1);
    Then(3, s1, s);
  }

  lemma Rounds6(s: State)
    requires s == S(0x2b4209f5, 0x04409a6a, 0xd550f666, 0xc8c347a7, 0x714260ad, 0x43ada245, 0x24e00850, 0xf92939eb)
    ensures After(6, s)
  {
    hide After, WordIs;
    Words60To63();
    var s0 := S(0xd550f666, 0xc8c347a7, 0x5a6ad9ad, 0x5d6aebcd, 0x24e00850, 0xf92939eb, 0x78ce7989, 0xfa2a4622);
    var s1 := S(0x04409a6a, 0xd550f666, 0xc8c347a7, 0x5a6ad9ad, 0x43ada245, 0x24e00850, 0xf92939eb, 0x78ce7989);
    Rounds4(s0);
    Then(4, s0, s1);
    Then(5, s1, s);
  }

  lemma Rounds8(s: State)
    requires s == S(0x85a07b5f, 0xe5030380, 0x2b4209f5, 0x04409a6a, 0x0c657a79, 0x9b27a401, 0x714260ad, 0x43ada245)
    ensures After(8, s)
  {
    hide After, WordIs;
    Words60To63();
    var s0 := S(0x2b4209f5, 0x04409a6a, 0xd550f666, 0xc8c347a7, 0x714260ad, 0x43ada245, 0x24e00850, 0xf92939eb);
    var s1 := S(0xe5030380, 0x2b4209f5, 0x04409a6a, 0xd550f666, 0x9b27a401, 0x714260ad, 0x43ada245, 0x24e00850);
    Rounds6(s0);
    Then(6, s0, s1);
    Then(7, s1, s);
  }

  lemma Rounds10(s: State)
    requires s == S(0x8c87346b, 0x8e04ecb9, 0x85a07b5f, 0xe5030380, 0x1cc92596, 0x32ca2d8c, 0x0c657a79, 0x9b27a401)
    ensures After(10, s)
  {
    hide After, WordIs;
    Words60To63();
    var s0 := S(0x85a07b5f, 0xe5030380, 0x2b4209f5, 0x04409a6a, 0x0c657a79, 0x9b27a401, 0x714260ad, 0x43ada245);
    var s1 := S(0x8e04ecb9, 0x85a07b5f, 0xe5030380, 0x2b4209f5, 0x32ca2d8c, 0x0c657a79, 0x9b27a401, 0x714260ad);
    Rounds8(s0);
    Then(8, s0, s1);
    Then(9, s1, s);
  }

  lemma Rounds12(s: State)
    requires s == S(0xf71fc5a9, 0x4798a3f4, 0x8c87346b, 0x8e04ecb9, 0x816fd6e9, 0x436b23e8, 0x1cc92596, 0x32ca2d8c)
    ensures After(12, s)
  {
    hide After, WordIs;
    Words60To63();
    var s0 := S(0x8c87346b, 0x8e04ecb9, 0x85a07b5f, 0xe5030380, 0x1cc92596, 0x32ca2d8c, 0x0c657a79, 0x9b27a401);
    var s1 := S(0x4798a3f4, 0x8c87346b, 0x8e04ecb9, 0x85a07b5f, 0x436b23e8, 0x1cc92596, 0x32ca2d8c, 0x0c657a79);
    Rounds10(s0);
    Then(10, s0, s1);
    Then(11, s1, s);
  }

  lemma Rounds16(s: State)
    requires s == S(0xb0fa238e, 0xc0645fde, 0xd932eb16, 0x87912990, 0x07590dcd, 0x0b92f20c, 0x745a48de, 0x1e578218)
    ensures After(16, s)
  {
    hide After, WordIs;
    Words60To63();
    var s0 := S(0xf71fc5a9, 0x4798a3f4, 0x8c87346b, 0x8e04ecb9, 0x816fd6e9, 0x436b23e8, 0x1cc92596, 0x32ca2d8c);
    var s1 := S(0x87912990, 0xf71fc5a9, 0x4798a3f4, 0x8c87346b, 0x1e578218, 0x816fd6e9, 0x436b23e8, 0x1cc92596);
    var s2 := S(0xd932eb16, 0x87912990, 0xf71fc5a9, 0x4798a3f4, 0x745a48de, 0x1e578218, 0x816fd6e9, 0x436b23e8);
    var s3 := S(0xc0645fde, 0xd932eb16, 0x87912990, 0xf71fc5a9, 0x0b92f20c, 0x745a48de, 0x1e578218, 0x816fd6e9);
    Rounds12(s0);
    Then(12, s0, s1);
    Then(13, s1, s2);
    Then(14, s2, s3);
    Then(15, s3, s);
  }

  lemma Rounds20(s: State)
    requires s == S(0xe1f20c33, 0xfe777bbf, 0xc2fbd9d1, 0x21da9a9b, 0xb0638179, 0xcc899961, 0x846ee454, 0x8034229c)
    ensures After(20, s)
  {
    hide After, WordIs;
    Words60To63();
    var s0 := S(0xb0fa238e, 0xc0645fde, 0xd932eb16, 0x87912990, 0x07590dcd, 0x0b92f20c, 0x745a48de, 0x1e578218);
    var s1 := S(0x21da9a9b, 0xb0fa238e, 0xc0645fde, 0xd932eb16, 0x8034229c, 0x07590dcd, 0x0b92f20c, 0x745a48de);
    var s2 := S(0xc2fbd9d1, 0x21da9a9b, 0xb0fa238e, 0xc0645fde, 0x846ee454, 0x8034229c, 0x07590dcd, 0x0b92f20c);
    var s3 := S(0xfe777bbf, 0xc2fbd9d1, 0x21da9a9b, 0xb0fa238e, 0xcc899961, 0x846ee454, 0x8034229c, 0x07590dcd);
    Rounds16(s0);
    Then(16, s0, s1);
    Then(17, s1, s2);
    Then(18, s2, s3);
    Then(19, s3, s);
  }

  lemma Rounds24(s: State)
    requires s == S(0xc5d53d8d, 0xa7a3623f, 0xc2606d6d, 0x9dc68b63, 0xaa47c347, 0x49f5114a, 0xe1257970, 0x8ada8930)
    ensures After(24, s)
  {
    hide After, WordIs;
    Words60To63();
    var s0 := S(0xe1f20c33, 0xfe777bbf, 0xc2fbd9d1, 0x21da9a9b, 0xb0638179, 0xcc899961, 0x846ee454, 0x8034229c);
    var s1 := S(0x9dc68b63, 0xe1f20c33, 0xfe777bbf, 0xc2fbd9d1, 0x8ada8930, 0xb0638179, 0xcc899961, 0x846ee454);
    var s2 := S(0xc2606d6d, 0x9dc68b63, 0xe1f20c33, 0xfe777bbf, 0xe1257970, 0x8ada8930, 0xb0638179, 0xcc899961);
    var s3 := S(0xa7a3623f, 0xc2606d6d, 0x9dc68b63, 0xe1f20c33, 0x49f5114a, 0xe1257970, 0x8ada8930, 0xb0638179);
    Rounds20(s0);
    Then(20, s0, s1);
    Then(21, s1, s2);
    Then(22, s2, s3);
    Then(23, s3, s);
  }

  lemma Rounds28(s: State)
    requires s == S(0x77d37528, 0xb62ec4bc, 0xcde8037d, 0x1c2c2838, 0xedffbff8, 0xc74c6516, 0x14383d8e, 0x2823ef91)
    ensures After(28, s)
  {
    hide After, WordIs;
    Words60To63();
    var s0 := S(0xc5d53d8d, 0xa7a3623f, 0xc2606d6d, 0x9dc68b63, 0xaa47c347, 0x49f5114a, 0xe1257970, 0x8ada8930);
    var s1 := S(0x1c2c2838, 0xc5d53d8d, 0xa7a3623f, 0xc2606d6d, 0x2823ef91, 0xaa47c347, 0x49f5114a, 0xe1257970);
    var s2 := S(0xcde8037d, 0x1c2c2838, 0xc5d53d8d, 0xa7a3623f, 0x14383d8e, 0x2823ef91, 0xaa47c347, 0x49f5114a);
    var s3 := S(0xb62ec4bc, 0xcde8037d, 0x1c2c2838, 0xc5d53d8d, 0xc74c6516, 0x14383d8e, 0x2823ef91, 0xaa47c347);
    Rounds24(s0);
    Then(24, s0, s1);
    Then(25, s1, s2);
    Then(26, s2, s3);
    Then(27, s3, s);
  }

  lemma Rounds32(s: State)
    requires s == S(0x73b33bf5, 0xea992a22, 0xa0060b30, 0x363482c9, 0xba591112, 0x0109ab3a, 0xade79437, 0x6112a3b7)
    ensures After(32, s)
  {
    hide After, WordIs;
    Words60To63();
    var s0 := S(0x77d37528, 0xb62ec4bc, 0xcde8037d, 0x1c2c2838, 0xedffbff8, 0xc74c6516, 0x14383d8e, 0x2823ef91);
    var s1 := S(0x363482c9, 0x77d37528, 0xb62ec4bc, 0xcde8037d, 0x6112a3b7, 0xedffbff8, 0xc74c6516, 0x14383d8e);
    var s2 := S(0xa0060b30, 0x363482c9, 0x77d37528, 0xb62ec4bc, 0xade79437, 0x6112a3b7, 0xedffbff8, 0xc74c6516);
    var s3 := S(0xea992a22, 0xa0060b30, 0x363482c9, 0x77d37528, 0x0109ab3a, 0xade79437, 0x6112a3b7, 0xedffbff8);
    Rounds28(s0);
    Then(28, s0, s1);
    Then(29, s1, s2);
    Then(30, s2, s3);
    Then(31, s3, s);
  }

  lemma Rounds36(s: State)
    requires s == S(0x65a0cfe4, 0xa9a7738c, 0xfe604df5, 0x98e12507, 0xf4b002d6, 0x085f3833, 0x59249dd3, 0x9cd9f5f6)
    ensures After(36, s)
  {
    hide After, WordIs;
    Words60To63();
    var s0 := S(0x73b33bf5, 0xea992a22, 0xa0060b30, 0x363482c9, 0xba591112, 0x0109ab3a, 0xade79437, 0x6112a3b7);
    var s1 := S(0x98e12507, 0x73b33bf5, 0xea992a22, 0xa0060b30, 0x9cd9f5f6, 0xba591112, 0x0109ab3a, 0xade79437);
    var s2 := S(0xfe604df5, 0x98e12507, 0x73b33bf5, 0xea992a22, 0x59249dd3, 0x9cd9f5f6, 0xba591112, 0x0109ab3a);
    var s3 := S(0xa9a7738c, 0xfe604df5, 0x98e12507, 0x73b33bf5, 0x085f3833, 0x59249dd3, 0x9cd9f5f6, 0xba591112);
    Rounds32(s0);
    Then(32, s0, s1);
    Then(33, s1, s2);
    Then(34, s2, s3);
    Then(35, s3, s);
  }

  lemma Rounds40(s: State)
    requires s == S(0x79ea687a, 0x6dc57a8a, 0x34df1604, 0x41a65cb1, 0x1efbc0a0, 0xf0781bc8, 0xa507a53d, 0x0772a26b)
    ensures After(40, s)
  {
    hide After, WordIs;
    Words60To63();
    var s0 := S(0x65a0cfe4, 0xa9a7738c, 0xfe604df5, 0x98e12507, 0xf4b002d6, 0x085f3833, 0x59249dd3, 0x9cd9f5f6);
    var s1 := S(0x41a65cb1, 0x65a0cfe4, 0xa9a7738c, 0xfe604df5, 0x0772a26b, 0xf4b002d6, 0x085f3833, 0x59249dd3);
    var s2 := S(0x34df1604, 0x41a65cb1, 0x65a0cfe4, 0xa9a7738c, 0xa507a53d, 0x0772a26b, 0xf4b002d6, 0x085f3833);
    var s3 := S(0x6dc57a8a, 0x34df1604, 0x41a65cb1, 0x65a0cfe4, 0xf0781bc8, 0xa507a53d, 0x0772a26b, 0xf4b002d6);
    Rounds36(s0);
    Then(36, s0, s1);
    Then(37, s1, s2);
    Then(38, s2, s3);
    Then(39, s3, s);
  }

  lemma Rounds44(s: State)
    requires s == S(0x9d4baf93, 0x17aa0dfe, 0xdf46652f, 0xd6670766, 0xfda24c2e, 0xdecd4715, 0x838b2711, 0x26352d63)
    ensures After(44, s)
  {
    hide After, WordIs;
    Words60To63();
    var s0 := S(0x79ea687a, 0x6dc57a8a, 0x34df1604, 0x41a65cb1, 0x1efbc0a0, 0xf0781bc8, 0xa507a53d, 0x0772a26b);
    var s1 := S(0xd6670766, 0x79ea687a, 0x6dc57a8a, 0x34df1604, 0x26352d63, 0x1efbc0a0, 0xf0781bc8, 0xa507a53d);
    var s2 := S(0xdf46652f, 0xd6670766, 0x79ea687a, 0x6dc57a8a, 0x838b2711, 0x26352d63, 0x1efbc0a0, 0xf0781bc8);
    var s3 := S(0x17aa0dfe, 0xdf46652f, 0xd6670766, 0x79ea687a, 0xdecd4715, 0x838b2711, 0x26352d63, 0x1efbc0a0);
    Rounds40(s0);
    Then(40, s0, s1);
    Then(41, s1, s2);
    Then(42, s2, s3);
    Then(43, s3, s);
  }

  lemma Rounds48(s: State)
    requires s == S(0x4172328d, 0xa14c14b0, 0x72ab4b91, 0x26628815, 0xfecf0bc6, 0xd57b94a9, 0xb7755da1, 0xa80f11f0)
    ensures After(48, s)
  {
    hide After, WordIs;
    Words60To63();
    var s0 := S(0x9d4baf93, 0x17aa0dfe, 0xdf46652f, 0xd6670766, 0xfda24c2e, 0xdecd4715, 0x838b2711, 0x26352d63);
    var s1 := S(0x26628815, 0x9d4baf93, 0x17aa0dfe, 0xdf46652f, 0xa80f11f0, 0xfda24c2e, 0xdecd4715, 0x838b2711);
    var s2 := S(0x72ab4b91, 0x26628815, 0x9d4baf93, 0x17aa0dfe, 0xb7755da1, 0xa80f11f0, 0xfda24c2e, 0xdecd4715);
    var s3 := S(0xa14c14b0, 0x72ab4b91, 0x26628815, 0x9d4baf93, 0xd57b94a9, 0xb7755da1, 0xa80f11f0, 0xfda24c2e);
    Rounds44(s0);
    Then(44, s0, s1);
    Then(45, s1, s2);
    Then(46, s2, s3);
    Then(47, s3, s);
  }

  lemma Rounds52(s: State)
    requires s == S(0x886e7a22, 0x7a0508a1, 0xf11bfaa8, 0x05757ceb, 0x49231c1e, 0x52f1ccf7, 0x6e5c390c, 0xbd714038)
    ensures After(52, s)
  {
    hide After, WordIs;
    Words60To63();
    var s0 := S(0x4172328d, 0xa14c14b0, 0x72ab4b91, 0x26628815, 0xfecf0bc6, 0xd57b94a9, 0xb7755da1, 0xa80f11f0);
    var s1 := S(0x05757ceb, 0x4172328d, 0xa14c14b0, 0x72ab4b91, 0xbd714038, 0xfecf0bc6, 0xd57b94a9, 0xb7755da1);
    var s2 := S(0xf11bfaa8, 0x05757ceb, 0x4172328d, 0xa14c14b0, 0x6e5c390c, 0xbd714038, 0xfecf0bc6, 0xd57b94a9);
    var s3 := S(0x7a0508a1, 0xf11bfaa8, 0x05757ceb, 0x4172328d, 0x52f1ccf7, 0x6e5c390c, 0xbd714038, 0xfecf0bc6);
    Rounds48(s0);
    Then(48, s0, s1);
    Then(49, s1, s2);
    Then(50, s2, s3);
    Then(51, s3, s);
  }

  lemma Rounds56(s: State)
    requires s == S(0x38cc9913, 0x3ec45cdb, 0xf5702fdb, 0x101fd28f, 0x54cb266b, 0xe50e1b4f, 0x9f4787c3, 0x529e7d00)
    ensures After(56, s)
  {
    hide After, WordIs;
    Words60To63();
    var s0 := S(0x886e7a22, 0x7a0508a1, 0xf11bfaa8, 0x05757ceb, 0x49231c1e, 0x52f1ccf7, 0x6e5c390c, 0xbd714038);
    var s1 := S(0x101fd28f, 0x886e7a22, 0x7a0508a1, 0xf11bfaa8, 0x529e7d00, 0x49231c1e, 0x52f1ccf7, 0x6e5c390c);
    var s2 := S(0xf5702fdb, 0x101fd28f, 0x886e7a22, 0x7a0508a1, 0x9f4787c3, 0x529e7d00, 0x49231c1e, 0x52f1ccf7);
    var s3 := S(0x3ec45cdb, 0xf5702fdb, 0x101fd28f, 0x886e7a22, 0xe50e1b4f, 0x9f4787c3, 0x529e7d00, 0x49231c1e);
    Rounds52(s0);
    Then(52, s0, s1);
    Then(53, s1, s2);
    Then(54, s2, s3);
    Then(55, s3, s);
  }

  lemma Rounds60(s: State)
    requires s == S(0xb6ae8fff, 0xffb70472, 0xc062d46f, 0xfcd1887b, 0xb21bad3d, 0x6d83bfc6, 0x7e44008e, 0x9b5e906c)
    ensures After(60, s)
  {
    hide After, WordIs;
    Words60To63();
    var s0 := S(0x38cc9913, 0x3ec45cdb, 0xf5702fdb, 0x101fd28f, 0x54cb266b, 0xe50e1b4f, 0x9f4787c3, 0x529e7d00);
    var s1 := S(0xfcd1887b, 0x38cc9913, 0x3ec45cdb, 0xf5702fdb, 0x9b5e906c, 0x54cb266b, 0xe50e1b4f, 0x9f4787c3);
    var s2 := S(0xc062d46f, 0xfcd1887b, 0x38cc9913, 0x3ec45cdb, 0x7e44008e, 0x9b5e906c, 0x54cb266b, 0xe50e1b4f);
    var s3 := S(0xffb70472, 0xc062d46f, 0xfcd1887b, 0x38cc9913, 0x6d83bfc6, 0x7e44008e, 0x9b5e906c, 0x54cb266b);
    Rounds56(s0);
    Then(56, s0, s1);
    Then(57, s1, s2);
    Then(58, s2, s3);
    Then(59, s3, s);
  }

  lemma Rounds64(s: State)
    requires s == S(0x506e3058, 0xd39a2165, 0x04d24d6c, 0xb85e2ce9, 0x5ef50f24, 0xfb121210, 0x948d25b6, 0x961f4894)
    ensures After(64, s)
  {
    hide After, WordIs;
    Words60To63();
    var s0 := S(0xb6ae8fff, 0xffb70472, 0xc062d46f, 0xfcd1887b, 0xb21bad3d, 0x6d83bfc6, 0x7e44008e, 0x9b5e906c);
    var s1 := S(0xb85e2ce9, 0xb6ae8fff, 0xffb70472, 0xc062d46f, 0x961f4894, 0xb21bad3d, 0x6d83bfc6, 0x7e44008e);
    var s2 := S(0x04d24d6c, 0xb85e2ce9, 0xb6ae8fff, 0xffb70472, 0x948d25b6, 0x961f4894, 0xb21bad3d, 0x6d83bfc6);
    var s3 := S(0xd39a2165, 0x04d24d6c, 0xb85e2ce9, 0xb6ae8fff, 0xfb121210, 0x948d25b6, 0x961f4894, 0xb21bad3d);
    Rounds60(s0);
    Then(60, s0, s1);
    Then(61, s1, s2);
    Then(62, s2, s3);
    Then(63, s3, s);
  }

  const ABC: seq<octet> := [0x61, 0x62, 0x63]

  lemma PaddedIs()
    ensures Padded(ABC) == Block()
  {
    var f := Filled(ABC);
    assert |f| == 56;
    assert f[0] == 0x61 && f[1] == 0x62 && f[2] == 0x63 && f[3] == 0x80 && forall i :: 4 <= i < 56 ==> f[i] == 0;
    assert WordAt(f, 0) == Word(0x61626380);
    forall j | 1 <= j < 14
      ensures WordAt(f, j) == ZERO
    {
    }
    assert Words(f) == Block()[..14];
    assert Binary(24) == Word(0x18);
    assert Binary(0) == ZERO;
  }

  lemma OneBlock(m: seq<Word>)
    requires |m| == 16
    ensures HashBlocks(m, 1) == Compress(IV(), m)
  {
    hide Compress;
    assert m[0..16] == m;
    assert HashBlocks(m, 0) == IV();
  }

  lemma HashIs()
    ensures Hash(ABC)
         == S(0xba7816bf, 0x8f01cfea, 0x414140de, 0x5dae2223, 0xb00361a3, 0x96177a9c, 0xb410ff61, 0xf20015ad)
  {
    hide Rounds;
    PaddedIs();
    OneBlock(Block());
    Rounds64(S(0x506e3058, 0xd39a2165, 0x04d24d6c, 0xb85e2ce9, 0x5ef50f24, 0xfb121210, 0x948d25b6, 0x961f4894));
  }

  /** Its digest. */
  lemma DigestIs()
    ensures Digest(ABC) == [
      0xba, 0x78, 0x16, 0xbf, 0x8f, 0x01, 0xcf, 0xea,
      0x41, 0x41, 0x40, 0xde, 0x5d, 0xae, 0x22, 0x23,
      0xb0, 0x03, 0x61, 0xa3, 0x96, 0x17, 0x7a, 0x9c,
      0xb4, 0x10, 0xff, 0x61, 0xf2, 0x00, 0x15, 0xad]
  {
    HashIs();
    hide Hash;
  }
}
