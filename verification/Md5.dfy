/** md5.c */
module Md5 {
  import opened Md5Spec

  const T_MASK: bv32 := 0xFFFF_FFFF

  lemma StepF(x: seq<bv32>, start: Regs, i: nat, r: Regs)
    requires |x| == 16 && 0 <= i < 16 && r == Steps(x, start, i)
    ensures Steps(x, start, i + 1) == Regs(r.d, Set(r.a, F(r.b, r.c, r.d), x[Index(i)], Shift(i), T(i), r.b), r.b, r.c)
  {
    hide Set, F;
  }

  /** The constants written out in round 1 of md5_process, and the words and distances. */
  lemma TableF()
    ensures T(0) == T_MASK ^ 0x2895_5B87
    ensures T(1) == T_MASK ^ 0x1738_48A9
    ensures T(2) == 0x2420_70DB
    ensures T(3) == T_MASK ^ 0x3E42_3111
    ensures T(4) == T_MASK ^ 0x0A83_F050
    ensures T(5) == 0x4787_C62A
    ensures T(6) == T_MASK ^ 0x57CF_B9EC
    ensures T(7) == T_MASK ^ 0x02B9_6AFE
    ensures T(8) == 0x6980_98D8
    ensures T(9) == T_MASK ^ 0x74BB_0850
    ensures T(10) == T_MASK ^ 0x0000_A44E
    ensures T(11) == T_MASK ^ 0x76A3_2841
    ensures T(12) == 0x6B90_1122
    ensures T(13) == T_MASK ^ 0x0267_8E6C
    ensures T(14) == T_MASK ^ 0x5986_BC71
    ensures T(15) == 0x49B4_0821
  {
  }

  lemma OperandsF()
    ensures Index(0) == 0 && Index(1) == 1 && Index(2) == 2 && Index(3) == 3
    ensures Shift(0) == 7 && Shift(1) == 12 && Shift(2) == 17 && Shift(3) == 22
    ensures Index(4) == 4 && Index(5) == 5 && Index(6) == 6 && Index(7) == 7
    ensures Shift(4) == 7 && Shift(5) == 12 && Shift(6) == 17 && Shift(7) == 22
    ensures Index(8) == 8 && Index(9) == 9 && Index(10) == 10 && Index(11) == 11
    ensures Shift(8) == 7 && Shift(9) == 12 && Shift(10) == 17 && Shift(11) == 22
    ensures Index(12) == 12 && Index(13) == 13 && Index(14) == 14 && Index(15) == 15
    ensures Shift(12) == 7 && Shift(13) == 12 && Shift(14) == 17 && Shift(15) == 22
  {
  }

  lemma StepG(x: seq<bv32>, start: Regs, i: nat, r: Regs)
    requires |x| == 16 && 16 <= i < 32 && r == Steps(x, start, i)
    ensures Steps(x, start, i + 1) == Regs(r.d, Set(r.a, G(r.b, r.c, r.d), x[Index(i)], Shift(i), T(i), r.b), r.b, r.c)
  {
    hide Set, G;
  }

  /** The constants written out in round 2 of md5_process, and the words and distances. */
  lemma TableG()
    ensures T(16) == T_MASK ^ 0x09E1_DA9D
    ensures T(17) == T_MASK ^ 0x3FBF_4CBF
    ensures T(18) == 0x265E_5A51
    ensures T(19) == T_MASK ^ 0x1649_3855
    ensures T(20) == T_MASK ^ 0x29D0_EFA2
    ensures T(21) == 0x0244_1453
    ensures T(22) == T_MASK ^ 0x275E_197E
    ensures T(23) == T_MASK ^ 0x182C_0437
    ensures T(24) == 0x21E1_CDE6
    ensures T(25) == T_MASK ^ 0x3CC8_F829
    ensures T(26) == T_MASK ^ 0x0B2A_F278
    ensures T(27) == 0x455A_14ED
    ensures T(28) == T_MASK ^ 0x561C_16FA
    ensures T(29) == T_MASK ^ 0x0310_5C07
    ensures T(30) == 0x676F_02D9
    ensures T(31) == T_MASK ^ 0x72D5_B375
  {
  }

  lemma OperandsG()
    ensures Index(16) == 1 && Index(17) == 6 && Index(18) == 11 && Index(19) == 0
    ensures Shift(16) == 5 && Shift(17) == 9 && Shift(18) == 14 && Shift(19) == 20
    ensures Index(20) == 5 && Index(21) == 10 && Index(22) == 15 && Index(23) == 4
    ensures Shift(20) == 5 && Shift(21) == 9 && Shift(22) == 14 && Shift(23) == 20
    ensures Index(24) == 9 && Index(25) == 14 && Index(26) == 3 && Index(27) == 8
    ensures Shift(24) == 5 && Shift(25) == 9 && Shift(26) == 14 && Shift(27) == 20
    ensures Index(28) == 13 && Index(29) == 2 && Index(30) == 7 && Index(31) == 12
    ensures Shift(28) == 5 && Shift(29) == 9 && Shift(30) == 14 && Shift(31) == 20
  {
  }

  lemma StepH(x: seq<bv32>, start: Regs, i: nat, r: Regs)
    requires |x| == 16 && 32 <= i < 48 && r == Steps(x, start, i)
    ensures Steps(x, start, i + 1) == Regs(r.d, Set(r.a, H(r.b, r.c, r.d), x[Index(i)], Shift(i), T(i), r.b), r.b, r.c)
  {
    hide Set, H;
  }

  /** The constants written out in round 3 of md5_process, and the words and distances. */
  lemma TableH()
    ensures T(32) == T_MASK ^ 0x0005_C6BD
    ensures T(33) == T_MASK ^ 0x788E_097E
    ensures T(34) == 0x6D9D_6122
    ensures T(35) == T_MASK ^ 0x021A_C7F3
    ensures T(36) == T_MASK ^ 0x5B41_15BB
    ensures T(37) == 0x4BDE_CFA9
    ensures T(38) == T_MASK ^ 0x0944_B49F
    ensures T(39) == T_MASK ^ 0x4140_438F
    ensures T(40) == 0x289B_7EC6
    ensures T(41) == T_MASK ^ 0x155E_D805
    ensures T(42) == T_MASK ^ 0x2B10_CF7A
    ensures T(43) == 0x0488_1D05
    ensures T(44) == T_MASK ^ 0x262B_2FC6
    ensures T(45) == T_MASK ^ 0x1924_661A
    ensures T(46) == 0x1FA2_7CF8
    ensures T(47) == T_MASK ^ 0x3B53_A99A
  {
  }

  lemma OperandsH()
    ensures Index(32) == 5 && Index(33) == 8 && Index(34) == 11 && Index(35) == 14
    ensures Shift(32) == 4 && Shift(33) == 11 && Shift(34) == 16 && Shift(35) == 23
    ensures Index(36) == 1 && Index(37) == 4 && Index(38) == 7 && Index(39) == 10
    ensures Shift(36) == 4 && Shift(37) == 11 && Shift(38) == 16 && Shift(39) == 23
    ensures Index(40) == 13 && Index(41) == 0 && Index(42) == 3 && Index(43) == 6
    ensures Shift(40) == 4 && Shift(41) == 11 && Shift(42) == 16 && Shift(43) == 23
    ensures Index(44) == 9 && Index(45) == 12 && Index(46) == 15 && Index(47) == 2
    ensures Shift(44) == 4 && Shift(45) == 11 && Shift(46) == 16 && Shift(47) == 23
  {
  }

  lemma StepI(x: seq<bv32>, start: Regs, i: nat, r: Regs)
    requires |x| == 16 && 48 <= i < 64 && r == Steps(x, start, i)
    ensures Steps(x, start, i + 1) == Regs(r.d, Set(r.a, I(r.b, r.c, r.d), x[Index(i)], Shift(i), T(i), r.b), r.b, r.c)
  {
    hide Set, I;
  }

  /** The constants written out in round 4 of md5_process, and the words and distances. */
  lemma TableI()
    ensures T(48) == T_MASK ^ 0x0BD6_DDBB
    ensures T(49) == 0x432A_FF97
    ensures T(50) == T_MASK ^ 0x546B_DC58
    ensures T(51) == T_MASK ^ 0x036C_5FC6
    ensures T(52) == 0x655B_59C3
    ensures T(53) == T_MASK ^ 0x70F3_336D
    ensures T(54) == T_MASK ^ 0x0010_0B82
    ensures T(55) == T_MASK ^ 0x7A7B_A22E
    ensures T(56) == 0x6FA8_7E4F
    ensures T(57) == T_MASK ^ 0x01D3_191F
    ensures T(58) == T_MASK ^ 0x5CFE_BCEB
    ensures T(59) == 0x4E08_11A1
    ensures T(60) == T_MASK ^ 0x08AC_817D
    ensures T(61) == T_MASK ^ 0x42C5_0DCA
    ensures T(62) == 0x2AD7_D2BB
    ensures T(63) == T_MASK ^ 0x1479_2C6E
  {
  }

  lemma OperandsI()
    ensures Index(48) == 0 && Index(49) == 7 && Index(50) == 14 && Index(51) == 5
    ensures Shift(48) == 6 && Shift(49) == 10 && Shift(50) == 15 && Shift(51) == 21
    ensures Index(52) == 12 && Index(53) == 3 && Index(54) == 10 && Index(55) == 1
    ensures Shift(52) == 6 && Shift(53) == 10 && Shift(54) == 15 && Shift(55) == 21
    ensures Index(56) == 8 && Index(57) == 15 && Index(58) == 6 && Index(59) == 13
    ensures Shift(56) == 6 && Shift(57) == 10 && Shift(58) == 15 && Shift(59) == 21
    ensures Index(60) == 4 && Index(61) == 11 && Index(62) == 2 && Index(63) == 9
    ensures Shift(60) == 6 && Shift(61) == 10 && Shift(62) == 15 && Shift(63) == 21
  {
  }

  /** Round 1 of md5_process. */
  method Round1(x: seq<bv32>, r: Regs, ghost start: Regs) returns (r': Regs)
    requires |x| == 16 && r == Steps(x, start, 0)
    ensures r' == Steps(x, start, 16)
  {
    hide Set, F, Steps, Index, Shift, T;
    TableF();
    OperandsF();
    var a, b, c, d := r.a, r.b, r.c, r.d;
    StepF(x, start, 0, Regs(a, b, c, d));
    a := Set(a, F(b, c, d), x[0], 7, T_MASK ^ 0x2895_5B87, b);
    StepF(x, start, 1, Regs(d, a, b, c));
    d := Set(d, F(a, b, c), x[1], 12, T_MASK ^ 0x1738_48A9, a);
    StepF(x, start, 2, Regs(c, d, a, b));
    c := Set(c, F(d, a, b), x[2], 17, 0x2420_70DB, d);
    StepF(x, start, 3, Regs(b, c, d, a));
    b := Set(b, F(c, d, a), x[3], 22, T_MASK ^ 0x3E42_3111, c);
    StepF(x, start, 4, Regs(a, b, c, d));
    a := Set(a, F(b, c, d), x[4], 7, T_MASK ^ 0x0A83_F050, b);
    StepF(x, start, 5, Regs(d, a, b, c));
    d := Set(d, F(a, b, c), x[5], 12, 0x4787_C62A, a);
    StepF(x, start, 6, Regs(c, d, a, b));
    c := Set(c, F(d, a, b), x[6], 17, T_MASK ^ 0x57CF_B9EC, d);
    StepF(x, start, 7, Regs(b, c, d, a));
    b := Set(b, F(c, d, a), x[7], 22, T_MASK ^ 0x02B9_6AFE, c);
    StepF(x, start, 8, Regs(a, b, c, d));
    a := Set(a, F(b, c, d), x[8], 7, 0x6980_98D8, b);
    StepF(x, start, 9, Regs(d, a, b, c));
    d := Set(d, F(a, b, c), x[9], 12, T_MASK ^ 0x74BB_0850, a);
    StepF(x, start, 10, Regs(c, d, a, b));
    c := Set(c, F(d, a, b), x[10], 17, T_MASK ^ 0x0000_A44E, d);
    StepF(x, start, 11, Regs(b, c, d, a));
    b := Set(b, F(c, d, a), x[11], 22, T_MASK ^ 0x76A3_2841, c);
    StepF(x, start, 12, Regs(a, b, c, d));
    a := Set(a, F(b, c, d), x[12], 7, 0x6B90_1122, b);
    StepF(x, start, 13, Regs(d, a, b, c));
    d := Set(d, F(a, b, c), x[13], 12, T_MASK ^ 0x0267_8E6C, a);
    StepF(x, start, 14, Regs(c, d, a, b));
    c := Set(c, F(d, a, b), x[14], 17, T_MASK ^ 0x5986_BC71, d);
    StepF(x, start, 15, Regs(b, c, d, a));
    b := Set(b, F(c, d, a), x[15], 22, 0x49B4_0821, c);
    r' := Regs(a, b, c, d);
  }

  /** Round 2 of md5_process. */
  method Round2(x: seq<bv32>, r: Regs, ghost start: Regs) returns (r': Regs)
    requires |x| == 16 && r == Steps(x, start, 16)
    ensures r' == Steps(x, start, 32)
  {
    hide Set, G, Steps, Index, Shift, T;
    TableG();
    OperandsG();
    var a, b, c, d := r.a, r.b, r.c, r.d;
    StepG(x, start, 16, Regs(a, b, c, d));
    a := Set(a, G(b, c, d), x[1], 5, T_MASK ^ 0x09E1_DA9D, b);
    StepG(x, start, 17, Regs(d, a, b, c));
    d := Set(d, G(a, b, c), x[6], 9, T_MASK ^ 0x3FBF_4CBF, a);
    StepG(x, start, 18, Regs(c, d, a, b));
    c := Set(c, G(d, a, b), x[11], 14, 0x265E_5A51, d);
    StepG(x, start, 19, Regs(b, c, d, a));
    b := Set(b, G(c, d, a), x[0], 20, T_MASK ^ 0x1649_3855, c);
    StepG(x, start, 20, Regs(a, b, c, d));
    a := Set(a, G(b, c, d), x[5], 5, T_MASK ^ 0x29D0_EFA2, b);
    StepG(x, start, 21, Regs(d, a, b, c));
    d := Set(d, G(a, b, c), x[10], 9, 0x0244_1453, a);
    StepG(x, start, 22, Regs(c, d, a, b));
    c := Set(c, G(d, a, b), x[15], 14, T_MASK ^ 0x275E_197E, d);
    StepG(x, start, 23, Regs(b, c, d, a));
    b := Set(b, G(c, d, a), x[4], 20, T_MASK ^ 0x182C_0437, c);
    StepG(x, start, 24, Regs(a, b, c, d));
    a := Set(a, G(b, c, d), x[9], 5, 0x21E1_CDE6, b);
    StepG(x, start, 25, Regs(d, a, b, c));
    d := Set(d, G(a, b, c), x[14], 9, T_MASK ^ 0x3CC8_F829, a);
    StepG(x, start, 26, Regs(c, d, a, b));
    c := Set(c, G(d, a, b), x[3], 14, T_MASK ^ 0x0B2A_F278, d);
    StepG(x, start, 27, Regs(b, c, d, a));
    b := Set(b, G(c, d, a), x[8], 20, 0x455A_14ED, c);
    StepG(x, start, 28, Regs(a, b, c, d));
    a := Set(a, G(b, c, d), x[13], 5, T_MASK ^ 0x561C_16FA, b);
    StepG(x, start, 29, Regs(d, a, b, c));
    d := Set(d, G(a, b, c), x[2], 9, T_MASK ^ 0x0310_5C07, a);
    StepG(x, start, 30, Regs(c, d, a, b));
    c := Set(c, G(d, a, b), x[7], 14, 0x676F_02D9, d);
    StepG(x, start, 31, Regs(b, c, d, a));
    b := Set(b, G(c, d, a), x[12], 20, T_MASK ^ 0x72D5_B375, c);
    r' := Regs(a, b, c, d);
  }

  /** Round 3 of md5_process. */
  method Round3(x: seq<bv32>, r: Regs, ghost start: Regs) returns (r': Regs)
    requires |x| == 16 && r == Steps(x, start, 32)
    ensures r' == Steps(x, start, 48)
  {
    hide Set, H, Steps, Index, Shift, T;
    TableH();
    OperandsH();
    var a, b, c, d := r.a, r.b, r.c, r.d;
    StepH(x, start, 32, Regs(a, b, c, d));
    a := Set(a, H(b, c, d), x[5], 4, T_MASK ^ 0x0005_C6BD, b);
    StepH(x, start, 33, Regs(d, a, b, c));
    d := Set(d, H(a, b, c), x[8], 11, T_MASK ^ 0x788E_097E, a);
    StepH(x, start, 34, Regs(c, d, a, b));
    c := Set(c, H(d, a, b), x[11], 16, 0x6D9D_6122, d);
    StepH(x, start, 35, Regs(b, c, d, a));
    b := Set(b, H(c, d, a), x[14], 23, T_MASK ^ 0x021A_C7F3, c);
    StepH(x, start, 36, Regs(a, b, c, d));
    a := Set(a, H(b, c, d), x[1], 4, T_MASK ^ 0x5B41_15BB, b);
    StepH(x, start, 37, Regs(d, a, b, c));
    d := Set(d, H(a, b, c), x[4], 11, 0x4BDE_CFA9, a);
    StepH(x, start, 38, Regs(c, d, a, b));
    c := Set(c, H(d, a, b), x[7], 16, T_MASK ^ 0x0944_B49F, d);
    StepH(x, start, 39, Regs(b, c, d, a));
    b := Set(b, H(c, d, a), x[10], 23, T_MASK ^ 0x4140_438F, c);
    StepH(x, start, 40, Regs(a, b, c, d));
    a := Set(a, H(b, c, d), x[13], 4, 0x289B_7EC6, b);
    StepH(x, start, 41, Regs(d, a, b, c));
    d := Set(d, H(a, b, c), x[0], 11, T_MASK ^ 0x155E_D805, a);
    StepH(x, start, 42, Regs(c, d, a, b));
    c := Set(c, H(d, a, b), x[3], 16, T_MASK ^ 0x2B10_CF7A, d);
    StepH(x, start, 43, Regs(b, c, d, a));
    b := Set(b, H(c, d, a), x[6], 23, 0x0488_1D05, c);
    StepH(x, start, 44, Regs(a, b, c, d));
    a := Set(a, H(b, c, d), x[9], 4, T_MASK ^ 0x262B_2FC6, b);
    StepH(x, start, 45, Regs(d, a, b, c));
    d := Set(d, H(a, b, c), x[12], 11, T_MASK ^ 0x1924_661A, a);
    StepH(x, start, 46, Regs(c, d, a, b));
    c := Set(c, H(d, a, b), x[15], 16, 0x1FA2_7CF8, d);
    StepH(x, start, 47, Regs(b, c, d, a));
    b := Set(b, H(c, d, a), x[2], 23, T_MASK ^ 0x3B53_A99A, c);
    r' := Regs(a, b, c, d);
  }

  /** Round 4 of md5_process. */
  method Round4(x: seq<bv32>, r: Regs, ghost start: Regs) returns (r': Regs)
    requires |x| == 16 && r == Steps(x, start, 48)
    ensures r' == Steps(x, start, 64)
  {
    hide Set, I, Steps, Index, Shift, T;
    TableI();
    OperandsI();
    var a, b, c, d := r.a, r.b, r.c, r.d;
    StepI(x, start, 48, Regs(a, b, c, d));
    a := Set(a, I(b, c, d), x[0], 6, T_MASK ^ 0x0BD6_DDBB, b);
    StepI(x, start, 49, Regs(d, a, b, c));
    d := Set(d, I(a, b, c), x[7], 10, 0x432A_FF97, a);
    StepI(x, start, 50, Regs(c, d, a, b));
    c := Set(c, I(d, a, b), x[14], 15, T_MASK ^ 0x546B_DC58, d);
    StepI(x, start, 51, Regs(b, c, d, a));
    b := Set(b, I(c, d, a), x[5], 21, T_MASK ^ 0x036C_5FC6, c);
    StepI(x, start, 52, Regs(a, b, c, d));
    a := Set(a, I(b, c, d), x[12], 6, 0x655B_59C3, b);
    StepI(x, start, 53, Regs(d, a, b, c));
    d := Set(d, I(a, b, c), x[3], 10, T_MASK ^ 0x70F3_336D, a);
    StepI(x, start, 54, Regs(c, d, a, b));
    c := Set(c, I(d, a, b), x[10], 15, T_MASK ^ 0x0010_0B82, d);
    StepI(x, start, 55, Regs(b, c, d, a));
    b := Set(b, I(c, d, a), x[1], 21, T_MASK ^ 0x7A7B_A22E, c);
    StepI(x, start, 56, Regs(a, b, c, d));
    a := Set(a, I(b, c, d), x[8], 6, 0x6FA8_7E4F, b);
    StepI(x, start, 57, Regs(d, a, b, c));
    d := Set(d, I(a, b, c), x[15], 10, T_MASK ^ 0x01D3_191F, a);
    StepI(x, start, 58, Regs(c, d, a, b));
    c := Set(c, I(d, a, b), x[6], 15, T_MASK ^ 0x5CFE_BCEB, d);
    StepI(x, start, 59, Regs(b, c, d, a));
    b := Set(b, I(c, d, a), x[13], 21, 0x4E08_11A1, c);
    StepI(x, start, 60, Regs(a, b, c, d));
    a := Set(a, I(b, c, d), x[4], 6, T_MASK ^ 0x08AC_817D, b);
    StepI(x, start, 61, Regs(d, a, b, c));
    d := Set(d, I(a, b, c), x[11], 10, T_MASK ^ 0x42C5_0DCA, a);
    StepI(x, start, 62, Regs(c, d, a, b));
    c := Set(c, I(d, a, b), x[2], 15, 0x2AD7_D2BB, d);
    StepI(x, start, 63, Regs(b, c, d, a));
    b := Set(b, I(c, d, a), x[9], 21, T_MASK ^ 0x1479_2C6E, c);
    r' := Regs(a, b, c, d);
  }

  /** The registers depend only on the blocks so far. */
  lemma {:induction false} DigestedPrefix(s: seq<Byte>, more: seq<Byte>, n: nat)
    requires 64 * n <= |s|
    ensures Digested(s + more, n) == Digested(s, n)
  {
    hide Block;
    if n > 0 {
      DigestedPrefix(s, more, n - 1);
      assert (s + more)[64 * n - 64..64 * n] == s[64 * n - 64..64 * n];
    }
  }

  lemma NextBlock(s: seq<Byte>, block: seq<Byte>, n: nat)
    requires 64 * n == |s| && |block| == 64
    ensures Digested(s + block, n + 1) == Block(Digested(s, n), block)
  {
    hide Block;
    DigestedPrefix(s, block, n);
    assert (s + block)[64 * n..64 * n + 64] == block;
  }

  /** md5_state_t */
  class State {
    var count0: nat
    var count1: nat
    var abcd: Regs
    const buf: array<Byte>
    /** What has been appended so far. */
    ghost var message: seq<Byte>

    /** md5_init */
    constructor ()
      ensures Valid() && message == [] && fresh(buf)
    {
      count0, count1 := 0, 0;
      abcd := Regs(0x6745_2301, T_MASK ^ 0x1032_5476, T_MASK ^ 0x6745_2301, 0x1032_5476);
      buf := new Byte[64];
      message := [];
    }

    /** The state is that of the message: the registers have taken in its full blocks, the buffer holds
        the rest, and the two words count its bits. */
    ghost predicate Valid()
      reads this, buf
    {
      && buf.Length == 64
      && Counts(count0, count1, |message|)
      && Held(message, abcd, buf[..])
    }

    /** md5_process */
    method Process(block: seq<Byte>)
      requires |block| == 64
      modifies this`abcd
      ensures abcd == Block(old(abcd), block)
    {
      hide Steps, Plus;
      var x := DecodeBlock(block);
      ghost var start := abcd;
      NoSteps(x, start);
      var r := Round1(x, abcd, start);
      r := Round2(x, r, start);
      r := Round3(x, r, start);
      r := Round4(x, r, start);
      abcd := Plus(abcd, r);
    }

    /** memcpy into the buffer. */
    method CopyIn(offset: nat, data: seq<Byte>)
      requires offset + |data| <= buf.Length
      modifies buf
      ensures buf[..] == old(buf[..offset]) + data + old(buf[offset + |data|..])
    {
      forall i | 0 <= i < |data| {
        buf[offset + i] := data[i];
      }
    }

    /** The update of the message length, with the carry between its words. */
    method CountBytes(nbytes: nat, ghost length: nat)
      requires nbytes < W32 / 2 && Counts(count0, count1, length)
      modifies this`count0, this`count1
      ensures Counts(count0, count1, length + nbytes)
    {
      var nbits := 8 * nbytes % W32;
      CarryExact(count0, count1, nbytes, length);
      count1 := (count1 + nbytes / 0x2000_0000) % W32;
      count0 := (count0 + nbits) % W32;
      if count0 < nbits {
        count1 := (count1 + 1) % W32;
      }
    }

    /** md5_append */
    method Append(data: seq<Byte>, nbytes: int)
      requires Valid() && nbytes <= |data| && nbytes < W32 / 2 - 64
      modifies this, buf
      ensures Valid() && message == old(message) + data[..if nbytes < 0 then 0 else nbytes]
    {
      hide Held, Counts;
      var offset := count0 / 8 % 64;
      OffsetIs(count0, count1, |message|);
      if nbytes <= 0 {
        return;
      }
      CountBytes(nbytes, |message|);
      Absorb(data[..nbytes], offset);
    }

    /** The part of md5_append after the count: the bytes go through the buffer. */
    method Absorb(data: seq<Byte>, offset: nat)
      requires Held(message, abcd, buf[..]) && offset == |message| % 64
      modifies this`abcd, this`message, buf
      ensures Held(message, abcd, buf[..]) && message == old(message) + data
    {
      hide Held;
      ghost var whole := message + data;
      var p := 0;
      HeldSize(message, abcd, buf[..]);
      // an initial partial block
      if offset != 0 {
        var copy := if offset + |data| > 64 then 64 - offset else |data|;
        Append2(message, data, copy);
        p := copy;
        var full := FillBlock(data[..copy], offset);
        if !full {
          assert data[..copy] == data;
          return;
        }
      } else {
        Append2(message, data, 0);
      }
      FullBlocks(data[p..]);
    }

    /** The initial partial block; whether it got full and was processed. */
    method FillBlock(data: seq<Byte>, offset: nat) returns (full: bool)
      requires Held(message, abcd, buf[..]) && buf.Length == 64 && offset == |message| % 64 && offset + |data| <= 64
      modifies this`abcd, this`message, buf
      ensures Held(message, abcd, buf[..]) && message == old(message) + data
      ensures full == (offset + |data| == 64) && (full ==> |message| % 64 == 0)
    {
      hide Held;
      ghost var before := buf[..];
      CopyIn(offset, data);
      full := offset + |data| == 64;
      if full {
        HeldFull(message, abcd, before, data, buf[..], buf[..]);
        Process(buf[..]);
      } else {
        HeldMore(message, abcd, before, data, buf[..]);
      }
      message := message + data;
    }

    /** A full block, straight from the data. */
    method FullBlock(block: seq<Byte>)
      requires Held(message, abcd, buf[..]) && buf.Length == 64 && |message| % 64 == 0 && |block| == 64
      modifies this`abcd, this`message
      ensures Held(message, abcd, buf[..]) && |message| % 64 == 0 && message == old(message) + block
    {
      hide Held;
      HeldFull(message, abcd, buf[..], block, block, buf[..]);
      Process(block);
      message := message + block;
    }

    /** The full blocks, and the final partial block. */
    method FullBlocks(data: seq<Byte>)
      requires Held(message, abcd, buf[..]) && buf.Length == 64 && |message| % 64 == 0
      modifies this`abcd, this`message, buf
      ensures Held(message, abcd, buf[..]) && message == old(message) + data
    {
      hide Held;
      var left := |data|;
      Append2(message, data, 0);
      while left >= 64
        invariant 0 <= left <= |data| && |message| % 64 == 0
        invariant Held(message, abcd, buf[..]) && message == old(message) + data[..|data| - left]
      {
        var p := |data| - left;
        Append3(old(message), data, p, p + 64);
        FullBlock(data[p..p + 64]);
        left := left - 64;
      }
      Append2(old(message), data, |data| - left);
      if left != 0 {
        var full := FillBlock(data[|data| - left..], 0);
      }
    }

    /** md5_finish */
    method Finish() returns (digest: seq<Byte>)
      requires Valid()
      modifies this, buf
      ensures Valid() && message == Padded(old(message)) && digest == Md5(old(message))
    {
      hide Held, Counts, Digested, Output, ByteOf, LittleEndian;
      // the length before padding
      var data: seq<Byte> := [];
      for i := 0 to 8
        invariant |data| == i
        invariant data == CountBytesOf(count0, count1)[..i]
      {
        data := data + [WordByte(if i < 4 then count0 else count1, i % 4)];
      }
      assert data == CountBytesOf(count0, count1);
      CountIs(count0, count1, |message|);
      PadIs(count0, count1, |message|);
      PadParts(message, (55 - count0 / 8) % 64 + 1, data);
      Append(PAD, (55 - count0 / 8) % 64 + 1);
      Append(data, 8);
      assert data[..8] == data;
      assert message == Padded(old(message));
      HeldWhole(message, abcd, buf[..]);
      digest := DigestBytes(abcd);
    }
  }

  method DigestBytes(r: Regs) returns (digest: seq<Byte>)
    ensures digest == Output(r)
  {
    hide ByteOf;
    digest := [];
    for i := 0 to 16
      invariant |digest| == i && digest == Output(r)[..i]
    {
      digest := digest + [ByteOf(if i < 4 then r.a else if i < 8 then r.b else if i < 12 then r.c else r.d, i % 4)];
    }
  }

  /** The state depends only on the bytes appended, however they were split. */
  lemma SplitsAgree(s: State, t: State)
    requires s.Valid() && t.Valid() && s.message == t.message
    ensures s.abcd == t.abcd && s.count0 == t.count0 && s.count1 == t.count1
    ensures s.buf[..|s.message| % 64] == t.buf[..|t.message| % 64]
  {
    hide Digested;
    var k := |s.message| % 64;
    assert s.buf[..][..k] == s.buf[..k] && t.buf[..][..k] == t.buf[..k];
    assert (s.count0 + W32 * s.count1) % W32 == s.count0 by { AddWords(s.count0, s.count1); }
    assert (t.count0 + W32 * t.count1) % W32 == t.count0 by { AddWords(t.count0, t.count1); }
  }

  lemma AddWords(low: nat, high: nat)
    requires low < W32
    ensures (low + W32 * high) % W32 == low
  {
  }

  /** The table that the padding is taken from. */
  const PAD: seq<Byte> := [0x80] + Zeros(63)

  /** (md5_byte_t)(word >> (j << 3)) */
  function WordByte(word: nat, j: nat): Byte
    requires j < 4
  {
    (if j == 0 then word else if j == 1 then word / 0x100 else if j == 2 then word / 0x1_0000 else word / 0x100_0000)
    % 256
  }

  function CountBytesOf(count0: nat, count1: nat): (s: seq<Byte>)
    ensures |s| == 8
  {
    seq(8, i requires 0 <= i < 8 => WordByte(if i < 4 then count0 else count1, i % 4))
  }

  /** Taking a byte off the low end of a number in two parts. */
  lemma LowByte(low: nat, scale: nat, high: nat)
    ensures (low + 256 * scale * high) % 256 == low % 256
    ensures (low + 256 * scale * high) / 256 == low / 256 + scale * high
  {
    assert low + 256 * scale * high == low + 256 * (scale * high);
    AddWhole(low, scale * high);
  }

  lemma AddWhole(low: nat, q: nat)
    ensures (low + 256 * q) % 256 == low % 256 && (low + 256 * q) / 256 == low / 256 + q
  {
  }

  lemma NextByte(low: nat, scale: nat, high: nat, n: nat)
    ensures LittleEndian(low + 256 * scale * high, n + 1) == [low % 256] + LittleEndian(low / 256 + scale * high, n)
  {
    LowByte(low, scale, high);
  }

  lemma NestedDivision(w: nat)
    ensures w / 0x100 / 0x100 == w / 0x1_0000 && w / 0x1_0000 / 0x100 == w / 0x100_0000
    ensures w < W32 ==> w / 0x100_0000 / 0x100 == 0
  {
  }

  /** The eight bytes of the count are those of its two words. */
  lemma TwoWords(count0: nat, count1: nat)
    requires count0 < W32
    ensures LittleEndian(count0 + W32 * count1, 8) ==
            [WordByte(count0, 0), WordByte(count0, 1), WordByte(count0, 2), WordByte(count0, 3)] + LittleEndian(count1, 4)
  {
    hide LittleEndian;
    NestedDivision(count0);
    NextByte(count0, 0x100_0000, count1, 7);
    NextByte(count0 / 0x100, 0x1_0000, count1, 6);
    NextByte(count0 / 0x1_0000, 0x100, count1, 5);
    NextByte(count0 / 0x100_0000, 1, count1, 4);
  }

  lemma OneWord(w: nat)
    requires w < W32
    ensures LittleEndian(w, 4) == [WordByte(w, 0), WordByte(w, 1), WordByte(w, 2), WordByte(w, 3)]
  {
    hide LittleEndian;
    NestedDivision(w);
    NextByte(w, 1, 0, 3);
    NextByte(w / 0x100, 1, 0, 2);
    NextByte(w / 0x1_0000, 1, 0, 1);
    NextByte(w / 0x100_0000, 1, 0, 0);
    NoBytes(w / 0x100_0000 / 0x100);
  }

  lemma NoBytes(v: nat)
    ensures LittleEndian(v, 0) == []
  {
  }

  lemma CountIs(count0: nat, count1: nat, length: nat)
    requires Counts(count0, count1, length)
    ensures CountBytesOf(count0, count1) == LittleEndian(8 * length % W64, 8)
  {
    hide LittleEndian, WordByte;
    TwoWords(count0, count1);
    OneWord(count1);
  }

  lemma PadIs(count0: nat, count1: nat, length: nat)
    requires Counts(count0, count1, length)
    ensures (55 - count0 / 8) % 64 == PadZeros(length)
  {
    OffsetIs(count0, count1, length);
    SameGap(count0 / 8, length);
  }

  lemma SameGap(x: nat, y: nat)
    requires x % 64 == y % 64
    ensures (55 - x) % 64 == (55 - y) % 64
  {
    var k := x / 64 - y / 64;
    assert x == y + 64 * k;
    SameRest(55 - y, k);
  }

  /** The message, the padding taken from the table, and the length make up the padded message. */
  lemma PadParts(message: seq<Byte>, n: nat, data: seq<Byte>)
    requires n == PadZeros(|message|) + 1 && data == LittleEndian(8 * |message| % W64, 8)
    ensures (message + PAD[..n]) + data == Padded(message)
  {
    assert PAD[..n] == [0x80] + Zeros(n - 1);
  }

  lemma HeldWhole(message: seq<Byte>, r: Regs, buf: seq<Byte>)
    requires Held(message, r, buf)
    ensures r == Digested(message, |message| / 64)
  {
  }

  lemma Append3(message: seq<Byte>, data: seq<Byte>, p: nat, q: nat)
    requires p <= q <= |data|
    ensures (message + data[..p]) + data[p..q] == message + data[..q]
  {
  }

  lemma Append2(message: seq<Byte>, data: seq<Byte>, p: nat)
    requires p <= |data|
    ensures (message + data[..p]) + data[p..] == message + data
    ensures p == 0 ==> message + data[..p] == message
    ensures p == |data| ==> message + data[..p] == message + data
  {
  }

  lemma HeldSize(message: seq<Byte>, r: Regs, buf: seq<Byte>)
    requires Held(message, r, buf)
    ensures |buf| == 64
  {
  }

  /** Bytes that do not fill the block go into the buffer. */
  lemma HeldMore(message: seq<Byte>, r: Regs, buf: seq<Byte>, data: seq<Byte>, buf': seq<Byte>)
    requires Held(message, r, buf) && |message| % 64 + |data| < 64
    requires var k := |message| % 64; buf' == buf[..k] + data + buf[k + |data|..]
    ensures Held(message + data, r, buf')
  {
    hide Digested;
    DigestedPrefix(message, data, |message| / 64);
  }

  /** Bytes that fill the block complete it. */
  lemma HeldFull(message: seq<Byte>, r: Regs, buf: seq<Byte>, data: seq<Byte>, block: seq<Byte>, buf': seq<Byte>)
    requires Held(message, r, buf) && |message| % 64 + |data| == 64 && |buf'| == 64
    requires block == buf[..|message| % 64] + data
    ensures Held(message + data, Block(r, block), buf') && |message + data| % 64 == 0
  {
    hide Digested, Block;
    var n := |message| / 64;
    var full, rest := message[..64 * n], message[64 * n..];
    assert message == full + rest && rest + data == block;
    DigestedPrefix(full, rest, n);
    NextBlock(full, block, n);
    assert message + data == full + block;
  }

  lemma NoSteps(x: seq<bv32>, r: Regs)
    requires |x| == 16
    ensures Steps(x, r, 0) == r
  {
  }

  /** The two words of the bit count of a length. */
  predicate Counts(count0: nat, count1: nat, length: nat) {
    count0 < W32 && count1 < W32 && count0 + W32 * count1 == 8 * length % W64
  }

  lemma CarryExact(count0: nat, count1: nat, nbytes: nat, length: nat)
    requires nbytes < W32 / 2 && Counts(count0, count1, length)
    ensures var nbits := 8 * nbytes % W32;
            var c0 := (count0 + nbits) % W32;
            var c1 := (count1 + nbytes / 0x2000_0000) % W32;
            Counts(c0, if c0 < nbits then (c1 + 1) % W32 else c1, length + nbytes)
  {
    var nbits := 8 * nbytes % W32;
    var high := nbytes / 0x2000_0000;
    TopBits(nbytes);
    var sum := count0 + nbits;
    var carry := if sum < W32 then 0 else 1;
    var c0 := sum - W32 * carry;
    LowWord(sum);
    var top := count1 + high + carry;
    assert count0 + W32 * count1 + 8 * nbytes == c0 + W32 * top;
    WordPair(c0, top);
    AddMod(8 * length, 8 * nbytes);
    WordStep(count1 + high);
  }

  lemma TopBits(nbytes: nat)
    ensures 8 * nbytes == 8 * nbytes % W32 + W32 * (nbytes / 0x2000_0000)
  {
  }

  lemma LowWord(sum: nat)
    requires sum < 2 * W32
    ensures sum % W32 == if sum < W32 then sum else sum - W32
  {
  }

  lemma WordStep(x: nat)
    ensures (x % W32 + 1) % W32 == (x + 1) % W32
  {
  }

  lemma AddMod(x: nat, y: nat)
    ensures (x % W64 + y) % W64 == (x + y) % W64
  {
  }

  lemma WordPair(low: nat, high: nat)
    requires low < W32
    ensures (low + W32 * high) % W64 == low + W32 * (high % W32)
  {
    var q := high / W32;
    assert low + W32 * high == low + W32 * (high % W32) + W64 * q;
  }

  /** The position in the block, read off the low word of the bit count. */
  lemma OffsetIs(count0: nat, count1: nat, length: nat)
    requires Counts(count0, count1, length)
    ensures count0 / 8 % 64 == length % 64
  {
    var k := count1 + W32 * (8 * length / W64);
    assert count0 == 8 * (length - 0x2000_0000 * k);
    assert count0 / 8 == length - 64 * (0x80_0000 * k);
    SameRest(length, 0x80_0000 * k);
  }

  lemma SameRest(x: int, k: int)
    ensures (x - 64 * k) % 64 == x % 64
  {
  }

  /** The words of a block, by the loop that does not depend on the byte order of the machine. */
  method DecodeBlock(block: seq<Byte>) returns (x: seq<bv32>)
    requires |block| == 64
    ensures x == Words(block)
  {
    hide WordOf;
    x := [];
    for i := 0 to 16
      invariant |x| == i && x == Words(block)[..i]
    {
      x := x + [WordOf(block[4 * i], block[4 * i + 1], block[4 * i + 2], block[4 * i + 3])];
    }
  }

  ghost predicate Held(message: seq<Byte>, abcd: Regs, buf: seq<Byte>) {
    var n := |message| / 64;
    && |buf| == 64
    && abcd == Digested(message, n)
    && buf[..|message| % 64] == message[64 * n..]
  }
}