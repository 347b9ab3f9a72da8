/** The functions of section 3.4 of RFC 1321 bit by bit, and its 64 steps on the blocks of three of the messages
    of section A.5. */
module Md5Rounds {
  import opened Md5Spec

  // ---- bit by bit: m selects bits ----

  /** F: if x then y else z. */
  lemma FSelects(x: bv32, y: bv32, z: bv32, m: bv32)
    ensures x & m == m ==> F(x, y, z) & m == y & m
    ensures x & m == 0 ==> F(x, y, z) & m == z & m
  {
  }

  /** G: if z then x else y. */
  lemma GSelects(x: bv32, y: bv32, z: bv32, m: bv32)
    ensures z & m == m ==> G(x, y, z) & m == x & m
    ensures z & m == 0 ==> G(x, y, z) & m == y & m
  {
  }

  /** H: the parity of x, y and z. */
  lemma HParity(x: bv32, y: bv32, z: bv32, m: bv32)
    ensures x & m == y & m ==> H(x, y, z) & m == z & m
    ensures x & m == !y & m ==> H(x, y, z) & m == !z & m
  {
  }

  /** I: y, inverted where x or not z. */
  lemma IInverts(x: bv32, y: bv32, z: bv32, m: bv32)
    ensures x & m == m ==> I(x, y, z) & m == !y & m
    ensures z & m == 0 ==> I(x, y, z) & m == !y & m
  {
  }

  lemma IKeeps(x: bv32, y: bv32, z: bv32, m: bv32)
    ensures x & m == 0 && z & m == m ==> I(x, y, z) & m == y & m
  {
  }

  // ---- steps ----

  /** The registers after n steps. */
  ghost predicate At(x: seq<bv32>, start: Regs, n: nat, a: bv32, b: bv32, c: bv32, d: bv32) {
    |x| == 16 && n <= 64 && Steps(x, start, n) == Regs(a, b, c, d)
  }

  lemma AtStart(x: seq<bv32>, start: Regs)
    requires |x| == 16
    ensures At(x, start, 0, start.a, start.b, start.c, start.d)
  {
  }

  ghost predicate Word(x: seq<bv32>, k: nat, w: bv32) {
    |x| == 16 && k < 16 && x[k] == w
  }

  /** Step i takes word k, rotates by s and adds t. */
  ghost predicate Row(i: nat, k: nat, s: nat, t: bv32) {
    i < 64 && Index(i) == k && Shift(i) == s && T(i) == t
  }

  function Sum(mix: bv32, a: bv32, w: bv32, s: nat, t: bv32, b: bv32): bv32 {
    if s <= 32 then Set(a, mix, w, s, t, b) else 0
  }

  lemma Step1(x: seq<bv32>, start: Regs, i: nat, a: bv32, b: bv32, c: bv32, d: bv32, k: nat, w: bv32, s: nat, t: bv32, r: bv32)
    requires 0 <= i < 16 && At(x, start, i, a, b, c, d) && Row(i, k, s, t) && Word(x, k, w)
    requires Sum(F(b, c, d), a, w, s, t, b) == r
    ensures At(x, start, i + 1, d, r, b, c)
  {
    hide Set, F, G, H, I, T, Shift, Index;
  }

  lemma Step2(x: seq<bv32>, start: Regs, i: nat, a: bv32, b: bv32, c: bv32, d: bv32, k: nat, w: bv32, s: nat, t: bv32, r: bv32)
    requires 16 <= i < 32 && At(x, start, i, a, b, c, d) && Row(i, k, s, t) && Word(x, k, w)
    requires Sum(G(b, c, d), a, w, s, t, b) == r
    ensures At(x, start, i + 1, d, r, b, c)
  {
    hide Set, F, G, H, I, T, Shift, Index;
  }

  lemma Step3(x: seq<bv32>, start: Regs, i: nat, a: bv32, b: bv32, c: bv32, d: bv32, k: nat, w: bv32, s: nat, t: bv32, r: bv32)
    requires 32 <= i < 48 && At(x, start, i, a, b, c, d) && Row(i, k, s, t) && Word(x, k, w)
    requires Sum(H(b, c, d), a, w, s, t, b) == r
    ensures At(x, start, i + 1, d, r, b, c)
  {
    hide Set, F, G, H, I, T, Shift, Index;
  }

  lemma Step4(x: seq<bv32>, start: Regs, i: nat, a: bv32, b: bv32, c: bv32, d: bv32, k: nat, w: bv32, s: nat, t: bv32, r: bv32)
    requires 48 <= i < 64 && At(x, start, i, a, b, c, d) && Row(i, k, s, t) && Word(x, k, w)
    requires Sum(I(b, c, d), a, w, s, t, b) == r
    ensures At(x, start, i + 1, d, r, b, c)
  {
    hide Set, F, G, H, I, T, Shift, Index;
  }

  lemma RowsFrom0()
    ensures Row(0, 0, 7, 0xD76A_A478)
    ensures Row(1, 1, 12, 0xE8C7_B756)
    ensures Row(2, 2, 17, 0x2420_70DB)
    ensures Row(3, 3, 22, 0xC1BD_CEEE)
    ensures Row(4, 4, 7, 0xF57C_0FAF)
    ensures Row(5, 5, 12, 0x4787_C62A)
    ensures Row(6, 6, 17, 0xA830_4613)
    ensures Row(7, 7, 22, 0xFD46_9501)
  {
  }

  lemma RowsFrom8()
    ensures Row(8, 8, 7, 0x6980_98D8)
    ensures Row(9, 9, 12, 0x8B44_F7AF)
    ensures Row(10, 10, 17, 0xFFFF_5BB1)
    ensures Row(11, 11, 22, 0x895C_D7BE)
    ensures Row(12, 12, 7, 0x6B90_1122)
    ensures Row(13, 13, 12, 0xFD98_7193)
    ensures Row(14, 14, 17, 0xA679_438E)
    ensures Row(15, 15, 22, 0x49B4_0821)
  {
  }

  lemma RowsFrom16()
    ensures Row(16, 1, 5, 0xF61E_2562)
    ensures Row(17, 6, 9, 0xC040_B340)
    ensures Row(18, 11, 14, 0x265E_5A51)
    ensures Row(19, 0, 20, 0xE9B6_C7AA)
    ensures Row(20, 5, 5, 0xD62F_105D)
    ensures Row(21, 10, 9, 0x0244_1453)
    ensures Row(22, 15, 14, 0xD8A1_E681)
    ensures Row(23, 4, 20, 0xE7D3_FBC8)
  {
  }

  lemma RowsFrom24()
    ensures Row(24, 9, 5, 0x21E1_CDE6)
    ensures Row(25, 14, 9, 0xC337_07D6)
    ensures Row(26, 3, 14, 0xF4D5_0D87)
    ensures Row(27, 8, 20, 0x455A_14ED)
    ensures Row(28, 13, 5, 0xA9E3_E905)
    ensures Row(29, 2, 9, 0xFCEF_A3F8)
    ensures Row(30, 7, 14, 0x676F_02D9)
    ensures Row(31, 12, 20, 0x8D2A_4C8A)
  {
  }

  lemma RowsFrom32()
    ensures Row(32, 5, 4, 0xFFFA_3942)
    ensures Row(33, 8, 11, 0x8771_F681)
    ensures Row(34, 11, 16, 0x6D9D_6122)
    ensures Row(35, 14, 23, 0xFDE5_380C)
    ensures Row(36, 1, 4, 0xA4BE_EA44)
    ensures Row(37, 4, 11, 0x4BDE_CFA9)
    ensures Row(38, 7, 16, 0xF6BB_4B60)
    ensures Row(39, 10, 23, 0xBEBF_BC70)
  {
  }

  lemma RowsFrom40()
    ensures Row(40, 13, 4, 0x289B_7EC6)
    ensures Row(41, 0, 11, 0xEAA1_27FA)
    ensures Row(42, 3, 16, 0xD4EF_3085)
    ensures Row(43, 6, 23, 0x0488_1D05)
    ensures Row(44, 9, 4, 0xD9D4_D039)
    ensures Row(45, 12, 11, 0xE6DB_99E5)
    ensures Row(46, 15, 16, 0x1FA2_7CF8)
    ensures Row(47, 2, 23, 0xC4AC_5665)
  {
  }

  lemma RowsFrom48()
    ensures Row(48, 0, 6, 0xF429_2244)
    ensures Row(49, 7, 10, 0x432A_FF97)
    ensures Row(50, 14, 15, 0xAB94_23A7)
    ensures Row(51, 5, 21, 0xFC93_A039)
    ensures Row(52, 12, 6, 0x655B_59C3)
    ensures Row(53, 3, 10, 0x8F0C_CC92)
    ensures Row(54, 10, 15, 0xFFEF_F47D)
    ensures Row(55, 1, 21, 0x8584_5DD1)
  {
  }

  lemma RowsFrom56()
    ensures Row(56, 8, 6, 0x6FA8_7E4F)
    ensures Row(57, 15, 10, 0xFE2C_E6E0)
    ensures Row(58, 6, 15, 0xA301_4314)
    ensures Row(59, 13, 21, 0x4E08_11A1)
    ensures Row(60, 4, 6, 0xF753_7E82)
    ensures Row(61, 11, 10, 0xBD3A_F235)
    ensures Row(62, 2, 15, 0x2AD7_D2BB)
    ensures Row(63, 9, 21, 0xEB86_D391)
  {
  }

  const EMPTY: seq<bv32> :=
    [0x0000_0080, 0x0000_0000, 0x0000_0000, 0x0000_0000, 0x0000_0000, 0x0000_0000, 0x0000_0000, 0x0000_0000,
     0x0000_0000, 0x0000_0000, 0x0000_0000, 0x0000_0000, 0x0000_0000, 0x0000_0000, 0x0000_0000, 0x0000_0000]

  lemma EmptyWords()
    ensures Word(EMPTY, 0, 0x0000_0080) && Word(EMPTY, 1, 0x0000_0000) && Word(EMPTY, 2, 0x0000_0000) && Word(EMPTY, 3, 0x0000_0000)
    ensures Word(EMPTY, 4, 0x0000_0000) && Word(EMPTY, 5, 0x0000_0000) && Word(EMPTY, 6, 0x0000_0000) && Word(EMPTY, 7, 0x0000_0000)
    ensures Word(EMPTY, 8, 0x0000_0000) && Word(EMPTY, 9, 0x0000_0000) && Word(EMPTY, 10, 0x0000_0000) && Word(EMPTY, 11, 0x0000_0000)
    ensures Word(EMPTY, 12, 0x0000_0000) && Word(EMPTY, 13, 0x0000_0000) && Word(EMPTY, 14, 0x0000_0000) && Word(EMPTY, 15, 0x0000_0000)
  {
  }

  lemma EmptyValues1()
    ensures Sum(F(0xEFCD_AB89, 0x98BA_DCFE, 0x1032_5476), 0x6745_2301, 0x0000_0080, 7, 0xD76A_A478, 0xEFCD_AB89) == 0xA520_2774
    ensures Sum(F(0xA520_2774, 0xEFCD_AB89, 0x98BA_DCFE), 0x1032_5476, 0x0000_0000, 12, 0xE8C7_B756, 0xA520_2774) == 0xF595_92DD
    ensures Sum(F(0xF595_92DD, 0xA520_2774, 0xEFCD_AB89), 0x98BA_DCFE, 0x0000_0000, 17, 0x2420_70DB, 0xF595_92DD) == 0xE7F0_6B23
    ensures Sum(F(0xE7F0_6B23, 0xF595_92DD, 0xA520_2774), 0xEFCD_AB89, 0x0000_0000, 22, 0xC1BD_CEEE, 0xE7F0_6B23) == 0x1B16_3203
    ensures Sum(F(0x1B16_3203, 0xE7F0_6B23, 0xF595_92DD), 0xA520_2774, 0x0000_0000, 7, 0xF57C_0FAF, 0x1B16_3203) == 0x3203_3344
    ensures Sum(F(0x3203_3344, 0x1B16_3203, 0xE7F0_6B23), 0xF595_92DD, 0x0000_0000, 12, 0x4787_C62A, 0x3203_3344) == 0x2F35_D494
    ensures Sum(F(0x2F35_D494, 0x3203_3344, 0x1B16_3203), 0xE7F0_6B23, 0x0000_0000, 17, 0xA830_4613, 0x2F35_D494) == 0xF5B1_58DB
    ensures Sum(F(0xF5B1_58DB, 0x2F35_D494, 0x3203_3344), 0x1B16_3203, 0x0000_0000, 22, 0xFD46_9501, 0xF5B1_58DB) == 0x9BC1_3CE9
    ensures Sum(F(0x9BC1_3CE9, 0xF5B1_58DB, 0x2F35_D494), 0x3203_3344, 0x0000_0000, 7, 0x6980_98D8, 0x9BC1_3CE9) == 0x3893_B991
    ensures Sum(F(0x3893_B991, 0x9BC1_3CE9, 0xF5B1_58DB), 0x2F35_D494, 0x0000_0000, 12, 0x8B44_F7AF, 0x3893_B991) == 0xFCE4_A312
    ensures Sum(F(0xFCE4_A312, 0x3893_B991, 0x9BC1_3CE9), 0xF5B1_58DB, 0x0000_0000, 17, 0xFFFF_5BB1, 0xFCE4_A312) == 0xE1EF_0576
    ensures Sum(F(0xE1EF_0576, 0xFCE4_A312, 0x3893_B991), 0x9BC1_3CE9, 0x0000_0000, 22, 0x895C_D7BE, 0xE1EF_0576) == 0x7076_8A29
    ensures Sum(F(0x7076_8A29, 0xE1EF_0576, 0xFCE4_A312), 0x3893_B991, 0x0000_0000, 7, 0x6B90_1122, 0x7076_8A29) == 0xF56C_7CF1
    ensures Sum(F(0xF56C_7CF1, 0x7076_8A29, 0xE1EF_0576), 0xFCE4_A312, 0x0000_0000, 12, 0xFD98_7193, 0xF56C_7CF1) == 0x3749_43A7
    ensures Sum(F(0x3749_43A7, 0xF56C_7CF1, 0x7076_8A29), 0xE1EF_0576, 0x0000_0000, 17, 0xA679_438E, 0x3749_43A7) == 0x5AA5_3F75
    ensures Sum(F(0x5AA5_3F75, 0x3749_43A7, 0xF56C_7CF1), 0x7076_8A29, 0x0000_0000, 22, 0x49B4_0821, 0x5AA5_3F75) == 0xD681_9C6A
  {
  }

  lemma EmptyValues2()
    ensures Sum(G(0xD681_9C6A, 0x5AA5_3F75, 0x3749_43A7), 0xF56C_7CF1, 0x0000_0000, 5, 0xF61E_2562, 0xD681_9C6A) == 0x1C7D_7513
    ensures Sum(G(0x1C7D_7513, 0xD681_9C6A, 0x5AA5_3F75), 0x3749_43A7, 0x0000_0000, 9, 0xC040_B340, 0x1C7D_7513) == 0x7BD5_7A3A
    ensures Sum(G(0x7BD5_7A3A, 0x1C7D_7513, 0xD681_9C6A), 0x5AA5_3F75, 0x0000_0000, 14, 0x265E_5A51, 0x7BD5_7A3A) == 0xC095_F13A
    ensures Sum(G(0xC095_F13A, 0x7BD5_7A3A, 0x1C7D_7513), 0xD681_9C6A, 0x0000_0080, 20, 0xE9B6_C7AA, 0xC095_F13A) == 0xBD78_2E17
    ensures Sum(G(0xBD78_2E17, 0xC095_F13A, 0x7BD5_7A3A), 0x1C7D_7513, 0x0000_0000, 5, 0xD62F_105D, 0xBD78_2E17) == 0x3D1E_3E6C
    ensures Sum(G(0x3D1E_3E6C, 0xBD78_2E17, 0xC095_F13A), 0x7BD5_7A3A, 0x0000_0000, 9, 0x0244_1453, 0x3D1E_3E6C) == 0x68B7_B3E3
    ensures Sum(G(0x68B7_B3E3, 0x3D1E_3E6C, 0xBD78_2E17), 0xC095_F13A, 0x0000_0000, 14, 0xD8A1_E681, 0x68B7_B3E3) == 0xEB41_643E
    ensures Sum(G(0xEB41_643E, 0x68B7_B3E3, 0x3D1E_3E6C), 0xBD78_2E17, 0x0000_0000, 20, 0xE7D3_FBC8, 0xEB41_643E) == 0xE422_531A
    ensures Sum(G(0xE422_531A, 0xEB41_643E, 0x68B7_B3E3), 0x3D1E_3E6C, 0x0000_0000, 5, 0x21E1_CDE6, 0xE422_531A) == 0x306E_C122
    ensures Sum(G(0x306E_C122, 0xE422_531A, 0xEB41_643E), 0x68B7_B3E3, 0x0000_0000, 9, 0xC337_07D6, 0x306E_C122) == 0xD28C_77C2
    ensures Sum(G(0xD28C_77C2, 0x306E_C122, 0xE422_531A), 0xEB41_643E, 0x0000_0000, 14, 0xF4D5_0D87, 0xD28C_77C2) == 0xA3C6_63DA
    ensures Sum(G(0xA3C6_63DA, 0xD28C_77C2, 0x306E_C122), 0xE422_531A, 0x0000_0000, 20, 0x455A_14ED, 0xA3C6_63DA) == 0xA057_2807
    ensures Sum(G(0xA057_2807, 0xA3C6_63DA, 0xD28C_77C2), 0x306E_C122, 0x0000_0000, 5, 0xA9E3_E905, 0xA057_2807) == 0x1370_7036
    ensures Sum(G(0x1370_7036, 0xA057_2807, 0xA3C6_63DA), 0xD28C_77C2, 0x0000_0000, 9, 0xFCEF_A3F8, 0x1370_7036) == 0xAE78_13DB
    ensures Sum(G(0xAE78_13DB, 0x1370_7036, 0xA057_2807), 0xA3C6_63DA, 0x0000_0000, 14, 0x676F_02D9, 0xAE78_13DB) == 0x1C31_C384
    ensures Sum(G(0x1C31_C384, 0xAE78_13DB, 0x1370_7036), 0xA057_2807, 0x0000_0000, 20, 0x8D2A_4C8A, 0x1C31_C384) == 0xA220_5F1F
  {
  }

  lemma EmptyValues3()
    ensures Sum(H(0xA220_5F1F, 0x1C31_C384, 0xAE78_13DB), 0x1370_7036, 0x0000_0000, 4, 0xFFFA_3942, 0xA220_5F1F) == 0xDF63_EAA1
    ensures Sum(H(0xDF63_EAA1, 0xA220_5F1F, 0x1C31_C384), 0xAE78_13DB, 0x0000_0000, 11, 0x8771_F681, 0xDF63_EAA1) == 0xC368_9F5B
    ensures Sum(H(0xC368_9F5B, 0xDF63_EAA1, 0xA220_5F1F), 0x1C31_C384, 0x0000_0000, 16, 0x6D9D_6122, 0xC368_9F5B) == 0x12F3_E755
    ensures Sum(H(0x12F3_E755, 0xC368_9F5B, 0xDF63_EAA1), 0xA220_5F1F, 0x0000_0000, 23, 0xFDE5_380C, 0x12F3_E755) == 0x004B_6669
    ensures Sum(H(0x004B_6669, 0x12F3_E755, 0xC368_9F5B), 0xDF63_EAA1, 0x0000_0000, 4, 0xA4BE_EA44, 0x004B_6669) == 0x5F7A_9B2E
    ensures Sum(H(0x5F7A_9B2E, 0x004B_6669, 0x12F3_E755), 0xC368_9F5B, 0x0000_0000, 11, 0x4BDE_CFA9, 0x5F7A_9B2E) == 0xABC3_4E16
    ensures Sum(H(0xABC3_4E16, 0x5F7A_9B2E, 0x004B_6669), 0x12F3_E755, 0x0000_0000, 16, 0xF6BB_4B60, 0xABC3_4E16) == 0x91CA_4CB7
    ensures Sum(H(0x91CA_4CB7, 0xABC3_4E16, 0x5F7A_9B2E), 0x004B_6669, 0x0000_0000, 23, 0xBEBF_BC70, 0x91CA_4CB7) == 0xC5DC_8C15
    ensures Sum(H(0xC5DC_8C15, 0x91CA_4CB7, 0xABC3_4E16), 0x5F7A_9B2E, 0x0000_0000, 4, 0x289B_7EC6, 0xC5DC_8C15) == 0x4497_169D
    ensures Sum(H(0x4497_169D, 0xC5DC_8C15, 0x91CA_4CB7), 0xABC3_4E16, 0x0000_0080, 11, 0xEAA1_27FA, 0x4497_169D) == 0x76FD_93D4
    ensures Sum(H(0x76FD_93D4, 0x4497_169D, 0xC5DC_8C15), 0x91CA_4CB7, 0x0000_0000, 16, 0xD4EF_3085, 0x76FD_93D4) == 0xFD95_F243
    ensures Sum(H(0xFD95_F243, 0x76FD_93D4, 0x4497_169D), 0xC5DC_8C15, 0x0000_0000, 23, 0x0488_1D05, 0xFD95_F243) == 0x0FE3_2453
    ensures Sum(H(0x0FE3_2453, 0xFD95_F243, 0x76FD_93D4), 0x4497_169D, 0x0000_0000, 4, 0xD9D4_D039, 0x0FE3_2453) == 0x3F55_EDFD
    ensures Sum(H(0x3F55_EDFD, 0x0FE3_2453, 0xFD95_F243), 0x76FD_93D4, 0x0000_0000, 11, 0xE6DB_99E5, 0x3F55_EDFD) == 0x22A3_1F54
    ensures Sum(H(0x22A3_1F54, 0x3F55_EDFD, 0x0FE3_2453), 0xFD95_F243, 0x0000_0000, 16, 0x1FA2_7CF8, 0x22A3_1F54) == 0x68D8_4EA2
    ensures Sum(H(0x68D8_4EA2, 0x22A3_1F54, 0x3F55_EDFD), 0x0FE3_2453, 0x0000_0000, 23, 0xC4AC_5665, 0x68D8_4EA2) == 0xCA7D_2DBD
  {
  }

  lemma EmptyValues4()
    ensures Sum(I(0xCA7D_2DBD, 0x68D8_4EA2, 0x22A3_1F54), 0x3F55_EDFD, 0x0000_0080, 6, 0xF429_2244, 0xCA7D_2DBD) == 0x93AA_2577
    ensures Sum(I(0x93AA_2577, 0xCA7D_2DBD, 0x68D8_4EA2), 0x22A3_1F54, 0x0000_0000, 10, 0x432A_FF97, 0x93AA_2577) == 0x1688_DC85
    ensures Sum(I(0x1688_DC85, 0x93AA_2577, 0xCA7D_2DBD), 0x68D8_4EA2, 0x0000_0000, 15, 0xAB94_23A7, 0x1688_DC85) == 0xCD85_B8CB
    ensures Sum(I(0xCD85_B8CB, 0x1688_DC85, 0x93AA_2577), 0xCA7D_2DBD, 0x0000_0000, 21, 0xFC93_A039, 0xCD85_B8CB) == 0x561E_0689
    ensures Sum(I(0x561E_0689, 0xCD85_B8CB, 0x1688_DC85), 0x93AA_2577, 0x0000_0000, 6, 0x655B_59C3, 0x561E_0689) == 0x5625_A114
    ensures Sum(I(0x5625_A114, 0x561E_0689, 0xCD85_B8CB), 0x1688_DC85, 0x0000_0000, 10, 0x8F0C_CC92, 0x5625_A114) == 0x3450_F42B
    ensures Sum(I(0x3450_F42B, 0x5625_A114, 0x561E_0689), 0xCD85_B8CB, 0x0000_0000, 15, 0xFFEF_F47D, 0x3450_F42B) == 0x392A_D0D0
    ensures Sum(I(0x392A_D0D0, 0x3450_F42B, 0x5625_A114), 0x561E_0689, 0x0000_0000, 21, 0x8584_5DD1, 0x392A_D0D0) == 0x1E77_FA61
    ensures Sum(I(0x1E77_FA61, 0x392A_D0D0, 0x3450_F42B), 0x5625_A114, 0x0000_0000, 6, 0x6FA8_7E4F, 0x1E77_FA61) == 0x474A_9C8C
    ensures Sum(I(0x474A_9C8C, 0x1E77_FA61, 0x392A_D0D0), 0x3450_F42B, 0x0000_0000, 10, 0xFE2C_E6E0, 0x474A_9C8C) == 0xDFCE_00BC
    ensures Sum(I(0xDFCE_00BC, 0x474A_9C8C, 0x1E77_FA61), 0x392A_D0D0, 0x0000_0000, 15, 0xA301_4314, 0xDFCE_00BC) == 0x3659_4B14
    ensures Sum(I(0x3659_4B14, 0xDFCE_00BC, 0x474A_9C8C), 0x1E77_FA61, 0x0000_0000, 21, 0x4E08_11A1, 0x3659_4B14) == 0x3013_0182
    ensures Sum(I(0x3013_0182, 0x3659_4B14, 0xDFCE_00BC), 0x474A_9C8C, 0x0000_0000, 6, 0xF753_7E82, 0x3013_0182) == 0x7246_FAD3
    ensures Sum(I(0x7246_FAD3, 0x3013_0182, 0x3659_4B14), 0xDFCE_00BC, 0x0000_0000, 10, 0xBD3A_F235, 0x7246_FAD3) == 0x6E10_A476
    ensures Sum(I(0x6E10_A476, 0x7246_FAD3, 0x3013_0182), 0x3659_4B14, 0x0000_0000, 15, 0x2AD7_D2BB, 0x6E10_A476) == 0xFF4E_A3EB
    ensures Sum(I(0xFF4E_A3EB, 0x6E10_A476, 0x7246_FAD3), 0x3013_0182, 0x0000_0000, 21, 0xEB86_D391, 0xFF4E_A3EB) == 0x14E4_5506
  {
  }

  lemma EmptyRound1()
    requires At(EMPTY, INIT, 0, 0x6745_2301, 0xEFCD_AB89, 0x98BA_DCFE, 0x1032_5476)
    ensures At(EMPTY, INIT, 16, 0xF56C_7CF1, 0xD681_9C6A, 0x5AA5_3F75, 0x3749_43A7)
  {
    hide *;
    RowsFrom0();
    RowsFrom8();
    EmptyWords();
    EmptyValues1();
    Step1(EMPTY, INIT, 0, 0x6745_2301, 0xEFCD_AB89, 0x98BA_DCFE, 0x1032_5476, 0, 0x0000_0080, 7, 0xD76A_A478, 0xA520_2774);
    Step1(EMPTY, INIT, 1, 0x1032_5476, 0xA520_2774, 0xEFCD_AB89, 0x98BA_DCFE, 1, 0x0000_0000, 12, 0xE8C7_B756, 0xF595_92DD);
    Step1(EMPTY, INIT, 2, 0x98BA_DCFE, 0xF595_92DD, 0xA520_2774, 0xEFCD_AB89, 2, 0x0000_0000, 17, 0x2420_70DB, 0xE7F0_6B23);
    Step1(EMPTY, INIT, 3, 0xEFCD_AB89, 0xE7F0_6B23, 0xF595_92DD, 0xA520_2774, 3, 0x0000_0000, 22, 0xC1BD_CEEE, 0x1B16_3203);
    Step1(EMPTY, INIT, 4, 0xA520_2774, 0x1B16_3203, 0xE7F0_6B23, 0xF595_92DD, 4, 0x0000_0000, 7, 0xF57C_0FAF, 0x3203_3344);
    Step1(EMPTY, INIT, 5, 0xF595_92DD, 0x3203_3344, 0x1B16_3203, 0xE7F0_6B23, 5, 0x0000_0000, 12, 0x4787_C62A, 0x2F35_D494);
    Step1(EMPTY, INIT, 6, 0xE7F0_6B23, 0x2F35_D494, 0x3203_3344, 0x1B16_3203, 6, 0x0000_0000, 17, 0xA830_4613, 0xF5B1_58DB);
    Step1(EMPTY, INIT, 7, 0x1B16_3203, 0xF5B1_58DB, 0x2F35_D494, 0x3203_3344, 7, 0x0000_0000, 22, 0xFD46_9501, 0x9BC1_3CE9);
    Step1(EMPTY, INIT, 8, 0x3203_3344, 0x9BC1_3CE9, 0xF5B1_58DB, 0x2F35_D494, 8, 0x0000_0000, 7, 0x6980_98D8, 0x3893_B991);
    Step1(EMPTY, INIT, 9, 0x2F35_D494, 0x3893_B991, 0x9BC1_3CE9, 0xF5B1_58DB, 9, 0x0000_0000, 12, 0x8B44_F7AF, 0xFCE4_A312);
    Step1(EMPTY, INIT, 10, 0xF5B1_58DB, 0xFCE4_A312, 0x3893_B991, 0x9BC1_3CE9, 10, 0x0000_0000, 17, 0xFFFF_5BB1, 0xE1EF_0576);
    Step1(EMPTY, INIT, 11, 0x9BC1_3CE9, 0xE1EF_0576, 0xFCE4_A312, 0x3893_B991, 11, 0x0000_0000, 22, 0x895C_D7BE, 0x7076_8A29);
    Step1(EMPTY, INIT, 12, 0x3893_B991, 0x7076_8A29, 0xE1EF_0576, 0xFCE4_A312, 12, 0x0000_0000, 7, 0x6B90_1122, 0xF56C_7CF1);
    Step1(EMPTY, INIT, 13, 0xFCE4_A312, 0xF56C_7CF1, 0x7076_8A29, 0xE1EF_0576, 13, 0x0000_0000, 12, 0xFD98_7193, 0x3749_43A7);
    Step1(EMPTY, INIT, 14, 0xE1EF_0576, 0x3749_43A7, 0xF56C_7CF1, 0x7076_8A29, 14, 0x0000_0000, 17, 0xA679_438E, 0x5AA5_3F75);
    Step1(EMPTY, INIT, 15, 0x7076_8A29, 0x5AA5_3F75, 0x3749_43A7, 0xF56C_7CF1, 15, 0x0000_0000, 22, 0x49B4_0821, 0xD681_9C6A);
  }

  lemma EmptyRound2()
    requires At(EMPTY, INIT, 16, 0xF56C_7CF1, 0xD681_9C6A, 0x5AA5_3F75, 0x3749_43A7)
    ensures At(EMPTY, INIT, 32, 0x1370_7036, 0xA220_5F1F, 0x1C31_C384, 0xAE78_13DB)
  {
    hide *;
    RowsFrom16();
    RowsFrom24();
    EmptyWords();
    EmptyValues2();
    Step2(EMPTY, INIT, 16, 0xF56C_7CF1, 0xD681_9C6A, 0x5AA5_3F75, 0x3749_43A7, 1, 0x0000_0000, 5, 0xF61E_2562, 0x1C7D_7513);
    Step2(EMPTY, INIT, 17, 0x3749_43A7, 0x1C7D_7513, 0xD681_9C6A, 0x5AA5_3F75, 6, 0x0000_0000, 9, 0xC040_B340, 0x7BD5_7A3A);
    Step2(EMPTY, INIT, 18, 0x5AA5_3F75, 0x7BD5_7A3A, 0x1C7D_7513, 0xD681_9C6A, 11, 0x0000_0000, 14, 0x265E_5A51, 0xC095_F13A);
    Step2(EMPTY, INIT, 19, 0xD681_9C6A, 0xC095_F13A, 0x7BD5_7A3A, 0x1C7D_7513, 0, 0x0000_0080, 20, 0xE9B6_C7AA, 0xBD78_2E17);
    Step2(EMPTY, INIT, 20, 0x1C7D_7513, 0xBD78_2E17, 0xC095_F13A, 0x7BD5_7A3A, 5, 0x0000_0000, 5, 0xD62F_105D, 0x3D1E_3E6C);
    Step2(EMPTY, INIT, 21, 0x7BD5_7A3A, 0x3D1E_3E6C, 0xBD78_2E17, 0xC095_F13A, 10, 0x0000_0000, 9, 0x0244_1453, 0x68B7_B3E3);
    Step2(EMPTY, INIT, 22, 0xC095_F13A, 0x68B7_B3E3, 0x3D1E_3E6C, 0xBD78_2E17, 15, 0x0000_0000, 14, 0xD8A1_E681, 0xEB41_643E);
    Step2(EMPTY, INIT, 23, 0xBD78_2E17, 0xEB41_643E, 0x68B7_B3E3, 0x3D1E_3E6C, 4, 0x0000_0000, 20, 0xE7D3_FBC8, 0xE422_531A);
    Step2(EMPTY, INIT, 24, 0x3D1E_3E6C, 0xE422_531A, 0xEB41_643E, 0x68B7_B3E3, 9, 0x0000_0000, 5, 0x21E1_CDE6, 0x306E_C122);
    Step2(EMPTY, INIT, 25, 0x68B7_B3E3, 0x306E_C122, 0xE422_531A, 0xEB41_643E, 14, 0x0000_0000, 9, 0xC337_07D6, 0xD28C_77C2);
    Step2(EMPTY, INIT, 26, 0xEB41_643E, 0xD28C_77C2, 0x306E_C122, 0xE422_531A, 3, 0x0000_0000, 14, 0xF4D5_0D87, 0xA3C6_63DA);
    Step2(EMPTY, INIT, 27, 0xE422_531A, 0xA3C6_63DA, 0xD28C_77C2, 0x306E_C122, 8, 0x0000_0000, 20, 0x455A_14ED, 0xA057_2807);
    Step2(EMPTY, INIT, 28, 0x306E_C122, 0xA057_2807, 0xA3C6_63DA, 0xD28C_77C2, 13, 0x0000_0000, 5, 0xA9E3_E905, 0x1370_7036);
    Step2(EMPTY, INIT, 29, 0xD28C_77C2, 0x1370_7036, 0xA057_2807, 0xA3C6_63DA, 2, 0x0000_0000, 9, 0xFCEF_A3F8, 0xAE78_13DB);
    Step2(EMPTY, INIT, 30, 0xA3C6_63DA, 0xAE78_13DB, 0x1370_7036, 0xA057_2807, 7, 0x0000_0000, 14, 0x676F_02D9, 0x1C31_C384);
    Step2(EMPTY, INIT, 31, 0xA057_2807, 0x1C31_C384, 0xAE78_13DB, 0x1370_7036, 12, 0x0000_0000, 20, 0x8D2A_4C8A, 0xA220_5F1F);
  }

  lemma EmptyRound3()
    requires At(EMPTY, INIT, 32, 0x1370_7036, 0xA220_5F1F, 0x1C31_C384, 0xAE78_13DB)
    ensures At(EMPTY, INIT, 48, 0x3F55_EDFD, 0xCA7D_2DBD, 0x68D8_4EA2, 0x22A3_1F54)
  {
    hide *;
    RowsFrom32();
    RowsFrom40();
    EmptyWords();
    EmptyValues3();
    Step3(EMPTY, INIT, 32, 0x1370_7036, 0xA220_5F1F, 0x1C31_C384, 0xAE78_13DB, 5, 0x0000_0000, 4, 0xFFFA_3942, 0xDF63_EAA1);
    Step3(EMPTY, INIT, 33, 0xAE78_13DB, 0xDF63_EAA1, 0xA220_5F1F, 0x1C31_C384, 8, 0x0000_0000, 11, 0x8771_F681, 0xC368_9F5B);
    Step3(EMPTY, INIT, 34, 0x1C31_C384, 0xC368_9F5B, 0xDF63_EAA1, 0xA220_5F1F, 11, 0x0000_0000, 16, 0x6D9D_6122, 0x12F3_E755);
    Step3(EMPTY, INIT, 35, 0xA220_5F1F, 0x12F3_E755, 0xC368_9F5B, 0xDF63_EAA1, 14, 0x0000_0000, 23, 0xFDE5_380C, 0x004B_6669);
    Step3(EMPTY, INIT, 36, 0xDF63_EAA1, 0x004B_6669, 0x12F3_E755, 0xC368_9F5B, 1, 0x0000_0000, 4, 0xA4BE_EA44, 0x5F7A_9B2E);
    Step3(EMPTY, INIT, 37, 0xC368_9F5B, 0x5F7A_9B2E, 0x004B_6669, 0x12F3_E755, 4, 0x0000_0000, 11, 0x4BDE_CFA9, 0xABC3_4E16);
    Step3(EMPTY, INIT, 38, 0x12F3_E755, 0xABC3_4E16, 0x5F7A_9B2E, 0x004B_6669, 7, 0x0000_0000, 16, 0xF6BB_4B60, 0x91CA_4CB7);
    Step3(EMPTY, INIT, 39, 0x004B_6669, 0x91CA_4CB7, 0xABC3_4E16, 0x5F7A_9B2E, 10, 0x0000_0000, 23, 0xBEBF_BC70, 0xC5DC_8C15);
    Step3(EMPTY, INIT, 40, 0x5F7A_9B2E, 0xC5DC_8C15, 0x91CA_4CB7, 0xABC3_4E16, 13, 0x0000_0000, 4, 0x289B_7EC6, 0x4497_169D);
    Step3(EMPTY, INIT, 41, 0xABC3_4E16, 0x4497_169D, 0xC5DC_8C15, 0x91CA_4CB7, 0, 0x0000_0080, 11, 0xEAA1_27FA, 0x76FD_93D4);
    Step3(EMPTY, INIT, 42, 0x91CA_4CB7, 0x76FD_93D4, 0x4497_169D, 0xC5DC_8C15, 3, 0x0000_0000, 16, 0xD4EF_3085, 0xFD95_F243);
    Step3(EMPTY, INIT, 43, 0xC5DC_8C15, 0xFD95_F243, 0x76FD_93D4, 0x4497_169D, 6, 0x0000_0000, 23, 0x0488_1D05, 0x0FE3_2453);
    Step3(EMPTY, INIT, 44, 0x4497_169D, 0x0FE3_2453, 0xFD95_F243, 0x76FD_93D4, 9, 0x0000_0000, 4, 0xD9D4_D039, 0x3F55_EDFD);
    Step3(EMPTY, INIT, 45, 0x76FD_93D4, 0x3F55_EDFD, 0x0FE3_2453, 0xFD95_F243, 12, 0x0000_0000, 11, 0xE6DB_99E5, 0x22A3_1F54);
    Step3(EMPTY, INIT, 46, 0xFD95_F243, 0x22A3_1F54, 0x3F55_EDFD, 0x0FE3_2453, 15, 0x0000_0000, 16, 0x1FA2_7CF8, 0x68D8_4EA2);
    Step3(EMPTY, INIT, 47, 0x0FE3_2453, 0x68D8_4EA2, 0x22A3_1F54, 0x3F55_EDFD, 2, 0x0000_0000, 23, 0xC4AC_5665, 0xCA7D_2DBD);
  }

  lemma EmptyRound4()
    requires At(EMPTY, INIT, 48, 0x3F55_EDFD, 0xCA7D_2DBD, 0x68D8_4EA2, 0x22A3_1F54)
    ensures At(EMPTY, INIT, 64, 0x7246_FAD3, 0x14E4_5506, 0xFF4E_A3EB, 0x6E10_A476)
  {
    hide *;
    RowsFrom48();
    RowsFrom56();
    EmptyWords();
    EmptyValues4();
    Step4(EMPTY, INIT, 48, 0x3F55_EDFD, 0xCA7D_2DBD, 0x68D8_4EA2, 0x22A3_1F54, 0, 0x0000_0080, 6, 0xF429_2244, 0x93AA_2577);
    Step4(EMPTY, INIT, 49, 0x22A3_1F54, 0x93AA_2577, 0xCA7D_2DBD, 0x68D8_4EA2, 7, 0x0000_0000, 10, 0x432A_FF97, 0x1688_DC85);
    Step4(EMPTY, INIT, 50, 0x68D8_4EA2, 0x1688_DC85, 0x93AA_2577, 0xCA7D_2DBD, 14, 0x0000_0000, 15, 0xAB94_23A7, 0xCD85_B8CB);
    Step4(EMPTY, INIT, 51, 0xCA7D_2DBD, 0xCD85_B8CB, 0x1688_DC85, 0x93AA_2577, 5, 0x0000_0000, 21, 0xFC93_A039, 0x561E_0689);
    Step4(EMPTY, INIT, 52, 0x93AA_2577, 0x561E_0689, 0xCD85_B8CB, 0x1688_DC85, 12, 0x0000_0000, 6, 0x655B_59C3, 0x5625_A114);
    Step4(EMPTY, INIT, 53, 0x1688_DC85, 0x5625_A114, 0x561E_0689, 0xCD85_B8CB, 3, 0x0000_0000, 10, 0x8F0C_CC92, 0x3450_F42B);
    Step4(EMPTY, INIT, 54, 0xCD85_B8CB, 0x3450_F42B, 0x5625_A114, 0x561E_0689, 10, 0x0000_0000, 15, 0xFFEF_F47D, 0x392A_D0D0);
    Step4(EMPTY, INIT, 55, 0x561E_0689, 0x392A_D0D0, 0x3450_F42B, 0x5625_A114, 1, 0x0000_0000, 21, 0x8584_5DD1, 0x1E77_FA61);
    Step4(EMPTY, INIT, 56, 0x5625_A114, 0x1E77_FA61, 0x392A_D0D0, 0x3450_F42B, 8, 0x0000_0000, 6, 0x6FA8_7E4F, 0x474A_9C8C);
    Step4(EMPTY, INIT, 57, 0x3450_F42B, 0x474A_9C8C, 0x1E77_FA61, 0x392A_D0D0, 15, 0x0000_0000, 10, 0xFE2C_E6E0, 0xDFCE_00BC);
    Step4(EMPTY, INIT, 58, 0x392A_D0D0, 0xDFCE_00BC, 0x474A_9C8C, 0x1E77_FA61, 6, 0x0000_0000, 15, 0xA301_4314, 0x3659_4B14);
    Step4(EMPTY, INIT, 59, 0x1E77_FA61, 0x3659_4B14, 0xDFCE_00BC, 0x474A_9C8C, 13, 0x0000_0000, 21, 0x4E08_11A1, 0x3013_0182);
    Step4(EMPTY, INIT, 60, 0x474A_9C8C, 0x3013_0182, 0x3659_4B14, 0xDFCE_00BC, 4, 0x0000_0000, 6, 0xF753_7E82, 0x7246_FAD3);
    Step4(EMPTY, INIT, 61, 0xDFCE_00BC, 0x7246_FAD3, 0x3013_0182, 0x3659_4B14, 11, 0x0000_0000, 10, 0xBD3A_F235, 0x6E10_A476);
    Step4(EMPTY, INIT, 62, 0x3659_4B14, 0x6E10_A476, 0x7246_FAD3, 0x3013_0182, 2, 0x0000_0000, 15, 0x2AD7_D2BB, 0xFF4E_A3EB);
    Step4(EMPTY, INIT, 63, 0x3013_0182, 0xFF4E_A3EB, 0x6E10_A476, 0x7246_FAD3, 9, 0x0000_0000, 21, 0xEB86_D391, 0x14E4_5506);
  }

  lemma EmptyBlock()
    ensures Plus(INIT, Steps(EMPTY, INIT, 64)) == Regs(0xD98C_1DD4, 0x04B2_008F, 0x9809_80E9, 0x7E42_F8EC)
  {
    AtStart(EMPTY, INIT);
    EmptyRound1();
    EmptyRound2();
    EmptyRound3();
    EmptyRound4();
  }

  const ABC: seq<bv32> :=
    [0x8063_6261, 0x0000_0000, 0x0000_0000, 0x0000_0000, 0x0000_0000, 0x0000_0000, 0x0000_0000, 0x0000_0000,
     0x0000_0000, 0x0000_0000, 0x0000_0000, 0x0000_0000, 0x0000_0000, 0x0000_0000, 0x0000_0018, 0x0000_0000]

  lemma AbcWords()
    ensures Word(ABC, 0, 0x8063_6261) && Word(ABC, 1, 0x0000_0000) && Word(ABC, 2, 0x0000_0000) && Word(ABC, 3, 0x0000_0000)
    ensures Word(ABC, 4, 0x0000_0000) && Word(ABC, 5, 0x0000_0000) && Word(ABC, 6, 0x0000_0000) && Word(ABC, 7, 0x0000_0000)
    ensures Word(ABC, 8, 0x0000_0000) && Word(ABC, 9, 0x0000_0000) && Word(ABC, 10, 0x0000_0000) && Word(ABC, 11, 0x0000_0000)
    ensures Word(ABC, 12, 0x0000_0000) && Word(ABC, 13, 0x0000_0000) && Word(ABC, 14, 0x0000_0018) && Word(ABC, 15, 0x0000_0000)
  {
  }

  lemma AbcValues1()
    ensures Sum(F(0xEFCD_AB89, 0x98BA_DCFE, 0x1032_5476), 0x6745_2301, 0x8063_6261, 7, 0xD76A_A478, 0xEFCD_AB89) == 0xD6D1_17B4
    ensures Sum(F(0xD6D1_17B4, 0xEFCD_AB89, 0x98BA_DCFE), 0x1032_5476, 0x0000_0000, 12, 0xE8C7_B756, 0xD6D1_17B4) == 0x344A_8432
    ensures Sum(F(0x344A_8432, 0xD6D1_17B4, 0xEFCD_AB89), 0x98BA_DCFE, 0x0000_0000, 17, 0x2420_70DB, 0x344A_8432) == 0x2F6F_BD72
    ensures Sum(F(0x2F6F_BD72, 0x344A_8432, 0xD6D1_17B4), 0xEFCD_AB89, 0x0000_0000, 22, 0xC1BD_CEEE, 0x2F6F_BD72) == 0x7AD9_56F2
    ensures Sum(F(0x7AD9_56F2, 0x2F6F_BD72, 0x344A_8432), 0xD6D1_17B4, 0x0000_0000, 7, 0xF57C_0FAF, 0x7AD9_56F2) == 0xC737_41EF
    ensures Sum(F(0xC737_41EF, 0x7AD9_56F2, 0x2F6F_BD72), 0x344A_8432, 0x0000_0000, 12, 0x4787_C62A, 0xC737_41EF) == 0x8BAC_3051
    ensures Sum(F(0x8BAC_3051, 0xC737_41EF, 0x7AD9_56F2), 0x2F6F_BD72, 0x0000_0000, 17, 0xA830_4613, 0x8BAC_3051) == 0x207D_C67B
    ensures Sum(F(0x207D_C67B, 0x8BAC_3051, 0xC737_41EF), 0x7AD9_56F2, 0x0000_0000, 22, 0xFD46_9501, 0x207D_C67B) == 0x928D_99F6
    ensures Sum(F(0x928D_99F6, 0x207D_C67B, 0x8BAC_3051), 0xC737_41EF, 0x0000_0000, 7, 0x6980_98D8, 0x928D_99F6) == 0x854B_3712
    ensures Sum(F(0x854B_3712, 0x928D_99F6, 0x207D_C67B), 0x8BAC_3051, 0x0000_0000, 12, 0x8B44_F7AF, 0x854B_3712) == 0x74E2_F284
    ensures Sum(F(0x74E2_F284, 0x854B_3712, 0x928D_99F6), 0x207D_C67B, 0x0000_0000, 17, 0xFFFF_5BB1, 0x74E2_F284) == 0x3020_401C
    ensures Sum(F(0x3020_401C, 0x74E2_F284, 0x854B_3712), 0x928D_99F6, 0x0000_0000, 22, 0x895C_D7BE, 0x3020_401C) == 0x5ED4_9596
    ensures Sum(F(0x5ED4_9596, 0x3020_401C, 0x74E2_F284), 0x854B_3712, 0x0000_0000, 7, 0x6B90_1122, 0x5ED4_9596) == 0xDDA9_B9A6
    ensures Sum(F(0xDDA9_B9A6, 0x5ED4_9596, 0x3020_401C), 0x74E2_F284, 0x0000_0000, 12, 0xFD98_7193, 0xDDA9_B9A6) == 0xA105_1895
    ensures Sum(F(0xA105_1895, 0xDDA9_B9A6, 0x5ED4_9596), 0x3020_401C, 0x0000_0018, 17, 0xA679_438E, 0xA105_1895) == 0xE396_856B
    ensures Sum(F(0xE396_856B, 0xA105_1895, 0xDDA9_B9A6), 0x5ED4_9596, 0x0000_0000, 22, 0x49B4_0821, 0xE396_856B) == 0x72AF_F2E0
  {
  }

  lemma AbcValues2()
    ensures Sum(G(0x72AF_F2E0, 0xE396_856B, 0xA105_1895), 0xDDA9_B9A6, 0x0000_0000, 5, 0xF61E_2562, 0x72AF_F2E0) == 0x3E9E_9126
    ensures Sum(G(0x3E9E_9126, 0x72AF_F2E0, 0xE396_856B), 0xA105_1895, 0x0000_0000, 9, 0xC040_B340, 0x3E9E_9126) == 0x4A1D_804E
    ensures Sum(G(0x4A1D_804E, 0x3E9E_9126, 0x72AF_F2E0), 0xE396_856B, 0x0000_0000, 14, 0x265E_5A51, 0x4A1D_804E) == 0xE25E_1652
    ensures Sum(G(0xE25E_1652, 0x4A1D_804E, 0x3E9E_9126), 0x72AF_F2E0, 0x8063_6261, 20, 0xE9B6_C7AA, 0xE25E_1652) == 0xB5B2_04E4
    ensures Sum(G(0xB5B2_04E4, 0xE25E_1652, 0x4A1D_804E), 0x3E9E_9126, 0x0000_0000, 5, 0xD62F_105D, 0xB5B2_04E4) == 0x59A8_FFDA
    ensures Sum(G(0x59A8_FFDA, 0xB5B2_04E4, 0xE25E_1652), 0x4A1D_804E, 0x0000_0000, 9, 0x0244_1453, 0x59A8_FFDA) == 0x6D00_2F1E
    ensures Sum(G(0x6D00_2F1E, 0x59A8_FFDA, 0xB5B2_04E4), 0xE25E_1652, 0x0000_0000, 14, 0xD8A1_E681, 0x6D00_2F1E) == 0xABFC_7920
    ensures Sum(G(0xABFC_7920, 0x6D00_2F1E, 0x59A8_FFDA), 0xB5B2_04E4, 0x0000_0000, 20, 0xE7D3_FBC8, 0xABFC_7920) == 0x4709_2C07
    ensures Sum(G(0x4709_2C07, 0xABFC_7920, 0x6D00_2F1E), 0x59A8_FFDA, 0x0000_0000, 5, 0x21E1_CDE6, 0x4709_2C07) == 0xB7F2_68CF
    ensures Sum(G(0xB7F2_68CF, 0x4709_2C07, 0xABFC_7920), 0x6D00_2F1E, 0x0000_0018, 9, 0xC337_07D6, 0xB7F2_68CF) == 0x0938_8EFF
    ensures Sum(G(0x0938_8EFF, 0xB7F2_68CF, 0x4709_2C07), 0xABFC_7920, 0x0000_0000, 14, 0xF4D5_0D87, 0x0938_8EFF) == 0xFE16_23B1
    ensures Sum(G(0xFE16_23B1, 0x0938_8EFF, 0xB7F2_68CF), 0x4709_2C07, 0x0000_0000, 20, 0x455A_14ED, 0xFE16_23B1) == 0x786A_CB8F
    ensures Sum(G(0x786A_CB8F, 0xFE16_23B1, 0x0938_8EFF), 0xB7F2_68CF, 0x0000_0000, 5, 0xA9E3_E905, 0x786A_CB8F) == 0x790A_77FB
    ensures Sum(G(0x790A_77FB, 0x786A_CB8F, 0xFE16_23B1), 0x0938_8EFF, 0x0000_0000, 9, 0xFCEF_A3F8, 0x790A_77FB) == 0x9F47_E4F8
    ensures Sum(G(0x9F47_E4F8, 0x790A_77FB, 0x786A_CB8F), 0xFE16_23B1, 0x0000_0000, 14, 0x676F_02D9, 0x9F47_E4F8) == 0xA628_84AA
    ensures Sum(G(0xA628_84AA, 0x9F47_E4F8, 0x790A_77FB), 0x786A_CB8F, 0x0000_0000, 20, 0x8D2A_4C8A, 0xA628_84AA) == 0x7263_42D3
  {
  }

  lemma AbcValues3()
    ensures Sum(H(0x7263_42D3, 0xA628_84AA, 0x9F47_E4F8), 0x790A_77FB, 0x0000_0000, 4, 0xFFFA_3942, 0x7263_42D3) == 0xB370_7EBF
    ensures Sum(H(0xB370_7EBF, 0x7263_42D3, 0xA628_84AA), 0x9F47_E4F8, 0x0000_0000, 11, 0x8771_F681, 0xB370_7EBF) == 0x6012_7B2E
    ensures Sum(H(0x6012_7B2E, 0xB370_7EBF, 0x7263_42D3), 0xA628_84AA, 0x0000_0000, 16, 0x6D9D_6122, 0x6012_7B2E) == 0x8D21_2FF5
    ensures Sum(H(0x8D21_2FF5, 0x6012_7B2E, 0xB370_7EBF), 0x7263_42D3, 0x0000_0018, 23, 0xFDE5_380C, 0x8D21_2FF5) == 0x3B08_75C7
    ensures Sum(H(0x3B08_75C7, 0x8D21_2FF5, 0x6012_7B2E), 0xB370_7EBF, 0x0000_0000, 4, 0xA4BE_EA44, 0x3B08_75C7) == 0x21B1_17B9
    ensures Sum(H(0x21B1_17B9, 0x3B08_75C7, 0x8D21_2FF5), 0x6012_7B2E, 0x0000_0000, 11, 0x4BDE_CFA9, 0x21B1_17B9) == 0x6E74_29D5
    ensures Sum(H(0x6E74_29D5, 0x21B1_17B9, 0x3B08_75C7), 0x8D21_2FF5, 0x0000_0000, 16, 0xF6BB_4B60, 0x6E74_29D5) == 0x3575_227E
    ensures Sum(H(0x3575_227E, 0x6E74_29D5, 0x21B1_17B9), 0x3B08_75C7, 0x0000_0000, 23, 0xBEBF_BC70, 0x3575_227E) == 0x5A2F_5EA5
    ensures Sum(H(0x5A2F_5EA5, 0x3575_227E, 0x6E74_29D5), 0x21B1_17B9, 0x0000_0000, 4, 0x289B_7EC6, 0x5A2F_5EA5) == 0x11DE_1779
    ensures Sum(H(0x11DE_1779, 0x5A2F_5EA5, 0x3575_227E), 0x6E74_29D5, 0x8063_6261, 11, 0xEAA1_27FA, 0x11DE_1779) == 0xFADC_AA38
    ensures Sum(H(0xFADC_AA38, 0x11DE_1779, 0x5A2F_5EA5), 0x3575_227E, 0x0000_0000, 16, 0xD4EF_3085, 0xFADC_AA38) == 0x31C4_65CA
    ensures Sum(H(0x31C4_65CA, 0xFADC_AA38, 0x11DE_1779), 0x5A2F_5EA5, 0x0000_0000, 23, 0x0488_1D05, 0x31C4_65CA) == 0x4C61_24F4
    ensures Sum(H(0x4C61_24F4, 0x31C4_65CA, 0xFADC_AA38), 0x11DE_1779, 0x0000_0000, 4, 0xD9D4_D039, 0x4C61_24F4) == 0x7F2E_507B
    ensures Sum(H(0x7F2E_507B, 0x4C61_24F4, 0x31C4_65CA), 0xFADC_AA38, 0x0000_0000, 11, 0xE6DB_99E5, 0x7F2E_507B) == 0x99D9_679D
    ensures Sum(H(0x99D9_679D, 0x7F2E_507B, 0x4C61_24F4), 0x31C4_65CA, 0x0000_0000, 16, 0x1FA2_7CF8, 0x99D9_679D) == 0x8FAE_6399
    ensures Sum(H(0x8FAE_6399, 0x99D9_679D, 0x7F2E_507B), 0x4C61_24F4, 0x0000_0000, 23, 0xC4AC_5665, 0x8FAE_6399) == 0x7BEB_9700
  {
  }

  lemma AbcValues4()
    ensures Sum(I(0x7BEB_9700, 0x8FAE_6399, 0x99D9_679D), 0x7F2E_507B, 0x8063_6261, 6, 0xF429_2244, 0x7BEB_9700) == 0x7B20_1DF8
    ensures Sum(I(0x7B20_1DF8, 0x7BEB_9700, 0x8FAE_6399), 0x99D9_679D, 0x0000_0000, 10, 0x432A_FF97, 0x7B20_1DF8) == 0xF4E8_E96E
    ensures Sum(I(0xF4E8_E96E, 0x7B20_1DF8, 0x7BEB_9700), 0x8FAE_6399, 0x0000_0018, 15, 0xAB94_23A7, 0xF4E8_E96E) == 0xB298_CEFD
    ensures Sum(I(0xB298_CEFD, 0xF4E8_E96E, 0x7B20_1DF8), 0x7BEB_9700, 0x0000_0000, 21, 0xFC93_A039, 0xB298_CEFD) == 0x8BF0_25C4
    ensures Sum(I(0x8BF0_25C4, 0xB298_CEFD, 0xF4E8_E96E), 0x7B20_1DF8, 0x0000_0000, 6, 0x655B_59C3, 0x8BF0_25C4) == 0x06CC_5E8A
    ensures Sum(I(0x06CC_5E8A, 0x8BF0_25C4, 0xB298_CEFD), 0xF4E8_E96E, 0x0000_0000, 10, 0x8F0C_CC92, 0x06CC_5E8A) == 0x5B0D_97AA
    ensures Sum(I(0x5B0D_97AA, 0x06CC_5E8A, 0x8BF0_25C4), 0xB298_CEFD, 0x0000_0000, 15, 0xFFEF_F47D, 0x5B0D_97AA) == 0x7D63_2DD0
    ensures Sum(I(0x7D63_2DD0, 0x5B0D_97AA, 0x06CC_5E8A), 0x8BF0_25C4, 0x0000_0000, 21, 0x8584_5DD1, 0x7D63_2DD0) == 0x3BFA_2C27
    ensures Sum(I(0x3BFA_2C27, 0x7D63_2DD0, 0x5B0D_97AA), 0x06CC_5E8A, 0x0000_0000, 6, 0x6FA8_7E4F, 0x3BFA_2C27) == 0x7F81_CC35
    ensures Sum(I(0x7F81_CC35, 0x3BFA_2C27, 0x7D63_2DD0), 0x5B0D_97AA, 0x0000_0000, 10, 0xFE2C_E6E0, 0x7F81_CC35) == 0x0944_54AB
    ensures Sum(I(0x0944_54AB, 0x7F81_CC35, 0x3BFA_2C27), 0x7D63_2DD0, 0x0000_0000, 15, 0xA301_4314, 0x0944_54AB) == 0x4F9D_BE3F
    ensures Sum(I(0x4F9D_BE3F, 0x0944_54AB, 0x7F81_CC35), 0x3BFA_2C27, 0x0000_0000, 21, 0x4E08_11A1, 0x4F9D_BE3F) == 0x7327_D604
    ensures Sum(I(0x7327_D604, 0x4F9D_BE3F, 0x0944_54AB), 0x7F81_CC35, 0x0000_0000, 6, 0xF753_7E82, 0x7327_D604) == 0x310A_DE8F
    ensures Sum(I(0x310A_DE8F, 0x7327_D604, 0x4F9D_BE3F), 0x0944_54AB, 0x0000_0000, 10, 0xBD3A_F235, 0x310A_DE8F) == 0x624D_8CB2
    ensures Sum(I(0x624D_8CB2, 0x310A_DE8F, 0x7327_D604), 0x4F9D_BE3F, 0x0000_0000, 15, 0x2AD7_D2BB, 0x624D_8CB2) == 0xE484_B9D8
    ensures Sum(I(0xE484_B9D8, 0x624D_8CB2, 0x310A_DE8F), 0x7327_D604, 0x0000_0000, 21, 0xEB86_D391, 0xE484_B9D8) == 0xC082_26B3
  {
  }

  lemma AbcRound1()
    requires At(ABC, INIT, 0, 0x6745_2301, 0xEFCD_AB89, 0x98BA_DCFE, 0x1032_5476)
    ensures At(ABC, INIT, 16, 0xDDA9_B9A6, 0x72AF_F2E0, 0xE396_856B, 0xA105_1895)
  {
    hide *;
    RowsFrom0();
    RowsFrom8();
    AbcWords();
    AbcValues1();
    Step1(ABC, INIT, 0, 0x6745_2301, 0xEFCD_AB89, 0x98BA_DCFE, 0x1032_5476, 0, 0x8063_6261, 7, 0xD76A_A478, 0xD6D1_17B4);
    Step1(ABC, INIT, 1, 0x1032_5476, 0xD6D1_17B4, 0xEFCD_AB89, 0x98BA_DCFE, 1, 0x0000_0000, 12, 0xE8C7_B756, 0x344A_8432);
    Step1(ABC, INIT, 2, 0x98BA_DCFE, 0x344A_8432, 0xD6D1_17B4, 0xEFCD_AB89, 2, 0x0000_0000, 17, 0x2420_70DB, 0x2F6F_BD72);
    Step1(ABC, INIT, 3, 0xEFCD_AB89, 0x2F6F_BD72, 0x344A_8432, 0xD6D1_17B4, 3, 0x0000_0000, 22, 0xC1BD_CEEE, 0x7AD9_56F2);
    Step1(ABC, INIT, 4, 0xD6D1_17B4, 0x7AD9_56F2, 0x2F6F_BD72, 0x344A_8432, 4, 0x0000_0000, 7, 0xF57C_0FAF, 0xC737_41EF);
    Step1(ABC, INIT, 5, 0x344A_8432, 0xC737_41EF, 0x7AD9_56F2, 0x2F6F_BD72, 5, 0x0000_0000, 12, 0x4787_C62A, 0x8BAC_3051);
    Step1(ABC, INIT, 6, 0x2F6F_BD72, 0x8BAC_3051, 0xC737_41EF, 0x7AD9_56F2, 6, 0x0000_0000, 17, 0xA830_4613, 0x207D_C67B);
    Step1(ABC, INIT, 7, 0x7AD9_56F2, 0x207D_C67B, 0x8BAC_3051, 0xC737_41EF, 7, 0x0000_0000, 22, 0xFD46_9501, 0x928D_99F6);
    Step1(ABC, INIT, 8, 0xC737_41EF, 0x928D_99F6, 0x207D_C67B, 0x8BAC_3051, 8, 0x0000_0000, 7, 0x6980_98D8, 0x854B_3712);
    Step1(ABC, INIT, 9, 0x8BAC_3051, 0x854B_3712, 0x928D_99F6, 0x207D_C67B, 9, 0x0000_0000, 12, 0x8B44_F7AF, 0x74E2_F284);
    Step1(ABC, INIT, 10, 0x207D_C67B, 0x74E2_F284, 0x854B_3712, 0x928D_99F6, 10, 0x0000_0000, 17, 0xFFFF_5BB1, 0x3020_401C);
    Step1(ABC, INIT, 11, 0x928D_99F6, 0x3020_401C, 0x74E2_F284, 0x854B_3712, 11, 0x0000_0000, 22, 0x895C_D7BE, 0x5ED4_9596);
    Step1(ABC, INIT, 12, 0x854B_3712, 0x5ED4_9596, 0x3020_401C, 0x74E2_F284, 12, 0x0000_0000, 7, 0x6B90_1122, 0xDDA9_B9A6);
    Step1(ABC, INIT, 13, 0x74E2_F284, 0xDDA9_B9A6, 0x5ED4_9596, 0x3020_401C, 13, 0x0000_0000, 12, 0xFD98_7193, 0xA105_1895);
    Step1(ABC, INIT, 14, 0x3020_401C, 0xA105_1895, 0xDDA9_B9A6, 0x5ED4_9596, 14, 0x0000_0018, 17, 0xA679_438E, 0xE396_856B);
    Step1(ABC, INIT, 15, 0x5ED4_9596, 0xE396_856B, 0xA105_1895, 0xDDA9_B9A6, 15, 0x0000_0000, 22, 0x49B4_0821, 0x72AF_F2E0);
  }

  lemma AbcRound2()
    requires At(ABC, INIT, 16, 0xDDA9_B9A6, 0x72AF_F2E0, 0xE396_856B, 0xA105_1895)
    ensures At(ABC, INIT, 32, 0x790A_77FB, 0x7263_42D3, 0xA628_84AA, 0x9F47_E4F8)
  {
    hide *;
    RowsFrom16();
    RowsFrom24();
    AbcWords();
    AbcValues2();
    Step2(ABC, INIT, 16, 0xDDA9_B9A6, 0x72AF_F2E0, 0xE396_856B, 0xA105_1895, 1, 0x0000_0000, 5, 0xF61E_2562, 0x3E9E_9126);
    Step2(ABC, INIT, 17, 0xA105_1895, 0x3E9E_9126, 0x72AF_F2E0, 0xE396_856B, 6, 0x0000_0000, 9, 0xC040_B340, 0x4A1D_804E);
    Step2(ABC, INIT, 18, 0xE396_856B, 0x4A1D_804E, 0x3E9E_9126, 0x72AF_F2E0, 11, 0x0000_0000, 14, 0x265E_5A51, 0xE25E_1652);
    Step2(ABC, INIT, 19, 0x72AF_F2E0, 0xE25E_1652, 0x4A1D_804E, 0x3E9E_9126, 0, 0x8063_6261, 20, 0xE9B6_C7AA, 0xB5B2_04E4);
    Step2(ABC, INIT, 20, 0x3E9E_9126, 0xB5B2_04E4, 0xE25E_1652, 0x4A1D_804E, 5, 0x0000_0000, 5, 0xD62F_105D, 0x59A8_FFDA);
    Step2(ABC, INIT, 21, 0x4A1D_804E, 0x59A8_FFDA, 0xB5B2_04E4, 0xE25E_1652, 10, 0x0000_0000, 9, 0x0244_1453, 0x6D00_2F1E);
    Step2(ABC, INIT, 22, 0xE25E_1652, 0x6D00_2F1E, 0x59A8_FFDA, 0xB5B2_04E4, 15, 0x0000_0000, 14, 0xD8A1_E681, 0xABFC_7920);
    Step2(ABC, INIT, 23, 0xB5B2_04E4, 0xABFC_7920, 0x6D00_2F1E, 0x59A8_FFDA, 4, 0x0000_0000, 20, 0xE7D3_FBC8, 0x4709_2C07);
    Step2(ABC, INIT, 24, 0x59A8_FFDA, 0x4709_2C07, 0xABFC_7920, 0x6D00_2F1E, 9, 0x0000_0000, 5, 0x21E1_CDE6, 0xB7F2_68CF);
    Step2(ABC, INIT, 25, 0x6D00_2F1E, 0xB7F2_68CF, 0x4709_2C07, 0xABFC_7920, 14, 0x0000_0018, 9, 0xC337_07D6, 0x0938_8EFF);
    Step2(ABC, INIT, 26, 0xABFC_7920, 0x0938_8EFF, 0xB7F2_68CF, 0x4709_2C07, 3, 0x0000_0000, 14, 0xF4D5_0D87, 0xFE16_23B1);
    Step2(ABC, INIT, 27, 0x4709_2C07, 0xFE16_23B1, 0x0938_8EFF, 0xB7F2_68CF, 8, 0x0000_0000, 20, 0x455A_14ED, 0x786A_CB8F);
    Step2(ABC, INIT, 28, 0xB7F2_68CF, 0x786A_CB8F, 0xFE16_23B1, 0x0938_8EFF, 13, 0x0000_0000, 5, 0xA9E3_E905, 0x790A_77FB);
    Step2(ABC, INIT, 29, 0x0938_8EFF, 0x790A_77FB, 0x786A_CB8F, 0xFE16_23B1, 2, 0x0000_0000, 9, 0xFCEF_A3F8, 0x9F47_E4F8);
    Step2(ABC, INIT, 30, 0xFE16_23B1, 0x9F47_E4F8, 0x790A_77FB, 0x786A_CB8F, 7, 0x0000_0000, 14, 0x676F_02D9, 0xA628_84AA);
    Step2(ABC, INIT, 31, 0x786A_CB8F, 0xA628_84AA, 0x9F47_E4F8, 0x790A_77FB, 12, 0x0000_0000, 20, 0x8D2A_4C8A, 0x7263_42D3);
  }

  lemma AbcRound3()
    requires At(ABC, INIT, 32, 0x790A_77FB, 0x7263_42D3, 0xA628_84AA, 0x9F47_E4F8)
    ensures At(ABC, INIT, 48, 0x7F2E_507B, 0x7BEB_9700, 0x8FAE_6399, 0x99D9_679D)
  {
    hide *;
    RowsFrom32();
    RowsFrom40();
    AbcWords();
    AbcValues3();
    Step3(ABC, INIT, 32, 0x790A_77FB, 0x7263_42D3, 0xA628_84AA, 0x9F47_E4F8, 5, 0x0000_0000, 4, 0xFFFA_3942, 0xB370_7EBF);
    Step3(ABC, INIT, 33, 0x9F47_E4F8, 0xB370_7EBF, 0x7263_42D3, 0xA628_84AA, 8, 0x0000_0000, 11, 0x8771_F681, 0x6012_7B2E);
    Step3(ABC, INIT, 34, 0xA628_84AA, 0x6012_7B2E, 0xB370_7EBF, 0x7263_42D3, 11, 0x0000_0000, 16, 0x6D9D_6122, 0x8D21_2FF5);
    Step3(ABC, INIT, 35, 0x7263_42D3, 0x8D21_2FF5, 0x6012_7B2E, 0xB370_7EBF, 14, 0x0000_0018, 23, 0xFDE5_380C, 0x3B08_75C7);
    Step3(ABC, INIT, 36, 0xB370_7EBF, 0x3B08_75C7, 0x8D21_2FF5, 0x6012_7B2E, 1, 0x0000_0000, 4, 0xA4BE_EA44, 0x21B1_17B9);
    Step3(ABC, INIT, 37, 0x6012_7B2E, 0x21B1_17B9, 0x3B08_75C7, 0x8D21_2FF5, 4, 0x0000_0000, 11, 0x4BDE_CFA9, 0x6E74_29D5);
    Step3(ABC, INIT, 38, 0x8D21_2FF5, 0x6E74_29D5, 0x21B1_17B9, 0x3B08_75C7, 7, 0x0000_0000, 16, 0xF6BB_4B60, 0x3575_227E);
    Step3(ABC, INIT, 39, 0x3B08_75C7, 0x3575_227E, 0x6E74_29D5, 0x21B1_17B9, 10, 0x0000_0000, 23, 0xBEBF_BC70, 0x5A2F_5EA5);
    Step3(ABC, INIT, 40, 0x21B1_17B9, 0x5A2F_5EA5, 0x3575_227E, 0x6E74_29D5, 13, 0x0000_0000, 4, 0x289B_7EC6, 0x11DE_1779);
    Step3(ABC, INIT, 41, 0x6E74_29D5, 0x11DE_1779, 0x5A2F_5EA5, 0x3575_227E, 0, 0x8063_6261, 11, 0xEAA1_27FA, 0xFADC_AA38);
    Step3(ABC, INIT, 42, 0x3575_227E, 0xFADC_AA38, 0x11DE_1779, 0x5A2F_5EA5, 3, 0x0000_0000, 16, 0xD4EF_3085, 0x31C4_65CA);
    Step3(ABC, INIT, 43, 0x5A2F_5EA5, 0x31C4_65CA, 0xFADC_AA38, 0x11DE_1779, 6, 0x0000_0000, 23, 0x0488_1D05, 0x4C61_24F4);
    Step3(ABC, INIT, 44, 0x11DE_1779, 0x4C61_24F4, 0x31C4_65CA, 0xFADC_AA38, 9, 0x0000_0000, 4, 0xD9D4_D039, 0x7F2E_507B);
    Step3(ABC, INIT, 45, 0xFADC_AA38, 0x7F2E_507B, 0x4C61_24F4, 0x31C4_65CA, 12, 0x0000_0000, 11, 0xE6DB_99E5, 0x99D9_679D);
    Step3(ABC, INIT, 46, 0x31C4_65CA, 0x99D9_679D, 0x7F2E_507B, 0x4C61_24F4, 15, 0x0000_0000, 16, 0x1FA2_7CF8, 0x8FAE_6399);
    Step3(ABC, INIT, 47, 0x4C61_24F4, 0x8FAE_6399, 0x99D9_679D, 0x7F2E_507B, 2, 0x0000_0000, 23, 0xC4AC_5665, 0x7BEB_9700);
  }

  lemma AbcRound4()
    requires At(ABC, INIT, 48, 0x7F2E_507B, 0x7BEB_9700, 0x8FAE_6399, 0x99D9_679D)
    ensures At(ABC, INIT, 64, 0x310A_DE8F, 0xC082_26B3, 0xE484_B9D8, 0x624D_8CB2)
  {
    hide *;
    RowsFrom48();
    RowsFrom56();
    AbcWords();
    AbcValues4();
    Step4(ABC, INIT, 48, 0x7F2E_507B, 0x7BEB_9700, 0x8FAE_6399, 0x99D9_679D, 0, 0x8063_6261, 6, 0xF429_2244, 0x7B20_1DF8);
    Step4(ABC, INIT, 49, 0x99D9_679D, 0x7B20_1DF8, 0x7BEB_9700, 0x8FAE_6399, 7, 0x0000_0000, 10, 0x432A_FF97, 0xF4E8_E96E);
    Step4(ABC, INIT, 50, 0x8FAE_6399, 0xF4E8_E96E, 0x7B20_1DF8, 0x7BEB_9700, 14, 0x0000_0018, 15, 0xAB94_23A7, 0xB298_CEFD);
    Step4(ABC, INIT, 51, 0x7BEB_9700, 0xB298_CEFD, 0xF4E8_E96E, 0x7B20_1DF8, 5, 0x0000_0000, 21, 0xFC93_A039, 0x8BF0_25C4);
    Step4(ABC, INIT, 52, 0x7B20_1DF8, 0x8BF0_25C4, 0xB298_CEFD, 0xF4E8_E96E, 12, 0x0000_0000, 6, 0x655B_59C3, 0x06CC_5E8A);
    Step4(ABC, INIT, 53, 0xF4E8_E96E, 0x06CC_5E8A, 0x8BF0_25C4, 0xB298_CEFD, 3, 0x0000_0000, 10, 0x8F0C_CC92, 0x5B0D_97AA);
    Step4(ABC, INIT, 54, 0xB298_CEFD, 0x5B0D_97AA, 0x06CC_5E8A, 0x8BF0_25C4, 10, 0x0000_0000, 15, 0xFFEF_F47D, 0x7D63_2DD0);
    Step4(ABC, INIT, 55, 0x8BF0_25C4, 0x7D63_2DD0, 0x5B0D_97AA, 0x06CC_5E8A, 1, 0x0000_0000, 21, 0x8584_5DD1, 0x3BFA_2C27);
    Step4(ABC, INIT, 56, 0x06CC_5E8A, 0x3BFA_2C27, 0x7D63_2DD0, 0x5B0D_97AA, 8, 0x0000_0000, 6, 0x6FA8_7E4F, 0x7F81_CC35);
    Step4(ABC, INIT, 57, 0x5B0D_97AA, 0x7F81_CC35, 0x3BFA_2C27, 0x7D63_2DD0, 15, 0x0000_0000, 10, 0xFE2C_E6E0, 0x0944_54AB);
    Step4(ABC, INIT, 58, 0x7D63_2DD0, 0x0944_54AB, 0x7F81_CC35, 0x3BFA_2C27, 6, 0x0000_0000, 15, 0xA301_4314, 0x4F9D_BE3F);
    Step4(ABC, INIT, 59, 0x3BFA_2C27, 0x4F9D_BE3F, 0x0944_54AB, 0x7F81_CC35, 13, 0x0000_0000, 21, 0x4E08_11A1, 0x7327_D604);
    Step4(ABC, INIT, 60, 0x7F81_CC35, 0x7327_D604, 0x4F9D_BE3F, 0x0944_54AB, 4, 0x0000_0000, 6, 0xF753_7E82, 0x310A_DE8F);
    Step4(ABC, INIT, 61, 0x0944_54AB, 0x310A_DE8F, 0x7327_D604, 0x4F9D_BE3F, 11, 0x0000_0000, 10, 0xBD3A_F235, 0x624D_8CB2);
    Step4(ABC, INIT, 62, 0x4F9D_BE3F, 0x624D_8CB2, 0x310A_DE8F, 0x7327_D604, 2, 0x0000_0000, 15, 0x2AD7_D2BB, 0xE484_B9D8);
    Step4(ABC, INIT, 63, 0x7327_D604, 0xE484_B9D8, 0x624D_8CB2, 0x310A_DE8F, 9, 0x0000_0000, 21, 0xEB86_D391, 0xC082_26B3);
  }

  lemma AbcBlock()
    ensures Plus(INIT, Steps(ABC, INIT, 64)) == Regs(0x9850_0190, 0xB04F_D23C, 0x7D3F_96D6, 0x727F_E128)
  {
    AtStart(ABC, INIT);
    AbcRound1();
    AbcRound2();
    AbcRound3();
    AbcRound4();
  }

  const FIRST: seq<bv32> :=
    [0x3433_3231, 0x3837_3635, 0x3231_3039, 0x3635_3433, 0x3039_3837, 0x3433_3231, 0x3837_3635, 0x3231_3039,
     0x3635_3433, 0x3039_3837, 0x3433_3231, 0x3837_3635, 0x3231_3039, 0x3635_3433, 0x3039_3837, 0x3433_3231]

  lemma FirstWords()
    ensures Word(FIRST, 0, 0x3433_3231) && Word(FIRST, 1, 0x3837_3635) && Word(FIRST, 2, 0x3231_3039) && Word(FIRST, 3, 0x3635_3433)
    ensures Word(FIRST, 4, 0x3039_3837) && Word(FIRST, 5, 0x3433_3231) && Word(FIRST, 6, 0x3837_3635) && Word(FIRST, 7, 0x3231_3039)
    ensures Word(FIRST, 8, 0x3635_3433) && Word(FIRST, 9, 0x3039_3837) && Word(FIRST, 10, 0x3433_3231) && Word(FIRST, 11, 0x3837_3635)
    ensures Word(FIRST, 12, 0x3231_3039) && Word(FIRST, 13, 0x3635_3433) && Word(FIRST, 14, 0x3039_3837) && Word(FIRST, 15, 0x3433_3231)
  {
  }

  lemma FirstValues1()
    ensures Sum(F(0xEFCD_AB89, 0x98BA_DCFE, 0x1032_5476), 0x6745_2301, 0x3433_3231, 7, 0xD76A_A478, 0xEFCD_AB89) == 0xBEB8_FF8E
    ensures Sum(F(0xBEB8_FF8E, 0xEFCD_AB89, 0x98BA_DCFE), 0x1032_5476, 0x3837_3635, 12, 0xE8C7_B756, 0xBEB8_FF8E) == 0x7D98_9D89
    ensures Sum(F(0x7D98_9D89, 0xBEB8_FF8E, 0xEFCD_AB89), 0x98BA_DCFE, 0x3231_3039, 17, 0x2420_70DB, 0x7D98_9D89) == 0xF8CD_F95D
    ensures Sum(F(0xF8CD_F95D, 0x7D98_9D89, 0xBEB8_FF8E), 0xEFCD_AB89, 0x3635_3433, 22, 0xC1BD_CEEE, 0xF8CD_F95D) == 0x8627_97B0
    ensures Sum(F(0x8627_97B0, 0xF8CD_F95D, 0x7D98_9D89), 0xBEB8_FF8E, 0x3039_3837, 7, 0xF57C_0FAF, 0x8627_97B0) == 0x8C17_DE9F
    ensures Sum(F(0x8C17_DE9F, 0x8627_97B0, 0xF8CD_F95D), 0x7D98_9D89, 0x3433_3231, 12, 0x4787_C62A, 0x8C17_DE9F) == 0xC0F3_2D81
    ensures Sum(F(0xC0F3_2D81, 0x8C17_DE9F, 0x8627_97B0), 0xF8CD_F95D, 0x3837_3635, 17, 0xA830_4613, 0xC0F3_2D81) == 0xE99F_EC1B
    ensures Sum(F(0xE99F_EC1B, 0xC0F3_2D81, 0x8C17_DE9F), 0x8627_97B0, 0x3231_3039, 22, 0xFD46_9501, 0xE99F_EC1B) == 0xC57E_78C1
    ensures Sum(F(0xC57E_78C1, 0xE99F_EC1B, 0xC0F3_2D81), 0x8C17_DE9F, 0x3635_3433, 7, 0x6980_98D8, 0xC57E_78C1) == 0x7C0A_CEB7
    ensures Sum(F(0x7C0A_CEB7, 0xC57E_78C1, 0xE99F_EC1B), 0xC0F3_2D81, 0x3039_3837, 12, 0x8B44_F7AF, 0x7C0A_CEB7) == 0x8869_D2D8
    ensures Sum(F(0x8869_D2D8, 0x7C0A_CEB7, 0xC57E_78C1), 0xE99F_EC1B, 0x3433_3231, 17, 0xFFFF_5BB1, 0x8869_D2D8) == 0x5186_A8BA
    ensures Sum(F(0x5186_A8BA, 0x8869_D2D8, 0x7C0A_CEB7), 0xC57E_78C1, 0x3837_3635, 22, 0x895C_D7BE, 0x5186_A8BA) == 0xA5F3_6F8D
    ensures Sum(F(0xA5F3_6F8D, 0x5186_A8BA, 0x8869_D2D8), 0x7C0A_CEB7, 0x3231_3039, 7, 0x6B90_1122, 0xA5F3_6F8D) == 0x5157_E49E
    ensures Sum(F(0x5157_E49E, 0xA5F3_6F8D, 0x5186_A8BA), 0x8869_D2D8, 0x3635_3433, 12, 0xFD98_7193, 0x5157_E49E) == 0xFFAC_907E
    ensures Sum(F(0xFFAC_907E, 0x5157_E49E, 0xA5F3_6F8D), 0x5186_A8BA, 0x3039_3837, 17, 0xA679_438E, 0xFFAC_907E) == 0x27E9_83A0
    ensures Sum(F(0x27E9_83A0, 0xFFAC_907E, 0x5157_E49E), 0xA5F3_6F8D, 0x3433_3231, 22, 0x49B4_0821, 0x27E9_83A0) == 0xAF50_6A03
  {
  }

  lemma FirstValues2()
    ensures Sum(G(0xAF50_6A03, 0x27E9_83A0, 0xFFAC_907E), 0x5157_E49E, 0x3837_3635, 5, 0xF61E_2562, 0xAF50_6A03) == 0x8D18_E0E8
    ensures Sum(G(0x8D18_E0E8, 0xAF50_6A03, 0x27E9_83A0), 0xFFAC_907E, 0x3837_3635, 9, 0xC040_B340, 0x8D18_E0E8) == 0x07DE_0DF2
    ensures Sum(G(0x07DE_0DF2, 0x8D18_E0E8, 0xAF50_6A03), 0x27E9_83A0, 0x3837_3635, 14, 0x265E_5A51, 0x07DE_0DF2) == 0xEF22_3167
    ensures Sum(G(0xEF22_3167, 0x07DE_0DF2, 0x8D18_E0E8), 0xAF50_6A03, 0x3433_3231, 20, 0xE9B6_C7AA, 0xEF22_3167) == 0x0428_0170
    ensures Sum(G(0x0428_0170, 0xEF22_3167, 0x07DE_0DF2), 0x8D18_E0E8, 0x3433_3231, 5, 0xD62F_105D, 0x0428_0170) == 0x7892_9EE0
    ensures Sum(G(0x7892_9EE0, 0x0428_0170, 0xEF22_3167), 0x07DE_0DF2, 0x3433_3231, 9, 0x0244_1453, 0x7892_9EE0) == 0x375C_6C2C
    ensures Sum(G(0x375C_6C2C, 0x7892_9EE0, 0x0428_0170), 0xEF22_3167, 0x3433_3231, 14, 0xD8A1_E681, 0x375C_6C2C) == 0xB18A_CA50
    ensures Sum(G(0xB18A_CA50, 0x375C_6C2C, 0x7892_9EE0), 0x0428_0170, 0x3039_3837, 20, 0xE7D3_FBC8, 0xB18A_CA50) == 0xAD40_0A91
    ensures Sum(G(0xAD40_0A91, 0xB18A_CA50, 0x375C_6C2C), 0x7892_9EE0, 0x3039_3837, 5, 0x21E1_CDE6, 0xAD40_0A91) == 0xBB45_F43F
    ensures Sum(G(0xBB45_F43F, 0xAD40_0A91, 0xB18A_CA50), 0x375C_6C2C, 0x3039_3837, 9, 0xC337_07D6, 0xBB45_F43F) == 0xD61F_8A0F
    ensures Sum(G(0xD61F_8A0F, 0xBB45_F43F, 0xAD40_0A91), 0xB18A_CA50, 0x3635_3433, 14, 0xF4D5_0D87, 0xD61F_8A0F) == 0x98AD_E6B5
    ensures Sum(G(0x98AD_E6B5, 0xD61F_8A0F, 0xBB45_F43F), 0xAD40_0A91, 0x3635_3433, 20, 0x455A_14ED, 0x98AD_E6B5) == 0xB70E_35A9
    ensures Sum(G(0xB70E_35A9, 0x98AD_E6B5, 0xD61F_8A0F), 0xBB45_F43F, 0x3635_3433, 5, 0xA9E3_E905, 0xB70E_35A9) == 0xF8BC_FBB0
    ensures Sum(G(0xF8BC_FBB0, 0xB70E_35A9, 0x98AD_E6B5), 0xD61F_8A0F, 0x3231_3039, 9, 0xFCEF_A3F8, 0xF8BC_FBB0) == 0xD760_ED39
    ensures Sum(G(0xD760_ED39, 0xF8BC_FBB0, 0xB70E_35A9), 0x98AD_E6B5, 0x3231_3039, 14, 0x676F_02D9, 0xD760_ED39) == 0x99A0_F1B8
    ensures Sum(G(0x99A0_F1B8, 0xD760_ED39, 0xF8BC_FBB0), 0xB70E_35A9, 0x3231_3039, 20, 0x8D2A_4C8A, 0x99A0_F1B8) == 0x1BF2_5662
  {
  }

  lemma FirstValues3()
    ensures Sum(H(0x1BF2_5662, 0x99A0_F1B8, 0xD760_ED39), 0xF8BC_FBB0, 0x3433_3231, 4, 0xFFFA_3942, 0x1BF2_5662) == 0x3DBD_76CA
    ensures Sum(H(0x3DBD_76CA, 0x1BF2_5662, 0x99A0_F1B8), 0xD760_ED39, 0x3635_3433, 11, 0x8771_F681, 0x3DBD_76CA) == 0xFD05_6171
    ensures Sum(H(0xFD05_6171, 0x3DBD_76CA, 0x1BF2_5662), 0x99A0_F1B8, 0x3837_3635, 16, 0x6D9D_6122, 0xFD05_6171) == 0xC7ED_7C30
    ensures Sum(H(0xC7ED_7C30, 0xFD05_6171, 0x3DBD_76CA), 0x1BF2_5662, 0x3039_3837, 23, 0xFDE5_380C, 0xC7ED_7C30) == 0xE016_2F49
    ensures Sum(H(0xE016_2F49, 0xC7ED_7C30, 0xFD05_6171), 0x3DBD_76CA, 0x3837_3635, 4, 0xA4BE_EA44, 0xE016_2F49) == 0x3B32_C408
    ensures Sum(H(0x3B32_C408, 0xE016_2F49, 0xC7ED_7C30), 0xFD05_6171, 0x3039_3837, 11, 0x4BDE_CFA9, 0x3B32_C408) == 0x7338_D8B7
    ensures Sum(H(0x7338_D8B7, 0x3B32_C408, 0xE016_2F49), 0xC7ED_7C30, 0x3231_3039, 16, 0xF6BB_4B60, 0x7338_D8B7) == 0x9EF8_71AD
    ensures Sum(H(0x9EF8_71AD, 0x7338_D8B7, 0x3B32_C408), 0xE016_2F49, 0x3433_3231, 23, 0xBEBF_BC70, 0x9EF8_71AD) == 0x1D4D_6F72
    ensures Sum(H(0x1D4D_6F72, 0x9EF8_71AD, 0x7338_D8B7), 0x3B32_C408, 0x3635_3433, 4, 0x289B_7EC6, 0x1D4D_6F72) == 0xC661_460A
    ensures Sum(H(0xC661_460A, 0x1D4D_6F72, 0x9EF8_71AD), 0x7338_D8B7, 0x3433_3231, 11, 0xEAA1_27FA, 0xC661_460A) == 0xD2BF_04C9
    ensures Sum(H(0xD2BF_04C9, 0xC661_460A, 0x1D4D_6F72), 0x9EF8_71AD, 0x3635_3433, 16, 0xD4EF_3085, 0xD2BF_04C9) == 0xD6D5_B879
    ensures Sum(H(0xD6D5_B879, 0xD2BF_04C9, 0xC661_460A), 0x1D4D_6F72, 0x3837_3635, 23, 0x0488_1D05, 0xD6D5_B879) == 0x89E3_C4D7
    ensures Sum(H(0x89E3_C4D7, 0xD6D5_B879, 0xD2BF_04C9), 0xC661_460A, 0x3039_3837, 4, 0xD9D4_D039, 0x89E3_C4D7) == 0x6970_32EC
    ensures Sum(H(0x6970_32EC, 0x89E3_C4D7, 0xD6D5_B879), 0xD2BF_04C9, 0x3231_3039, 11, 0xE6DB_99E5, 0x6970_32EC) == 0xFA59_7BFC
    ensures Sum(H(0xFA59_7BFC, 0x6970_32EC, 0x89E3_C4D7), 0xD6D5_B879, 0x3433_3231, 16, 0x1FA2_7CF8, 0xFA59_7BFC) == 0xEFC2_C171
    ensures Sum(H(0xEFC2_C171, 0xFA59_7BFC, 0x6970_32EC), 0x89E3_C4D7, 0x3231_3039, 23, 0xC4AC_5665, 0xEFC2_C171) == 0xDB41_97DA
  {
  }

  lemma FirstValues4()
    ensures Sum(I(0xDB41_97DA, 0xEFC2_C171, 0xFA59_7BFC), 0x6970_32EC, 0x3433_3231, 6, 0xF429_2244, 0xDB41_97DA) == 0x57B9_1ACA
    ensures Sum(I(0x57B9_1ACA, 0xDB41_97DA, 0xEFC2_C171), 0xFA59_7BFC, 0x3231_3039, 10, 0x432A_FF97, 0x57B9_1ACA) == 0x210C_9EBC
    ensures Sum(I(0x210C_9EBC, 0x57B9_1ACA, 0xDB41_97DA), 0xEFC2_C171, 0x3039_3837, 15, 0xAB94_23A7, 0x210C_9EBC) == 0x21EF_BD88
    ensures Sum(I(0x21EF_BD88, 0x210C_9EBC, 0x57B9_1ACA), 0xDB41_97DA, 0x3433_3231, 21, 0xFC93_A039, 0x21EF_BD88) == 0xCAA2_5B01
    ensures Sum(I(0xCAA2_5B01, 0x21EF_BD88, 0x210C_9EBC), 0x57B9_1ACA, 0x3231_3039, 6, 0x655B_59C3, 0xCAA2_5B01) == 0x633D_3F7C
    ensures Sum(I(0x633D_3F7C, 0xCAA2_5B01, 0x21EF_BD88), 0x210C_9EBC, 0x3635_3433, 10, 0x8F0C_CC92, 0x633D_3F7C) == 0x1A4D_3BEB
    ensures Sum(I(0x1A4D_3BEB, 0x633D_3F7C, 0xCAA2_5B01), 0x21EF_BD88, 0x3433_3231, 15, 0xFFEF_F47D, 0x1A4D_3BEB) == 0xCCAA_1524
    ensures Sum(I(0xCCAA_1524, 0x1A4D_3BEB, 0x633D_3F7C), 0xCAA2_5B01, 0x3837_3635, 21, 0x8584_5DD1, 0xCCAA_1524) == 0x7713_F5DF
    ensures Sum(I(0x7713_F5DF, 0xCCAA_1524, 0x1A4D_3BEB), 0x633D_3F7C, 0x3635_3433, 6, 0x6FA8_7E4F, 0x7713_F5DF) == 0x8448_B430
    ensures Sum(I(0x8448_B430, 0x7713_F5DF, 0xCCAA_1524), 0x1A4D_3BEB, 0x3433_3231, 10, 0xFE2C_E6E0, 0x8448_B430) == 0x71C9_3463
    ensures Sum(I(0x71C9_3463, 0x8448_B430, 0x7713_F5DF), 0xCCAA_1524, 0x3837_3635, 15, 0xA301_4314, 0x71C9_3463) == 0x7E29_4727
    ensures Sum(I(0x7E29_4727, 0x71C9_3463, 0x8448_B430), 0x7713_F5DF, 0x3635_3433, 21, 0x4E08_11A1, 0x7E29_4727) == 0x660A_801D
    ensures Sum(I(0x660A_801D, 0x7E29_4727, 0x71C9_3463), 0x8448_B430, 0x3039_3837, 6, 0xF753_7E82, 0x660A_801D) == 0x6148_68EB
    ensures Sum(I(0x6148_68EB, 0x660A_801D, 0x7E29_4727), 0x71C9_3463, 0x3837_3635, 10, 0xBD3A_F235, 0x6148_68EB) == 0xA09F_38A7
    ensures Sum(I(0xA09F_38A7, 0x6148_68EB, 0x660A_801D), 0x7E29_4727, 0x3231_3039, 15, 0x2AD7_D2BB, 0xA09F_38A7) == 0x5133_129B
    ensures Sum(I(0x5133_129B, 0xA09F_38A7, 0x6148_68EB), 0x660A_801D, 0x3039_3837, 21, 0xEB86_D391, 0x5133_129B) == 0xB4D3_3102
  {
  }

  lemma FirstRound1()
    requires At(FIRST, INIT, 0, 0x6745_2301, 0xEFCD_AB89, 0x98BA_DCFE, 0x1032_5476)
    ensures At(FIRST, INIT, 16, 0x5157_E49E, 0xAF50_6A03, 0x27E9_83A0, 0xFFAC_907E)
  {
    hide *;
    RowsFrom0();
    RowsFrom8();
    FirstWords();
    FirstValues1();
    Step1(FIRST, INIT, 0, 0x6745_2301, 0xEFCD_AB89, 0x98BA_DCFE, 0x1032_5476, 0, 0x3433_3231, 7, 0xD76A_A478, 0xBEB8_FF8E);
    Step1(FIRST, INIT, 1, 0x1032_5476, 0xBEB8_FF8E, 0xEFCD_AB89, 0x98BA_DCFE, 1, 0x3837_3635, 12, 0xE8C7_B756, 0x7D98_9D89);
    Step1(FIRST, INIT, 2, 0x98BA_DCFE, 0x7D98_9D89, 0xBEB8_FF8E, 0xEFCD_AB89, 2, 0x3231_3039, 17, 0x2420_70DB, 0xF8CD_F95D);
    Step1(FIRST, INIT, 3, 0xEFCD_AB89, 0xF8CD_F95D, 0x7D98_9D89, 0xBEB8_FF8E, 3, 0x3635_3433, 22, 0xC1BD_CEEE, 0x8627_97B0);
    Step1(FIRST, INIT, 4, 0xBEB8_FF8E, 0x8627_97B0, 0xF8CD_F95D, 0x7D98_9D89, 4, 0x3039_3837, 7, 0xF57C_0FAF, 0x8C17_DE9F);
    Step1(FIRST, INIT, 5, 0x7D98_9D89, 0x8C17_DE9F, 0x8627_97B0, 0xF8CD_F95D, 5, 0x3433_3231, 12, 0x4787_C62A, 0xC0F3_2D81);
    Step1(FIRST, INIT, 6, 0xF8CD_F95D, 0xC0F3_2D81, 0x8C17_DE9F, 0x8627_97B0, 6, 0x3837_3635, 17, 0xA830_4613, 0xE99F_EC1B);
    Step1(FIRST, INIT, 7, 0x8627_97B0, 0xE99F_EC1B, 0xC0F3_2D81, 0x8C17_DE9F, 7, 0x3231_3039, 22, 0xFD46_9501, 0xC57E_78C1);
    Step1(FIRST, INIT, 8, 0x8C17_DE9F, 0xC57E_78C1, 0xE99F_EC1B, 0xC0F3_2D81, 8, 0x3635_3433, 7, 0x6980_98D8, 0x7C0A_CEB7);
    Step1(FIRST, INIT, 9, 0xC0F3_2D81, 0x7C0A_CEB7, 0xC57E_78C1, 0xE99F_EC1B, 9, 0x3039_3837, 12, 0x8B44_F7AF, 0x8869_D2D8);
    Step1(FIRST, INIT, 10, 0xE99F_EC1B, 0x8869_D2D8, 0x7C0A_CEB7, 0xC57E_78C1, 10, 0x3433_3231, 17, 0xFFFF_5BB1, 0x5186_A8BA);
    Step1(FIRST, INIT, 11, 0xC57E_78C1, 0x5186_A8BA, 0x8869_D2D8, 0x7C0A_CEB7, 11, 0x3837_3635, 22, 0x895C_D7BE, 0xA5F3_6F8D);
    Step1(FIRST, INIT, 12, 0x7C0A_CEB7, 0xA5F3_6F8D, 0x5186_A8BA, 0x8869_D2D8, 12, 0x3231_3039, 7, 0x6B90_1122, 0x5157_E49E);
    Step1(FIRST, INIT, 13, 0x8869_D2D8, 0x5157_E49E, 0xA5F3_6F8D, 0x5186_A8BA, 13, 0x3635_3433, 12, 0xFD98_7193, 0xFFAC_907E);
    Step1(FIRST, INIT, 14, 0x5186_A8BA, 0xFFAC_907E, 0x5157_E49E, 0xA5F3_6F8D, 14, 0x3039_3837, 17, 0xA679_438E, 0x27E9_83A0);
    Step1(FIRST, INIT, 15, 0xA5F3_6F8D, 0x27E9_83A0, 0xFFAC_907E, 0x5157_E49E, 15, 0x3433_3231, 22, 0x49B4_0821, 0xAF50_6A03);
  }

  lemma FirstRound2()
    requires At(FIRST, INIT, 16, 0x5157_E49E, 0xAF50_6A03, 0x27E9_83A0, 0xFFAC_907E)
    ensures At(FIRST, INIT, 32, 0xF8BC_FBB0, 0x1BF2_5662, 0x99A0_F1B8, 0xD760_ED39)
  {
    hide *;
    RowsFrom16();
    RowsFrom24();
    FirstWords();
    FirstValues2();
    Step2(FIRST, INIT, 16, 0x5157_E49E, 0xAF50_6A03, 0x27E9_83A0, 0xFFAC_907E, 1, 0x3837_3635, 5, 0xF61E_2562, 0x8D18_E0E8);
    Step2(FIRST, INIT, 17, 0xFFAC_907E, 0x8D18_E0E8, 0xAF50_6A03, 0x27E9_83A0, 6, 0x3837_3635, 9, 0xC040_B340, 0x07DE_0DF2);
    Step2(FIRST, INIT, 18, 0x27E9_83A0, 0x07DE_0DF2, 0x8D18_E0E8, 0xAF50_6A03, 11, 0x3837_3635, 14, 0x265E_5A51, 0xEF22_3167);
    Step2(FIRST, INIT, 19, 0xAF50_6A03, 0xEF22_3167, 0x07DE_0DF2, 0x8D18_E0E8, 0, 0x3433_3231, 20, 0xE9B6_C7AA, 0x0428_0170);
    Step2(FIRST, INIT, 20, 0x8D18_E0E8, 0x0428_0170, 0xEF22_3167, 0x07DE_0DF2, 5, 0x3433_3231, 5, 0xD62F_105D, 0x7892_9EE0);
    Step2(FIRST, INIT, 21, 0x07DE_0DF2, 0x7892_9EE0, 0x0428_0170, 0xEF22_3167, 10, 0x3433_3231, 9, 0x0244_1453, 0x375C_6C2C);
    Step2(FIRST, INIT, 22, 0xEF22_3167, 0x375C_6C2C, 0x7892_9EE0, 0x0428_0170, 15, 0x3433_3231, 14, 0xD8A1_E681, 0xB18A_CA50);
    Step2(FIRST, INIT, 23, 0x0428_0170, 0xB18A_CA50, 0x375C_6C2C, 0x7892_9EE0, 4, 0x3039_3837, 20, 0xE7D3_FBC8, 0xAD40_0A91);
    Step2(FIRST, INIT, 24, 0x7892_9EE0, 0xAD40_0A91, 0xB18A_CA50, 0x375C_6C2C, 9, 0x3039_3837, 5, 0x21E1_CDE6, 0xBB45_F43F);
    Step2(FIRST, INIT, 25, 0x375C_6C2C, 0xBB45_F43F, 0xAD40_0A91, 0xB18A_CA50, 14, 0x3039_3837, 9, 0xC337_07D6, 0xD61F_8A0F);
    Step2(FIRST, INIT, 26, 0xB18A_CA50, 0xD61F_8A0F, 0xBB45_F43F, 0xAD40_0A91, 3, 0x3635_3433, 14, 0xF4D5_0D87, 0x98AD_E6B5);
    Step2(FIRST, INIT, 27, 0xAD40_0A91, 0x98AD_E6B5, 0xD61F_8A0F, 0xBB45_F43F, 8, 0x3635_3433, 20, 0x455A_14ED, 0xB70E_35A9);
    Step2(FIRST, INIT, 28, 0xBB45_F43F, 0xB70E_35A9, 0x98AD_E6B5, 0xD61F_8A0F, 13, 0x3635_3433, 5, 0xA9E3_E905, 0xF8BC_FBB0);
    Step2(FIRST, INIT, 29, 0xD61F_8A0F, 0xF8BC_FBB0, 0xB70E_35A9, 0x98AD_E6B5, 2, 0x3231_3039, 9, 0xFCEF_A3F8, 0xD760_ED39);
    Step2(FIRST, INIT, 30, 0x98AD_E6B5, 0xD760_ED39, 0xF8BC_FBB0, 0xB70E_35A9, 7, 0x3231_3039, 14, 0x676F_02D9, 0x99A0_F1B8);
    Step2(FIRST, INIT, 31, 0xB70E_35A9, 0x99A0_F1B8, 0xD760_ED39, 0xF8BC_FBB0, 12, 0x3231_3039, 20, 0x8D2A_4C8A, 0x1BF2_5662);
  }

  lemma FirstRound3()
    requires At(FIRST, INIT, 32, 0xF8BC_FBB0, 0x1BF2_5662, 0x99A0_F1B8, 0xD760_ED39)
    ensures At(FIRST, INIT, 48, 0x6970_32EC, 0xDB41_97DA, 0xEFC2_C171, 0xFA59_7BFC)
  {
    hide *;
    RowsFrom32();
    RowsFrom40();
    FirstWords();
    FirstValues3();
    Step3(FIRST, INIT, 32, 0xF8BC_FBB0, 0x1BF2_5662, 0x99A0_F1B8, 0xD760_ED39, 5, 0x3433_3231, 4, 0xFFFA_3942, 0x3DBD_76CA);
    Step3(FIRST, INIT, 33, 0xD760_ED39, 0x3DBD_76CA, 0x1BF2_5662, 0x99A0_F1B8, 8, 0x3635_3433, 11, 0x8771_F681, 0xFD05_6171);
    Step3(FIRST, INIT, 34, 0x99A0_F1B8, 0xFD05_6171, 0x3DBD_76CA, 0x1BF2_5662, 11, 0x3837_3635, 16, 0x6D9D_6122, 0xC7ED_7C30);
    Step3(FIRST, INIT, 35, 0x1BF2_5662, 0xC7ED_7C30, 0xFD05_6171, 0x3DBD_76CA, 14, 0x3039_3837, 23, 0xFDE5_380C, 0xE016_2F49);
    Step3(FIRST, INIT, 36, 0x3DBD_76CA, 0xE016_2F49, 0xC7ED_7C30, 0xFD05_6171, 1, 0x3837_3635, 4, 0xA4BE_EA44, 0x3B32_C408);
    Step3(FIRST, INIT, 37, 0xFD05_6171, 0x3B32_C408, 0xE016_2F49, 0xC7ED_7C30, 4, 0x3039_3837, 11, 0x4BDE_CFA9, 0x7338_D8B7);
    Step3(FIRST, INIT, 38, 0xC7ED_7C30, 0x7338_D8B7, 0x3B32_C408, 0xE016_2F49, 7, 0x3231_3039, 16, 0xF6BB_4B60, 0x9EF8_71AD);
    Step3(FIRST, INIT, 39, 0xE016_2F49, 0x9EF8_71AD, 0x7338_D8B7, 0x3B32_C408, 10, 0x3433_3231, 23, 0xBEBF_BC70, 0x1D4D_6F72);
    Step3(FIRST, INIT, 40, 0x3B32_C408, 0x1D4D_6F72, 0x9EF8_71AD, 0x7338_D8B7, 13, 0x3635_3433, 4, 0x289B_7EC6, 0xC661_460A);
    Step3(FIRST, INIT, 41, 0x7338_D8B7, 0xC661_460A, 0x1D4D_6F72, 0x9EF8_71AD, 0, 0x3433_3231, 11, 0xEAA1_27FA, 0xD2BF_04C9);
    Step3(FIRST, INIT, 42, 0x9EF8_71AD, 0xD2BF_04C9, 0xC661_460A, 0x1D4D_6F72, 3, 0x3635_3433, 16, 0xD4EF_3085, 0xD6D5_B879);
    Step3(FIRST, INIT, 43, 0x1D4D_6F72, 0xD6D5_B879, 0xD2BF_04C9, 0xC661_460A, 6, 0x3837_3635, 23, 0x0488_1D05, 0x89E3_C4D7);
    Step3(FIRST, INIT, 44, 0xC661_460A, 0x89E3_C4D7, 0xD6D5_B879, 0xD2BF_04C9, 9, 0x3039_3837, 4, 0xD9D4_D039, 0x6970_32EC);
    Step3(FIRST, INIT, 45, 0xD2BF_04C9, 0x6970_32EC, 0x89E3_C4D7, 0xD6D5_B879, 12, 0x3231_3039, 11, 0xE6DB_99E5, 0xFA59_7BFC);
    Step3(FIRST, INIT, 46, 0xD6D5_B879, 0xFA59_7BFC, 0x6970_32EC, 0x89E3_C4D7, 15, 0x3433_3231, 16, 0x1FA2_7CF8, 0xEFC2_C171);
    Step3(FIRST, INIT, 47, 0x89E3_C4D7, 0xEFC2_C171, 0xFA59_7BFC, 0x6970_32EC, 2, 0x3231_3039, 23, 0xC4AC_5665, 0xDB41_97DA);
  }

  lemma FirstRound4()
    requires At(FIRST, INIT, 48, 0x6970_32EC, 0xDB41_97DA, 0xEFC2_C171, 0xFA59_7BFC)
    ensures At(FIRST, INIT, 64, 0x6148_68EB, 0xB4D3_3102, 0x5133_129B, 0xA09F_38A7)
  {
    hide *;
    RowsFrom48();
    RowsFrom56();
    FirstWords();
    FirstValues4();
    Step4(FIRST, INIT, 48, 0x6970_32EC, 0xDB41_97DA, 0xEFC2_C171, 0xFA59_7BFC, 0, 0x3433_3231, 6, 0xF429_2244, 0x57B9_1ACA);
    Step4(FIRST, INIT, 49, 0xFA59_7BFC, 0x57B9_1ACA, 0xDB41_97DA, 0xEFC2_C171, 7, 0x3231_3039, 10, 0x432A_FF97, 0x210C_9EBC);
    Step4(FIRST, INIT, 50, 0xEFC2_C171, 0x210C_9EBC, 0x57B9_1ACA, 0xDB41_97DA, 14, 0x3039_3837, 15, 0xAB94_23A7, 0x21EF_BD88);
    Step4(FIRST, INIT, 51, 0xDB41_97DA, 0x21EF_BD88, 0x210C_9EBC, 0x57B9_1ACA, 5, 0x3433_3231, 21, 0xFC93_A039, 0xCAA2_5B01);
    Step4(FIRST, INIT, 52, 0x57B9_1ACA, 0xCAA2_5B01, 0x21EF_BD88, 0x210C_9EBC, 12, 0x3231_3039, 6, 0x655B_59C3, 0x633D_3F7C);
    Step4(FIRST, INIT, 53, 0x210C_9EBC, 0x633D_3F7C, 0xCAA2_5B01, 0x21EF_BD88, 3, 0x3635_3433, 10, 0x8F0C_CC92, 0x1A4D_3BEB);
    Step4(FIRST, INIT, 54, 0x21EF_BD88, 0x1A4D_3BEB, 0x633D_3F7C, 0xCAA2_5B01, 10, 0x3433_3231, 15, 0xFFEF_F47D, 0xCCAA_1524);
    Step4(FIRST, INIT, 55, 0xCAA2_5B01, 0xCCAA_1524, 0x1A4D_3BEB, 0x633D_3F7C, 1, 0x3837_3635, 21, 0x8584_5DD1, 0x7713_F5DF);
    Step4(FIRST, INIT, 56, 0x633D_3F7C, 0x7713_F5DF, 0xCCAA_1524, 0x1A4D_3BEB, 8, 0x3635_3433, 6, 0x6FA8_7E4F, 0x8448_B430);
    Step4(FIRST, INIT, 57, 0x1A4D_3BEB, 0x8448_B430, 0x7713_F5DF, 0xCCAA_1524, 15, 0x3433_3231, 10, 0xFE2C_E6E0, 0x71C9_3463);
    Step4(FIRST, INIT, 58, 0xCCAA_1524, 0x71C9_3463, 0x8448_B430, 0x7713_F5DF, 6, 0x3837_3635, 15, 0xA301_4314, 0x7E29_4727);
    Step4(FIRST, INIT, 59, 0x7713_F5DF, 0x7E29_4727, 0x71C9_3463, 0x8448_B430, 13, 0x3635_3433, 21, 0x4E08_11A1, 0x660A_801D);
    Step4(FIRST, INIT, 60, 0x8448_B430, 0x660A_801D, 0x7E29_4727, 0x71C9_3463, 4, 0x3039_3837, 6, 0xF753_7E82, 0x6148_68EB);
    Step4(FIRST, INIT, 61, 0x71C9_3463, 0x6148_68EB, 0x660A_801D, 0x7E29_4727, 11, 0x3837_3635, 10, 0xBD3A_F235, 0xA09F_38A7);
    Step4(FIRST, INIT, 62, 0x7E29_4727, 0xA09F_38A7, 0x6148_68EB, 0x660A_801D, 2, 0x3231_3039, 15, 0x2AD7_D2BB, 0x5133_129B);
    Step4(FIRST, INIT, 63, 0x660A_801D, 0x5133_129B, 0xA09F_38A7, 0x6148_68EB, 9, 0x3039_3837, 21, 0xEB86_D391, 0xB4D3_3102);
  }

  lemma FirstBlock()
    ensures Plus(INIT, Steps(FIRST, INIT, 64)) == Regs(0xC88D_8BEC, 0xA4A0_DC8B, 0xE9ED_EF99, 0xB0D1_8D1D)
  {
    AtStart(FIRST, INIT);
    FirstRound1();
    FirstRound2();
    FirstRound3();
    FirstRound4();
  }

  /** The registers after the first block of the digits. */
  const MIDDLE: Regs := Regs(0xC88D_8BEC, 0xA4A0_DC8B, 0xE9ED_EF99, 0xB0D1_8D1D)

  const SECOND: seq<bv32> :=
    [0x3837_3635, 0x3231_3039, 0x3635_3433, 0x3039_3837, 0x0000_0080, 0x0000_0000, 0x0000_0000, 0x0000_0000,
     0x0000_0000, 0x0000_0000, 0x0000_0000, 0x0000_0000, 0x0000_0000, 0x0000_0000, 0x0000_0280, 0x0000_0000]

  lemma SecondWords()
    ensures Word(SECOND, 0, 0x3837_3635) && Word(SECOND, 1, 0x3231_3039) && Word(SECOND, 2, 0x3635_3433) && Word(SECOND, 3, 0x3039_3837)
    ensures Word(SECOND, 4, 0x0000_0080) && Word(SECOND, 5, 0x0000_0000) && Word(SECOND, 6, 0x0000_0000) && Word(SECOND, 7, 0x0000_0000)
    ensures Word(SECOND, 8, 0x0000_0000) && Word(SECOND, 9, 0x0000_0000) && Word(SECOND, 10, 0x0000_0000) && Word(SECOND, 11, 0x0000_0000)
    ensures Word(SECOND, 12, 0x0000_0000) && Word(SECOND, 13, 0x0000_0000) && Word(SECOND, 14, 0x0000_0280) && Word(SECOND, 15, 0x0000_0000)
  {
  }

  lemma SecondValues1()
    ensures Sum(F(0xA4A0_DC8B, 0xE9ED_EF99, 0xB0D1_8D1D), 0xC88D_8BEC, 0x3837_3635, 7, 0xD76A_A478, 0xA4A0_DC8B) == 0x353A_F7CF
    ensures Sum(F(0x353A_F7CF, 0xA4A0_DC8B, 0xE9ED_EF99), 0xB0D1_8D1D, 0x3231_3039, 12, 0xE8C7_B756, 0x353A_F7CF) == 0x3A4F_735A
    ensures Sum(F(0x3A4F_735A, 0x353A_F7CF, 0xA4A0_DC8B), 0xE9ED_EF99, 0x3635_3433, 17, 0x2420_70DB, 0x3A4F_735A) == 0x6335_6537
    ensures Sum(F(0x6335_6537, 0x3A4F_735A, 0x353A_F7CF), 0xA4A0_DC8B, 0x3039_3837, 22, 0xC1BD_CEEE, 0x6335_6537) == 0x45E8_8F2C
    ensures Sum(F(0x45E8_8F2C, 0x6335_6537, 0x3A4F_735A), 0x353A_F7CF, 0x0000_0080, 7, 0xF57C_0FAF, 0x45E8_8F2C) == 0x3527_497E
    ensures Sum(F(0x3527_497E, 0x45E8_8F2C, 0x6335_6537), 0x3A4F_735A, 0x0000_0000, 12, 0x4787_C62A, 0x3527_497E) == 0xAB92_660E
    ensures Sum(F(0xAB92_660E, 0x3527_497E, 0x45E8_8F2C), 0x6335_6537, 0x0000_0000, 17, 0xA830_4613, 0xAB92_660E) == 0x9483_47AE
    ensures Sum(F(0x9483_47AE, 0xAB92_660E, 0x3527_497E), 0x45E8_8F2C, 0x0000_0000, 22, 0xFD46_9501, 0x9483_47AE) == 0x377C_7D0A
    ensures Sum(F(0x377C_7D0A, 0x9483_47AE, 0xAB92_660E), 0x3527_497E, 0x0000_0000, 7, 0x6980_98D8, 0x377C_7D0A) == 0xCC91_2F27
    ensures Sum(F(0xCC91_2F27, 0x377C_7D0A, 0x9483_47AE), 0xAB92_660E, 0x0000_0000, 12, 0x8B44_F7AF, 0xCC91_2F27) == 0x6945_A3D5
    ensures Sum(F(0x6945_A3D5, 0xCC91_2F27, 0x377C_7D0A), 0x9483_47AE, 0x0000_0000, 17, 0xFFFF_5BB1, 0x6945_A3D5) == 0xAE23_894D
    ensures Sum(F(0xAE23_894D, 0x6945_A3D5, 0xCC91_2F27), 0x377C_7D0A, 0x0000_0000, 22, 0x895C_D7BE, 0xAE23_894D) == 0xB9ED_E40C
    ensures Sum(F(0xB9ED_E40C, 0xAE23_894D, 0x6945_A3D5), 0xCC91_2F27, 0x0000_0000, 7, 0x6B90_1122, 0xB9ED_E40C) == 0xDB4F_F71C
    ensures Sum(F(0xDB4F_F71C, 0xB9ED_E40C, 0xAE23_894D), 0x6945_A3D5, 0x0000_0000, 12, 0xFD98_7193, 0xDB4F_F71C) == 0x9B6B_4960
    ensures Sum(F(0x9B6B_4960, 0xDB4F_F71C, 0xB9ED_E40C), 0xAE23_894D, 0x0000_0280, 17, 0xA679_438E, 0x9B6B_4960) == 0x0439_6A39
    ensures Sum(F(0x0439_6A39, 0x9B6B_4960, 0xDB4F_F71C), 0xB9ED_E40C, 0x0000_0000, 22, 0x49B4_0821, 0x0439_6A39) == 0x58B1_2EAB
  {
  }

  lemma SecondValues2()
    ensures Sum(G(0x58B1_2EAB, 0x0439_6A39, 0x9B6B_4960), 0xDB4F_F71C, 0x3231_3039, 5, 0xF61E_2562, 0x58B1_2EAB) == 0x52C0_0CAE
    ensures Sum(G(0x52C0_0CAE, 0x58B1_2EAB, 0x0439_6A39), 0x9B6B_4960, 0x0000_0000, 9, 0xC040_B340, 0x52C0_0CAE) == 0xAAD2_A216
    ensures Sum(G(0xAAD2_A216, 0x52C0_0CAE, 0x58B1_2EAB), 0x0439_6A39, 0x0000_0000, 14, 0x265E_5A51, 0xAAD2_A216) == 0xA476_AF6F
    ensures Sum(G(0xA476_AF6F, 0xAAD2_A216, 0x52C0_0CAE), 0x58B1_2EAB, 0x3837_3635, 20, 0xE9B6_C7AA, 0xA476_AF6F) == 0x50F8_DE8C
    ensures Sum(G(0x50F8_DE8C, 0xA476_AF6F, 0xAAD2_A216), 0x52C0_0CAE, 0x0000_0000, 5, 0xD62F_105D, 0x50F8_DE8C) == 0x0D6E_6D91
    ensures Sum(G(0x0D6E_6D91, 0x50F8_DE8C, 0xA476_AF6F), 0xAAD2_A216, 0x0000_0000, 9, 0x0244_1453, 0x0D6E_6D91) == 0x17D6_4195
    ensures Sum(G(0x17D6_4195, 0x0D6E_6D91, 0x50F8_DE8C), 0xA476_AF6F, 0x0000_0000, 14, 0xD8A1_E681, 0x17D6_4195) == 0xD5B7_A850
    ensures Sum(G(0xD5B7_A850, 0x17D6_4195, 0x0D6E_6D91), 0x50F8_DE8C, 0x0000_0080, 20, 0xE7D3_FBC8, 0xD5B7_A850) == 0x043C_B080
    ensures Sum(G(0x043C_B080, 0xD5B7_A850, 0x17D6_4195), 0x0D6E_6D91, 0x0000_0000, 5, 0x21E1_CDE6, 0x043C_B080) == 0x74F9_377E
    ensures Sum(G(0x74F9_377E, 0x043C_B080, 0xD5B7_A850), 0x17D6_4195, 0x0000_0280, 9, 0xC337_07D6, 0x74F9_377E) == 0x01F2_ADDD
    ensures Sum(G(0x01F2_ADDD, 0x74F9_377E, 0x043C_B080), 0xD5B7_A850, 0x3039_3837, 14, 0xF4D5_0D87, 0x01F2_ADDD) == 0xE775_C8CA
    ensures Sum(G(0xE775_C8CA, 0x01F2_ADDD, 0x74F9_377E), 0x043C_B080, 0x0000_0000, 20, 0x455A_14ED, 0xE775_C8CA) == 0xCB00_B96E
    ensures Sum(G(0xCB00_B96E, 0xE775_C8CA, 0x01F2_ADDD), 0x74F9_377E, 0x0000_0000, 5, 0xA9E3_E905, 0xCB00_B96E) == 0x8761_F38E
    ensures Sum(G(0x8761_F38E, 0xCB00_B96E, 0xE775_C8CA), 0x01F2_ADDD, 0x3635_3433, 9, 0xFCEF_A3F8, 0x8761_F38E) == 0x7A51_6116
    ensures Sum(G(0x7A51_6116, 0x8761_F38E, 0xCB00_B96E), 0xE775_C8CA, 0x0000_0000, 14, 0x676F_02D9, 0x7A51_6116) == 0x061B_C867
    ensures Sum(G(0x061B_C867, 0x7A51_6116, 0x8761_F38E), 0xCB00_B96E, 0x0000_0000, 20, 0x8D2A_4C8A, 0x061B_C867) == 0x6709_2C33
  {
  }

  lemma SecondValues3()
    ensures Sum(H(0x6709_2C33, 0x061B_C867, 0x7A51_6116), 0x8761_F38E, 0x0000_0000, 4, 0xFFFA_3942, 0x6709_2C33) == 0x9104_4D5D
    ensures Sum(H(0x9104_4D5D, 0x6709_2C33, 0x061B_C867), 0x7A51_6116, 0x0000_0000, 11, 0x8771_F681, 0x9104_4D5D) == 0x6109_54EB
    ensures Sum(H(0x6109_54EB, 0x9104_4D5D, 0x6709_2C33), 0x061B_C867, 0x0000_0000, 16, 0x6D9D_6122, 0x6109_54EB) == 0xC017_5FA8
    ensures Sum(H(0xC017_5FA8, 0x6109_54EB, 0x9104_4D5D), 0x6709_2C33, 0x0000_0280, 23, 0xFDE5_380C, 0xC017_5FA8) == 0x2EE1_E3FE
    ensures Sum(H(0x2EE1_E3FE, 0xC017_5FA8, 0x6109_54EB), 0x9104_4D5D, 0x3231_3039, 4, 0xA4BE_EA44, 0x2EE1_E3FE) == 0xAE26_ED7D
    ensures Sum(H(0xAE26_ED7D, 0x2EE1_E3FE, 0xC017_5FA8), 0x6109_54EB, 0x0000_0080, 11, 0x4BDE_CFA9, 0xAE26_ED7D) == 0x71D8_ECEA
    ensures Sum(H(0x71D8_ECEA, 0xAE26_ED7D, 0x2EE1_E3FE), 0xC017_5FA8, 0x0000_0000, 16, 0xF6BB_4B60, 0x71D8_ECEA) == 0xFF4A_94DC
    ensures Sum(H(0xFF4A_94DC, 0x71D8_ECEA, 0xAE26_ED7D), 0x2EE1_E3FE, 0x0000_0000, 23, 0xBEBF_BC70, 0xFF4A_94DC) == 0xDBD1_BFF6
    ensures Sum(H(0xDBD1_BFF6, 0xFF4A_94DC, 0x71D8_ECEA), 0xAE26_ED7D, 0x0000_0000, 4, 0x289B_7EC6, 0xDBD1_BFF6) == 0x9C35_0028
    ensures Sum(H(0x9C35_0028, 0xDBD1_BFF6, 0xFF4A_94DC), 0x71D8_ECEA, 0x3837_3635, 11, 0xEAA1_27FA, 0x9C35_0028) == 0x97E5_DA92
    ensures Sum(H(0x97E5_DA92, 0x9C35_0028, 0xDBD1_BFF6), 0xFF4A_94DC, 0x3039_3837, 16, 0xD4EF_3085, 0x97E5_DA92) == 0xFACA_AF06
    ensures Sum(H(0xFACA_AF06, 0x97E5_DA92, 0x9C35_0028), 0xDBD1_BFF6, 0x0000_0000, 23, 0x0488_1D05, 0xFACA_AF06) == 0x56B3_692F
    ensures Sum(H(0x56B3_692F, 0xFACA_AF06, 0x97E5_DA92), 0x9C35_0028, 0x0000_0000, 4, 0xD9D4_D039, 0x56B3_692F) == 0x7112_3AFA
    ensures Sum(H(0x7112_3AFA, 0x56B3_692F, 0xFACA_AF06), 0x97E5_DA92, 0x0000_0000, 11, 0xE6DB_99E5, 0x7112_3AFA) == 0xDC9C_8DDB
    ensures Sum(H(0xDC9C_8DDB, 0x7112_3AFA, 0x56B3_692F), 0xFACA_AF06, 0x0000_0000, 16, 0x1FA2_7CF8, 0xDC9C_8DDB) == 0xE6A8_A386
    ensures Sum(H(0xE6A8_A386, 0xDC9C_8DDB, 0x7112_3AFA), 0x56B3_692F, 0x3635_3433, 23, 0xC4AC_5665, 0xE6A8_A386) == 0x1DF7_010A
  {
  }

  lemma SecondValues4()
    ensures Sum(I(0x1DF7_010A, 0xE6A8_A386, 0xDC9C_8DDB), 0x7112_3AFA, 0x3837_3635, 6, 0xF429_2244, 0x1DF7_010A) == 0xD290_07E7
    ensures Sum(I(0xD290_07E7, 0x1DF7_010A, 0xE6A8_A386), 0xDC9C_8DDB, 0x0000_0000, 10, 0x432A_FF97, 0xD290_07E7) == 0x7241_A77E
    ensures Sum(I(0x7241_A77E, 0xD290_07E7, 0x1DF7_010A), 0xE6A8_A386, 0x0000_0280, 15, 0xAB94_23A7, 0x7241_A77E) == 0xD324_8109
    ensures Sum(I(0xD324_8109, 0x7241_A77E, 0xD290_07E7), 0x1DF7_010A, 0x0000_0000, 21, 0xFC93_A039, 0xD324_8109) == 0xC879_7828
    ensures Sum(I(0xC879_7828, 0xD324_8109, 0x7241_A77E), 0xD290_07E7, 0x0000_0000, 6, 0x655B_59C3, 0xC879_7828) == 0x7A50_4ABD
    ensures Sum(I(0x7A50_4ABD, 0xC879_7828, 0xD324_8109), 0x7241_A77E, 0x3039_3837, 10, 0x8F0C_CC92, 0x7A50_4ABD) == 0x211C_C65D
    ensures Sum(I(0x211C_C65D, 0x7A50_4ABD, 0xC879_7828), 0xD324_8109, 0x0000_0000, 15, 0xFFEF_F47D, 0x211C_C65D) == 0xA290_D6CE
    ensures Sum(I(0xA290_D6CE, 0x211C_C65D, 0x7A50_4ABD), 0xC879_7828, 0x3231_3039, 21, 0x8584_5DD1, 0xA290_D6CE) == 0x9B31_B114
    ensures Sum(I(0x9B31_B114, 0xA290_D6CE, 0x211C_C65D), 0x7A50_4ABD, 0x0000_0000, 6, 0x6FA8_7E4F, 0x9B31_B114) == 0x723F_D22D
    ensures Sum(I(0x723F_D22D, 0x9B31_B114, 0xA290_D6CE), 0x211C_C65D, 0x0000_0000, 10, 0xFE2C_E6E0, 0x723F_D22D) == 0xD21D_6A3B
    ensures Sum(I(0xD21D_6A3B, 0x723F_D22D, 0x9B31_B114), 0xA290_D6CE, 0x0000_0000, 15, 0xA301_4314, 0xD21D_6A3B) == 0x3D79_CF74
    ensures Sum(I(0x3D79_CF74, 0xD21D_6A3B, 0x723F_D22D), 0x9B31_B114, 0x0000_0000, 21, 0x4E08_11A1, 0x3D79_CF74) == 0x4DC4_F33D
    ensures Sum(I(0x4DC4_F33D, 0x3D79_CF74, 0xD21D_6A3B), 0x723F_D22D, 0x0000_0080, 6, 0xF753_7E82, 0x4DC4_F33D) == 0xDA67_616B
    ensures Sum(I(0xDA67_616B, 0x4DC4_F33D, 0x3D79_CF74), 0xD21D_6A3B, 0x0000_0000, 10, 0xBD3A_F235, 0xDA67_616B) == 0xC9E4_7A04
    ensures Sum(I(0xC9E4_7A04, 0xDA67_616B, 0x4DC4_F33D), 0x3D79_CF74, 0x3635_3433, 15, 0x2AD7_D2BB, 0xC9E4_7A04) == 0x44EC_5A13
    ensures Sum(I(0x44EC_5A13, 0xC9E4_7A04, 0xDA67_616B), 0x4DC4_F33D, 0x0000_0000, 21, 0xEB86_D391, 0x44EC_5A13) == 0xB129_06A0
  {
  }

  lemma SecondRound1()
    requires At(SECOND, MIDDLE, 0, 0xC88D_8BEC, 0xA4A0_DC8B, 0xE9ED_EF99, 0xB0D1_8D1D)
    ensures At(SECOND, MIDDLE, 16, 0xDB4F_F71C, 0x58B1_2EAB, 0x0439_6A39, 0x9B6B_4960)
  {
    hide *;
    RowsFrom0();
    RowsFrom8();
    SecondWords();
    SecondValues1();
    Step1(SECOND, MIDDLE, 0, 0xC88D_8BEC, 0xA4A0_DC8B, 0xE9ED_EF99, 0xB0D1_8D1D, 0, 0x3837_3635, 7, 0xD76A_A478, 0x353A_F7CF);
    Step1(SECOND, MIDDLE, 1, 0xB0D1_8D1D, 0x353A_F7CF, 0xA4A0_DC8B, 0xE9ED_EF99, 1, 0x3231_3039, 12, 0xE8C7_B756, 0x3A4F_735A);
    Step1(SECOND, MIDDLE, 2, 0xE9ED_EF99, 0x3A4F_735A, 0x353A_F7CF, 0xA4A0_DC8B, 2, 0x3635_3433, 17, 0x2420_70DB, 0x6335_6537);
    Step1(SECOND, MIDDLE, 3, 0xA4A0_DC8B, 0x6335_6537, 0x3A4F_735A, 0x353A_F7CF, 3, 0x3039_3837, 22, 0xC1BD_CEEE, 0x45E8_8F2C);
    Step1(SECOND, MIDDLE, 4, 0x353A_F7CF, 0x45E8_8F2C, 0x6335_6537, 0x3A4F_735A, 4, 0x0000_0080, 7, 0xF57C_0FAF, 0x3527_497E);
    Step1(SECOND, MIDDLE, 5, 0x3A4F_735A, 0x3527_497E, 0x45E8_8F2C, 0x6335_6537, 5, 0x0000_0000, 12, 0x4787_C62A, 0xAB92_660E);
    Step1(SECOND, MIDDLE, 6, 0x6335_6537, 0xAB92_660E, 0x3527_497E, 0x45E8_8F2C, 6, 0x0000_0000, 17, 0xA830_4613, 0x9483_47AE);
    Step1(SECOND, MIDDLE, 7, 0x45E8_8F2C, 0x9483_47AE, 0xAB92_660E, 0x3527_497E, 7, 0x0000_0000, 22, 0xFD46_9501, 0x377C_7D0A);
    Step1(SECOND, MIDDLE, 8, 0x3527_497E, 0x377C_7D0A, 0x9483_47AE, 0xAB92_660E, 8, 0x0000_0000, 7, 0x6980_98D8, 0xCC91_2F27);
    Step1(SECOND, MIDDLE, 9, 0xAB92_660E, 0xCC91_2F27, 0x377C_7D0A, 0x9483_47AE, 9, 0x0000_0000, 12, 0x8B44_F7AF, 0x6945_A3D5);
    Step1(SECOND, MIDDLE, 10, 0x9483_47AE, 0x6945_A3D5, 0xCC91_2F27, 0x377C_7D0A, 10, 0x0000_0000, 17, 0xFFFF_5BB1, 0xAE23_894D);
    Step1(SECOND, MIDDLE, 11, 0x377C_7D0A, 0xAE23_894D, 0x6945_A3D5, 0xCC91_2F27, 11, 0x0000_0000, 22, 0x895C_D7BE, 0xB9ED_E40C);
    Step1(SECOND, MIDDLE, 12, 0xCC91_2F27, 0xB9ED_E40C, 0xAE23_894D, 0x6945_A3D5, 12, 0x0000_0000, 7, 0x6B90_1122, 0xDB4F_F71C);
    Step1(SECOND, MIDDLE, 13, 0x6945_A3D5, 0xDB4F_F71C, 0xB9ED_E40C, 0xAE23_894D, 13, 0x0000_0000, 12, 0xFD98_7193, 0x9B6B_4960);
    Step1(SECOND, MIDDLE, 14, 0xAE23_894D, 0x9B6B_4960, 0xDB4F_F71C, 0xB9ED_E40C, 14, 0x0000_0280, 17, 0xA679_438E, 0x0439_6A39);
    Step1(SECOND, MIDDLE, 15, 0xB9ED_E40C, 0x0439_6A39, 0x9B6B_4960, 0xDB4F_F71C, 15, 0x0000_0000, 22, 0x49B4_0821, 0x58B1_2EAB);
  }

  lemma SecondRound2()
    requires At(SECOND, MIDDLE, 16, 0xDB4F_F71C, 0x58B1_2EAB, 0x0439_6A39, 0x9B6B_4960)
    ensures At(SECOND, MIDDLE, 32, 0x8761_F38E, 0x6709_2C33, 0x061B_C867, 0x7A51_6116)
  {
    hide *;
    RowsFrom16();
    RowsFrom24();
    SecondWords();
    SecondValues2();
    Step2(SECOND, MIDDLE, 16, 0xDB4F_F71C, 0x58B1_2EAB, 0x0439_6A39, 0x9B6B_4960, 1, 0x3231_3039, 5, 0xF61E_2562, 0x52C0_0CAE);
    Step2(SECOND, MIDDLE, 17, 0x9B6B_4960, 0x52C0_0CAE, 0x58B1_2EAB, 0x0439_6A39, 6, 0x0000_0000, 9, 0xC040_B340, 0xAAD2_A216);
    Step2(SECOND, MIDDLE, 18, 0x0439_6A39, 0xAAD2_A216, 0x52C0_0CAE, 0x58B1_2EAB, 11, 0x0000_0000, 14, 0x265E_5A51, 0xA476_AF6F);
    Step2(SECOND, MIDDLE, 19, 0x58B1_2EAB, 0xA476_AF6F, 0xAAD2_A216, 0x52C0_0CAE, 0, 0x3837_3635, 20, 0xE9B6_C7AA, 0x50F8_DE8C);
    Step2(SECOND, MIDDLE, 20, 0x52C0_0CAE, 0x50F8_DE8C, 0xA476_AF6F, 0xAAD2_A216, 5, 0x0000_0000, 5, 0xD62F_105D, 0x0D6E_6D91);
    Step2(SECOND, MIDDLE, 21, 0xAAD2_A216, 0x0D6E_6D91, 0x50F8_DE8C, 0xA476_AF6F, 10, 0x0000_0000, 9, 0x0244_1453, 0x17D6_4195);
    Step2(SECOND, MIDDLE, 22, 0xA476_AF6F, 0x17D6_4195, 0x0D6E_6D91, 0x50F8_DE8C, 15, 0x0000_0000, 14, 0xD8A1_E681, 0xD5B7_A850);
    Step2(SECOND, MIDDLE, 23, 0x50F8_DE8C, 0xD5B7_A850, 0x17D6_4195, 0x0D6E_6D91, 4, 0x0000_0080, 20, 0xE7D3_FBC8, 0x043C_B080);
    Step2(SECOND, MIDDLE, 24, 0x0D6E_6D91, 0x043C_B080, 0xD5B7_A850, 0x17D6_4195, 9, 0x0000_0000, 5, 0x21E1_CDE6, 0x74F9_377E);
    Step2(SECOND, MIDDLE, 25, 0x17D6_4195, 0x74F9_377E, 0x043C_B080, 0xD5B7_A850, 14, 0x0000_0280, 9, 0xC337_07D6, 0x01F2_ADDD);
    Step2(SECOND, MIDDLE, 26, 0xD5B7_A850, 0x01F2_ADDD, 0x74F9_377E, 0x043C_B080, 3, 0x3039_3837, 14, 0xF4D5_0D87, 0xE775_C8CA);
    Step2(SECOND, MIDDLE, 27, 0x043C_B080, 0xE775_C8CA, 0x01F2_ADDD, 0x74F9_377E, 8, 0x0000_0000, 20, 0x455A_14ED, 0xCB00_B96E);
    Step2(SECOND, MIDDLE, 28, 0x74F9_377E, 0xCB00_B96E, 0xE775_C8CA, 0x01F2_ADDD, 13, 0x0000_0000, 5, 0xA9E3_E905, 0x8761_F38E);
    Step2(SECOND, MIDDLE, 29, 0x01F2_ADDD, 0x8761_F38E, 0xCB00_B96E, 0xE775_C8CA, 2, 0x3635_3433, 9, 0xFCEF_A3F8, 0x7A51_6116);
    Step2(SECOND, MIDDLE, 30, 0xE775_C8CA, 0x7A51_6116, 0x8761_F38E, 0xCB00_B96E, 7, 0x0000_0000, 14, 0x676F_02D9, 0x061B_C867);
    Step2(SECOND, MIDDLE, 31, 0xCB00_B96E, 0x061B_C867, 0x7A51_6116, 0x8761_F38E, 12, 0x0000_0000, 20, 0x8D2A_4C8A, 0x6709_2C33);
  }

  lemma SecondRound3()
    requires At(SECOND, MIDDLE, 32, 0x8761_F38E, 0x6709_2C33, 0x061B_C867, 0x7A51_6116)
    ensures At(SECOND, MIDDLE, 48, 0x7112_3AFA, 0x1DF7_010A, 0xE6A8_A386, 0xDC9C_8DDB)
  {
    hide *;
    RowsFrom32();
    RowsFrom40();
    SecondWords();
    SecondValues3();
    Step3(SECOND, MIDDLE, 32, 0x8761_F38E, 0x6709_2C33, 0x061B_C867, 0x7A51_6116, 5, 0x0000_0000, 4, 0xFFFA_3942, 0x9104_4D5D);
    Step3(SECOND, MIDDLE, 33, 0x7A51_6116, 0x9104_4D5D, 0x6709_2C33, 0x061B_C867, 8, 0x0000_0000, 11, 0x8771_F681, 0x6109_54EB);
    Step3(SECOND, MIDDLE, 34, 0x061B_C867, 0x6109_54EB, 0x9104_4D5D, 0x6709_2C33, 11, 0x0000_0000, 16, 0x6D9D_6122, 0xC017_5FA8);
    Step3(SECOND, MIDDLE, 35, 0x6709_2C33, 0xC017_5FA8, 0x6109_54EB, 0x9104_4D5D, 14, 0x0000_0280, 23, 0xFDE5_380C, 0x2EE1_E3FE);
    Step3(SECOND, MIDDLE, 36, 0x9104_4D5D, 0x2EE1_E3FE, 0xC017_5FA8, 0x6109_54EB, 1, 0x3231_3039, 4, 0xA4BE_EA44, 0xAE26_ED7D);
    Step3(SECOND, MIDDLE, 37, 0x6109_54EB, 0xAE26_ED7D, 0x2EE1_E3FE, 0xC017_5FA8, 4, 0x0000_0080, 11, 0x4BDE_CFA9, 0x71D8_ECEA);
    Step3(SECOND, MIDDLE, 38, 0xC017_5FA8, 0x71D8_ECEA, 0xAE26_ED7D, 0x2EE1_E3FE, 7, 0x0000_0000, 16, 0xF6BB_4B60, 0xFF4A_94DC);
    Step3(SECOND, MIDDLE, 39, 0x2EE1_E3FE, 0xFF4A_94DC, 0x71D8_ECEA, 0xAE26_ED7D, 10, 0x0000_0000, 23, 0xBEBF_BC70, 0xDBD1_BFF6);
    Step3(SECOND, MIDDLE, 40, 0xAE26_ED7D, 0xDBD1_BFF6, 0xFF4A_94DC, 0x71D8_ECEA, 13, 0x0000_0000, 4, 0x289B_7EC6, 0x9C35_0028);
    Step3(SECOND, MIDDLE, 41, 0x71D8_ECEA, 0x9C35_0028, 0xDBD1_BFF6, 0xFF4A_94DC, 0, 0x3837_3635, 11, 0xEAA1_27FA, 0x97E5_DA92);
    Step3(SECOND, MIDDLE, 42, 0xFF4A_94DC, 0x97E5_DA92, 0x9C35_0028, 0xDBD1_BFF6, 3, 0x3039_3837, 16, 0xD4EF_3085, 0xFACA_AF06);
    Step3(SECOND, MIDDLE, 43, 0xDBD1_BFF6, 0xFACA_AF06, 0x97E5_DA92, 0x9C35_0028, 6, 0x0000_0000, 23, 0x0488_1D05, 0x56B3_692F);
    Step3(SECOND, MIDDLE, 44, 0x9C35_0028, 0x56B3_692F, 0xFACA_AF06, 0x97E5_DA92, 9, 0x0000_0000, 4, 0xD9D4_D039, 0x7112_3AFA);
    Step3(SECOND, MIDDLE, 45, 0x97E5_DA92, 0x7112_3AFA, 0x56B3_692F, 0xFACA_AF06, 12, 0x0000_0000, 11, 0xE6DB_99E5, 0xDC9C_8DDB);
    Step3(SECOND, MIDDLE, 46, 0xFACA_AF06, 0xDC9C_8DDB, 0x7112_3AFA, 0x56B3_692F, 15, 0x0000_0000, 16, 0x1FA2_7CF8, 0xE6A8_A386);
    Step3(SECOND, MIDDLE, 47, 0x56B3_692F, 0xE6A8_A386, 0xDC9C_8DDB, 0x7112_3AFA, 2, 0x3635_3433, 23, 0xC4AC_5665, 0x1DF7_010A);
  }

  lemma SecondRound4()
    requires At(SECOND, MIDDLE, 48, 0x7112_3AFA, 0x1DF7_010A, 0xE6A8_A386, 0xDC9C_8DDB)
    ensures At(SECOND, MIDDLE, 64, 0xDA67_616B, 0xB129_06A0, 0x44EC_5A13, 0xC9E4_7A04)
  {
    hide *;
    RowsFrom48();
    RowsFrom56();
    SecondWords();
    SecondValues4();
    Step4(SECOND, MIDDLE, 48, 0x7112_3AFA, 0x1DF7_010A, 0xE6A8_A386, 0xDC9C_8DDB, 0, 0x3837_3635, 6, 0xF429_2244, 0xD290_07E7);
    Step4(SECOND, MIDDLE, 49, 0xDC9C_8DDB, 0xD290_07E7, 0x1DF7_010A, 0xE6A8_A386, 7, 0x0000_0000, 10, 0x432A_FF97, 0x7241_A77E);
    Step4(SECOND, MIDDLE, 50, 0xE6A8_A386, 0x7241_A77E, 0xD290_07E7, 0x1DF7_010A, 14, 0x0000_0280, 15, 0xAB94_23A7, 0xD324_8109);
    Step4(SECOND, MIDDLE, 51, 0x1DF7_010A, 0xD324_8109, 0x7241_A77E, 0xD290_07E7, 5, 0x0000_0000, 21, 0xFC93_A039, 0xC879_7828);
    Step4(SECOND, MIDDLE, 52, 0xD290_07E7, 0xC879_7828, 0xD324_8109, 0x7241_A77E, 12, 0x0000_0000, 6, 0x655B_59C3, 0x7A50_4ABD);
    Step4(SECOND, MIDDLE, 53, 0x7241_A77E, 0x7A50_4ABD, 0xC879_7828, 0xD324_8109, 3, 0x3039_3837, 10, 0x8F0C_CC92, 0x211C_C65D);
    Step4(SECOND, MIDDLE, 54, 0xD324_8109, 0x211C_C65D, 0x7A50_4ABD, 0xC879_7828, 10, 0x0000_0000, 15, 0xFFEF_F47D, 0xA290_D6CE);
    Step4(SECOND, MIDDLE, 55, 0xC879_7828, 0xA290_D6CE, 0x211C_C65D, 0x7A50_4ABD, 1, 0x3231_3039, 21, 0x8584_5DD1, 0x9B31_B114);
    Step4(SECOND, MIDDLE, 56, 0x7A50_4ABD, 0x9B31_B114, 0xA290_D6CE, 0x211C_C65D, 8, 0x0000_0000, 6, 0x6FA8_7E4F, 0x723F_D22D);
    Step4(SECOND, MIDDLE, 57, 0x211C_C65D, 0x723F_D22D, 0x9B31_B114, 0xA290_D6CE, 15, 0x0000_0000, 10, 0xFE2C_E6E0, 0xD21D_6A3B);
    Step4(SECOND, MIDDLE, 58, 0xA290_D6CE, 0xD21D_6A3B, 0x723F_D22D, 0x9B31_B114, 6, 0x0000_0000, 15, 0xA301_4314, 0x3D79_CF74);
    Step4(SECOND, MIDDLE, 59, 0x9B31_B114, 0x3D79_CF74, 0xD21D_6A3B, 0x723F_D22D, 13, 0x0000_0000, 21, 0x4E08_11A1, 0x4DC4_F33D);
    Step4(SECOND, MIDDLE, 60, 0x723F_D22D, 0x4DC4_F33D, 0x3D79_CF74, 0xD21D_6A3B, 4, 0x0000_0080, 6, 0xF753_7E82, 0xDA67_616B);
    Step4(SECOND, MIDDLE, 61, 0xD21D_6A3B, 0xDA67_616B, 0x4DC4_F33D, 0x3D79_CF74, 11, 0x0000_0000, 10, 0xBD3A_F235, 0xC9E4_7A04);
    Step4(SECOND, MIDDLE, 62, 0x3D79_CF74, 0xC9E4_7A04, 0xDA67_616B, 0x4DC4_F33D, 2, 0x3635_3433, 15, 0x2AD7_D2BB, 0x44EC_5A13);
    Step4(SECOND, MIDDLE, 63, 0x4DC4_F33D, 0x44EC_5A13, 0xC9E4_7A04, 0xDA67_616B, 9, 0x0000_0000, 21, 0xEB86_D391, 0xB129_06A0);
  }

  lemma SecondBlock()
    ensures Plus(MIDDLE, Steps(SECOND, MIDDLE, 64)) == Regs(0xA2F4_ED57, 0x55C9_E32B, 0x2EDA_49AC, 0x7AB6_0721)
  {
    AtStart(SECOND, MIDDLE);
    SecondRound1();
    SecondRound2();
    SecondRound3();
    SecondRound4();
  }
}
