/** Digests that section A.5 of RFC 1321 lists, from the definition of Md5Spec. */
module Md5Digests {
  import opened Md5Spec
  import opened Md5Rounds

  const ABC_TEXT: seq<Byte> := [0x61, 0x62, 0x63]

  /** Eight times the digits 1 to 9 and 0. */
  function Digits(): seq<Byte> {
    seq(80, i requires 0 <= i < 80 => 0x30 + (i + 1) % 10)
  }

  // ---- the padded messages ----

  lemma WordsAre(block: seq<Byte>, x: seq<bv32>)
    requires |block| == 64 && |x| == 16
    requires forall k {:trigger x[k]} :: 0 <= k < 16 ==>
               x[k] == WordOf(block[4 * k], block[4 * k + 1], block[4 * k + 2], block[4 * k + 3])
    ensures Words(block) == x
  {
    hide WordOf;
  }

  lemma WordIs(b0: Byte, b1: Byte, b2: Byte, b3: Byte, w: bv32)
    requires w as nat == b0 + 0x100 * b1 + 0x1_0000 * b2 + 0x100_0000 * b3
    ensures WordOf(b0, b1, b2, b3) == w
  {
  }

  lemma AbcWord()
    ensures WordOf(0x61, 0x62, 0x63, 0x80) == 0x8063_6261
  {
    hide WordOf;
    WordIs(0x61, 0x62, 0x63, 0x80, 0x8063_6261);
  }

  lemma ZeroWord()
    ensures WordOf(0, 0, 0, 0) == 0x0000_0000
  {
    hide WordOf;
    WordIs(0, 0, 0, 0, 0x0000_0000);
  }

  lemma EndWord()
    ensures WordOf(0x80, 0, 0, 0) == 0x0000_0080
  {
    hide WordOf;
    WordIs(0x80, 0, 0, 0, 0x0000_0080);
  }

  lemma LengthWord()
    ensures WordOf(24, 0, 0, 0) == 0x0000_0018
  {
    hide WordOf;
    WordIs(24, 0, 0, 0, 0x0000_0018);
  }

  lemma LongWord()
    ensures WordOf(0x80, 2, 0, 0) == 0x0000_0280
  {
    hide WordOf;
    WordIs(0x80, 2, 0, 0, 0x0000_0280);
  }

  lemma Word1234()
    ensures WordOf(0x31, 0x32, 0x33, 0x34) == 0x3433_3231
  {
    hide WordOf;
    WordIs(0x31, 0x32, 0x33, 0x34, 0x3433_3231);
  }

  lemma Word5678()
    ensures WordOf(0x35, 0x36, 0x37, 0x38) == 0x3837_3635
  {
    hide WordOf;
    WordIs(0x35, 0x36, 0x37, 0x38, 0x3837_3635);
  }

  lemma Word9012()
    ensures WordOf(0x39, 0x30, 0x31, 0x32) == 0x3231_3039
  {
    hide WordOf;
    WordIs(0x39, 0x30, 0x31, 0x32, 0x3231_3039);
  }

  lemma Word3456()
    ensures WordOf(0x33, 0x34, 0x35, 0x36) == 0x3635_3433
  {
    hide WordOf;
    WordIs(0x33, 0x34, 0x35, 0x36, 0x3635_3433);
  }

  lemma Word7890()
    ensures WordOf(0x37, 0x38, 0x39, 0x30) == 0x3039_3837
  {
    hide WordOf;
    WordIs(0x37, 0x38, 0x39, 0x30, 0x3039_3837);
  }

  lemma EmptyPadded()
    ensures |Padded([])| == 64 && Words(Padded([])) == EMPTY
  {
    assert PadZeros(0) == 55 && LittleEndian(0, 8) == [0, 0, 0, 0, 0, 0, 0, 0];
    EmptyLaidOut();
    hide Padded;
    EmptyWordsAre(Padded([]));
  }

  lemma EmptyLaidOut()
    requires PadZeros(0) == 55 && LittleEndian(0, 8) == [0, 0, 0, 0, 0, 0, 0, 0]
    ensures |Padded([])| == 64 && Padded([])[0] == 0x80 && forall i :: 1 <= i < 64 ==> Padded([])[i] == 0
  {
    hide PadZeros, LittleEndian;
  }

  lemma EmptyWordsAre(b: seq<Byte>)
    requires |b| == 64 && b[0] == 0x80 && forall i :: 1 <= i < 64 ==> b[i] == 0
    ensures Words(b) == EMPTY
  {
    hide WordOf;
    EndWord();
    ZeroWord();
    WordsAre(b, EMPTY);
  }

  lemma AbcPadded()
    ensures |Padded(ABC_TEXT)| == 64 && Words(Padded(ABC_TEXT)) == ABC
  {
    assert PadZeros(3) == 52 && LittleEndian(24, 8) == [24, 0, 0, 0, 0, 0, 0, 0];
    AbcLaidOut();
    hide Padded;
    AbcWordsAre(Padded(ABC_TEXT));
  }

  lemma AbcLaidOut()
    requires PadZeros(3) == 52 && LittleEndian(24, 8) == [24, 0, 0, 0, 0, 0, 0, 0]
    ensures var p := Padded(ABC_TEXT);
            && |p| == 64 && p[0] == 0x61 && p[1] == 0x62 && p[2] == 0x63 && p[3] == 0x80 && p[56] == 24
            && forall i :: 4 <= i < 64 && i != 56 ==> p[i] == 0
  {
    hide PadZeros, LittleEndian;
  }

  lemma AbcWordsAre(b: seq<Byte>)
    requires |b| == 64 && b[0] == 0x61 && b[1] == 0x62 && b[2] == 0x63 && b[3] == 0x80 && b[56] == 24
    requires forall i :: 4 <= i < 64 && i != 56 ==> b[i] == 0
    ensures Words(b) == ABC
  {
    hide WordOf;
    AbcWord();
    LengthWord();
    ZeroWord();
    WordsAre(b, ABC);
  }

  lemma DigitsPadded()
    ensures var p := Padded(Digits());
            |p| == 128 && Words(p[..64]) == FIRST && Words(p[64..]) == SECOND
  {
    assert PadZeros(80) == 39 && LittleEndian(640, 8) == [0x80, 2, 0, 0, 0, 0, 0, 0];
    DigitsLaidOut();
    hide Padded;
    var p := Padded(Digits());
    DigitsFirst(p[..64]);
    DigitsSecond(p[64..]);
  }

  lemma DigitsLaidOut()
    requires PadZeros(80) == 39 && LittleEndian(640, 8) == [0x80, 2, 0, 0, 0, 0, 0, 0]
    ensures var p := Padded(Digits());
            && |p| == 128 && (forall i :: 0 <= i < 64 ==> p[i] == 0x30 + (i + 1) % 10)
            && var q := p[64..];
               && (forall i :: 0 <= i < 16 ==> q[i] == 0x30 + (i + 5) % 10)
               && q[16] == 0x80 && q[56] == 0x80 && q[57] == 2
               && forall i :: 17 <= i < 64 && i != 56 && i != 57 ==> q[i] == 0
  {
    hide PadZeros, LittleEndian;
    var p := Padded(Digits());
    assert forall i :: 0 <= i < 80 ==> p[i] == 0x30 + (i + 1) % 10;
  }

  lemma DigitBytes(b: seq<Byte>)
    requires 16 <= |b| <= 80 && forall i :: 0 <= i < |b| ==> b[i] == 0x30 + (i + 1) % 10
    ensures b[0] == 0x31 && b[1] == 0x32 && b[2] == 0x33 && b[3] == 0x34
    ensures b[4] == 0x35 && b[5] == 0x36 && b[6] == 0x37 && b[7] == 0x38
    ensures b[8] == 0x39 && b[9] == 0x30 && b[10] == 0x31 && b[11] == 0x32
    ensures b[12] == 0x33 && b[13] == 0x34 && b[14] == 0x35 && b[15] == 0x36
  {
  }

  lemma MoreDigitBytes(b: seq<Byte>)
    requires |b| == 64 && forall i :: 0 <= i < |b| ==> b[i] == 0x30 + (i + 1) % 10
    ensures b[16] == 0x37 && b[17] == 0x38 && b[18] == 0x39 && b[19] == 0x30
    ensures b[20] == 0x31 && b[21] == 0x32 && b[22] == 0x33 && b[23] == 0x34
    ensures b[24] == 0x35 && b[25] == 0x36 && b[26] == 0x37 && b[27] == 0x38
    ensures b[28] == 0x39 && b[29] == 0x30 && b[30] == 0x31 && b[31] == 0x32
    ensures b[32] == 0x33 && b[33] == 0x34 && b[34] == 0x35 && b[35] == 0x36
    ensures b[36] == 0x37 && b[37] == 0x38 && b[38] == 0x39 && b[39] == 0x30
    ensures b[40] == 0x31 && b[41] == 0x32 && b[42] == 0x33 && b[43] == 0x34
    ensures b[44] == 0x35 && b[45] == 0x36 && b[46] == 0x37 && b[47] == 0x38
    ensures b[48] == 0x39 && b[49] == 0x30 && b[50] == 0x31 && b[51] == 0x32
    ensures b[52] == 0x33 && b[53] == 0x34 && b[54] == 0x35 && b[55] == 0x36
    ensures b[56] == 0x37 && b[57] == 0x38 && b[58] == 0x39 && b[59] == 0x30
    ensures b[60] == 0x31 && b[61] == 0x32 && b[62] == 0x33 && b[63] == 0x34
  {
  }

  lemma DigitsFirst(b: seq<Byte>)
    requires |b| == 64 && forall i :: 0 <= i < 64 ==> b[i] == 0x30 + (i + 1) % 10
    ensures Words(b) == FIRST
  {
    DigitBytes(b);
    MoreDigitBytes(b);
    FirstWordsAre(b);
  }

  lemma FirstWordsAre(b: seq<Byte>)
    requires |b| == 64
    requires b[0] == 0x31 && b[1] == 0x32 && b[2] == 0x33 && b[3] == 0x34
    requires b[4] == 0x35 && b[5] == 0x36 && b[6] == 0x37 && b[7] == 0x38
    requires b[8] == 0x39 && b[9] == 0x30 && b[10] == 0x31 && b[11] == 0x32
    requires b[12] == 0x33 && b[13] == 0x34 && b[14] == 0x35 && b[15] == 0x36
    requires b[16] == 0x37 && b[17] == 0x38 && b[18] == 0x39 && b[19] == 0x30
    requires b[20] == 0x31 && b[21] == 0x32 && b[22] == 0x33 && b[23] == 0x34
    requires b[24] == 0x35 && b[25] == 0x36 && b[26] == 0x37 && b[27] == 0x38
    requires b[28] == 0x39 && b[29] == 0x30 && b[30] == 0x31 && b[31] == 0x32
    requires b[32] == 0x33 && b[33] == 0x34 && b[34] == 0x35 && b[35] == 0x36
    requires b[36] == 0x37 && b[37] == 0x38 && b[38] == 0x39 && b[39] == 0x30
    requires b[40] == 0x31 && b[41] == 0x32 && b[42] == 0x33 && b[43] == 0x34
    requires b[44] == 0x35 && b[45] == 0x36 && b[46] == 0x37 && b[47] == 0x38
    requires b[48] == 0x39 && b[49] == 0x30 && b[50] == 0x31 && b[51] == 0x32
    requires b[52] == 0x33 && b[53] == 0x34 && b[54] == 0x35 && b[55] == 0x36
    requires b[56] == 0x37 && b[57] == 0x38 && b[58] == 0x39 && b[59] == 0x30
    requires b[60] == 0x31 && b[61] == 0x32 && b[62] == 0x33 && b[63] == 0x34
    ensures Words(b) == FIRST
  {
    hide WordOf;
    DigitWords();
    WordsAre(b, FIRST);
  }

  lemma LastDigitBytes(b: seq<Byte>)
    requires |b| == 64 && forall i :: 0 <= i < 16 ==> b[i] == 0x30 + (i + 5) % 10
    ensures b[0] == 0x35 && b[1] == 0x36 && b[2] == 0x37 && b[3] == 0x38
    ensures b[4] == 0x39 && b[5] == 0x30 && b[6] == 0x31 && b[7] == 0x32
    ensures b[8] == 0x33 && b[9] == 0x34 && b[10] == 0x35 && b[11] == 0x36
    ensures b[12] == 0x37 && b[13] == 0x38 && b[14] == 0x39 && b[15] == 0x30
  {
  }

  lemma DigitsSecond(b: seq<Byte>)
    requires |b| == 64 && forall i :: 0 <= i < 16 ==> b[i] == 0x30 + (i + 5) % 10
    requires b[16] == 0x80 && b[56] == 0x80 && b[57] == 2
    requires forall i :: 17 <= i < 64 && i != 56 && i != 57 ==> b[i] == 0
    ensures Words(b) == SECOND
  {
    LastDigitBytes(b);
    SecondWordsAre(b);
  }

  lemma SecondWordsAre(b: seq<Byte>)
    requires |b| == 64
    requires b[0] == 0x35 && b[1] == 0x36 && b[2] == 0x37 && b[3] == 0x38
    requires b[4] == 0x39 && b[5] == 0x30 && b[6] == 0x31 && b[7] == 0x32
    requires b[8] == 0x33 && b[9] == 0x34 && b[10] == 0x35 && b[11] == 0x36
    requires b[12] == 0x37 && b[13] == 0x38 && b[14] == 0x39 && b[15] == 0x30
    requires b[16] == 0x80 && b[56] == 0x80 && b[57] == 2
    requires forall i :: 17 <= i < 64 && i != 56 && i != 57 ==> b[i] == 0
    ensures Words(b) == SECOND
  {
    hide WordOf;
    DigitWords();
    EndWord();
    LongWord();
    ZeroWord();
    WordsAre(b, SECOND);
  }

  lemma DigitWords()
    ensures WordOf(0x31, 0x32, 0x33, 0x34) == 0x3433_3231 && WordOf(0x35, 0x36, 0x37, 0x38) == 0x3837_3635
    ensures WordOf(0x39, 0x30, 0x31, 0x32) == 0x3231_3039 && WordOf(0x33, 0x34, 0x35, 0x36) == 0x3635_3433
    ensures WordOf(0x37, 0x38, 0x39, 0x30) == 0x3039_3837
  {
    hide WordOf;
    Word1234();
    Word5678();
    Word9012();
    Word3456();
    Word7890();
  }

  // ---- the digests ----

  lemma OneBlock(s: seq<Byte>)
    requires |s| == 64
    ensures Digested(s, 1) == Plus(INIT, Steps(Words(s), INIT, 64))
  {
    hide Steps, Words, Plus;
    assert Digested(s, 0) == INIT && s[0..64] == s;
  }

  lemma TwoBlocks(s: seq<Byte>, r: Regs)
    requires |s| == 128 && r == Plus(INIT, Steps(Words(s[..64]), INIT, 64))
    ensures Digested(s, 2) == Plus(r, Steps(Words(s[64..]), r, 64))
  {
    hide Steps, Words, Plus;
    assert Digested(s, 0) == INIT && s[0..64] == s[..64] && s[64..128] == s[64..];
    assert Digested(s, 1) == r;
  }

  lemma OutputIs(r: Regs, s: seq<Byte>)
    requires |s| == 16
    requires forall i {:trigger s[i]} :: 0 <= i < 4 ==>
               && s[i] == ByteOf(r.a, i) && s[4 + i] == ByteOf(r.b, i)
               && s[8 + i] == ByteOf(r.c, i) && s[12 + i] == ByteOf(r.d, i)
    ensures Output(r) == s
  {
    hide ByteOf;
    var o := Output(r);
    forall i | 0 <= i < 16
      ensures o[i] == s[i]
    {
      assert s[i % 4] == ByteOf(r.a, i % 4);
    }
  }

  lemma EmptyOutput()
    ensures Output(Regs(0xD98C_1DD4, 0x04B2_008F, 0x9809_80E9, 0x7E42_F8EC)) ==
            [0xD4, 0x1D, 0x8C, 0xD9, 0x8F, 0x00, 0xB2, 0x04,
             0xE9, 0x80, 0x09, 0x98, 0xEC, 0xF8, 0x42, 0x7E]
  {
    assert ByteOf(0xD98C_1DD4, 0) == 0xD4 && ByteOf(0xD98C_1DD4, 1) == 0x1D;
    assert ByteOf(0xD98C_1DD4, 2) == 0x8C && ByteOf(0xD98C_1DD4, 3) == 0xD9;
    assert ByteOf(0x04B2_008F, 0) == 0x8F && ByteOf(0x04B2_008F, 1) == 0x00;
    assert ByteOf(0x04B2_008F, 2) == 0xB2 && ByteOf(0x04B2_008F, 3) == 0x04;
    assert ByteOf(0x9809_80E9, 0) == 0xE9 && ByteOf(0x9809_80E9, 1) == 0x80;
    assert ByteOf(0x9809_80E9, 2) == 0x09 && ByteOf(0x9809_80E9, 3) == 0x98;
    assert ByteOf(0x7E42_F8EC, 0) == 0xEC && ByteOf(0x7E42_F8EC, 1) == 0xF8;
    assert ByteOf(0x7E42_F8EC, 2) == 0x42 && ByteOf(0x7E42_F8EC, 3) == 0x7E;
    hide ByteOf;
    OutputIs(Regs(0xD98C_1DD4, 0x04B2_008F, 0x9809_80E9, 0x7E42_F8EC),
             [0xD4, 0x1D, 0x8C, 0xD9, 0x8F, 0x00, 0xB2, 0x04,
              0xE9, 0x80, 0x09, 0x98, 0xEC, 0xF8, 0x42, 0x7E]);
  }

  lemma AbcOutput()
    ensures Output(Regs(0x9850_0190, 0xB04F_D23C, 0x7D3F_96D6, 0x727F_E128)) ==
            [0x90, 0x01, 0x50, 0x98, 0x3C, 0xD2, 0x4F, 0xB0,
             0xD6, 0x96, 0x3F, 0x7D, 0x28, 0xE1, 0x7F, 0x72]
  {
    assert ByteOf(0x9850_0190, 0) == 0x90 && ByteOf(0x9850_0190, 1) == 0x01;
    assert ByteOf(0x9850_0190, 2) == 0x50 && ByteOf(0x9850_0190, 3) == 0x98;
    assert ByteOf(0xB04F_D23C, 0) == 0x3C && ByteOf(0xB04F_D23C, 1) == 0xD2;
    assert ByteOf(0xB04F_D23C, 2) == 0x4F && ByteOf(0xB04F_D23C, 3) == 0xB0;
    assert ByteOf(0x7D3F_96D6, 0) == 0xD6 && ByteOf(0x7D3F_96D6, 1) == 0x96;
    assert ByteOf(0x7D3F_96D6, 2) == 0x3F && ByteOf(0x7D3F_96D6, 3) == 0x7D;
    assert ByteOf(0x727F_E128, 0) == 0x28 && ByteOf(0x727F_E128, 1) == 0xE1;
    assert ByteOf(0x727F_E128, 2) == 0x7F && ByteOf(0x727F_E128, 3) == 0x72;
    hide ByteOf;
    OutputIs(Regs(0x9850_0190, 0xB04F_D23C, 0x7D3F_96D6, 0x727F_E128),
             [0x90, 0x01, 0x50, 0x98, 0x3C, 0xD2, 0x4F, 0xB0,
              0xD6, 0x96, 0x3F, 0x7D, 0x28, 0xE1, 0x7F, 0x72]);
  }

  lemma DigitsOutput()
    ensures Output(Regs(0xA2F4_ED57, 0x55C9_E32B, 0x2EDA_49AC, 0x7AB6_0721)) ==
            [0x57, 0xED, 0xF4, 0xA2, 0x2B, 0xE3, 0xC9, 0x55,
             0xAC, 0x49, 0xDA, 0x2E, 0x21, 0x07, 0xB6, 0x7A]
  {
    assert ByteOf(0xA2F4_ED57, 0) == 0x57 && ByteOf(0xA2F4_ED57, 1) == 0xED;
    assert ByteOf(0xA2F4_ED57, 2) == 0xF4 && ByteOf(0xA2F4_ED57, 3) == 0xA2;
    assert ByteOf(0x55C9_E32B, 0) == 0x2B && ByteOf(0x55C9_E32B, 1) == 0xE3;
    assert ByteOf(0x55C9_E32B, 2) == 0xC9 && ByteOf(0x55C9_E32B, 3) == 0x55;
    assert ByteOf(0x2EDA_49AC, 0) == 0xAC && ByteOf(0x2EDA_49AC, 1) == 0x49;
    assert ByteOf(0x2EDA_49AC, 2) == 0xDA && ByteOf(0x2EDA_49AC, 3) == 0x2E;
    assert ByteOf(0x7AB6_0721, 0) == 0x21 && ByteOf(0x7AB6_0721, 1) == 0x07;
    assert ByteOf(0x7AB6_0721, 2) == 0xB6 && ByteOf(0x7AB6_0721, 3) == 0x7A;
    hide ByteOf;
    OutputIs(Regs(0xA2F4_ED57, 0x55C9_E32B, 0x2EDA_49AC, 0x7AB6_0721),
             [0x57, 0xED, 0xF4, 0xA2, 0x2B, 0xE3, 0xC9, 0x55,
              0xAC, 0x49, 0xDA, 0x2E, 0x21, 0x07, 0xB6, 0x7A]);
  }

  /** The digest of the empty message. */
  lemma EmptyDigest()
    ensures Md5([]) == [0xD4, 0x1D, 0x8C, 0xD9, 0x8F, 0x00, 0xB2, 0x04, 0xE9, 0x80, 0x09, 0x98, 0xEC, 0xF8, 0x42, 0x7E]
  {
    hide Padded, Steps, Words, Output, Digested, Plus;
    EmptyPadded();
    EmptyBlock();
    OneBlock(Padded([]));
    EmptyOutput();
  }

  /** The digest of "abc". */
  lemma AbcDigest()
    ensures Md5(ABC_TEXT) == [0x90, 0x01, 0x50, 0x98, 0x3C, 0xD2, 0x4F, 0xB0, 0xD6, 0x96, 0x3F, 0x7D, 0x28, 0xE1, 0x7F, 0x72]
  {
    hide Padded, Steps, Words, Output, Digested, Plus;
    AbcPadded();
    AbcBlock();
    OneBlock(Padded(ABC_TEXT));
    AbcOutput();
  }

  /** The digest of eight times "1234567890", in two blocks. */
  lemma DigitsDigest()
    ensures Md5(Digits()) == [0x57, 0xED, 0xF4, 0xA2, 0x2B, 0xE3, 0xC9, 0x55, 0xAC, 0x49, 0xDA, 0x2E, 0x21, 0x07, 0xB6, 0x7A]
  {
    hide Padded, Steps, Words, Output, Digested, Plus;
    DigitsPadded();
    FirstBlock();
    SecondBlock();
    TwoBlocks(Padded(Digits()), MIDDLE);
    DigitsOutput();
  }
}
