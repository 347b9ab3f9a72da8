/** The MD5 message digest as RFC 1321 defines it, on byte strings. */
module Md5Spec {

  type Byte = n: nat | n < 256

  datatype Regs = Regs(a: bv32, b: bv32, c: bv32, d: bv32)

  // ---- section 3.1: a one bit, then zeros up to 56 bytes mod 64; section 3.2: the length in bits ----

  function Zeros(n: nat): (z: seq<Byte>)
    ensures |z| == n && forall i :: 0 <= i < n ==> z[i] == 0
  {
    seq(n, _ => 0)
  }

  /** The number of zero bytes after the byte 0x80. */
  function PadZeros(length: nat): nat { (55 - length) % 64 }

  const W32: nat := 0x1_0000_0000
  const W64: nat := 0x1_0000_0000_0000_0000

  /** The n low-order bytes of a number, low-order first. */
  function LittleEndian(v: nat, n: nat): (s: seq<Byte>)
    ensures |s| == n
  {
    if n == 0 then [] else [v % 256] + LittleEndian(v / 256, n - 1)
  }

  function Padded(message: seq<Byte>): seq<Byte> {
    message + [0x80] + Zeros(PadZeros(|message|)) + LittleEndian(8 * |message| % W64, 8)
  }

  lemma PadSum(n: nat)
    ensures (n + 9 + PadZeros(n)) % 64 == 0 && PadZeros(n) <= 63
  {
    var q := (55 - n) / 64;
    assert n + 9 + PadZeros(n) == 64 * (1 - q);
  }

  /** A padded message is a whole number of blocks, and at least one byte of padding is added. */
  lemma PaddedWhole(message: seq<Byte>)
    ensures |Padded(message)| % 64 == 0 && |message| + 9 <= |Padded(message)| <= |message| + 72
  {
    hide PadZeros;
    PadSum(|message|);
    assert |Padded(message)| == |message| + 9 + PadZeros(|message|);
  }

  // ---- section 3.3 ----

  const INIT: Regs := Regs(0x6745_2301, 0xEFCD_AB89, 0x98BA_DCFE, 0x1032_5476)

  // ---- section 3.4: 64 steps on each block of 16 words, low-order byte first ----

  function F(x: bv32, y: bv32, z: bv32): bv32 { (x & y) | (!x & z) }
  function G(x: bv32, y: bv32, z: bv32): bv32 { (x & z) | (y & !z) }
  function H(x: bv32, y: bv32, z: bv32): bv32 { x ^ y ^ z }
  function I(x: bv32, y: bv32, z: bv32): bv32 { y ^ (x | !z) }

  function Mix(i: nat, x: bv32, y: bv32, z: bv32): bv32 {
    if i < 16 then F(x, y, z) else if i < 32 then G(x, y, z) else if i < 48 then H(x, y, z) else I(x, y, z)
  }

  /** The word of the block that step i (from 0) uses. */
  function Index(i: nat): (k: nat)
    ensures k < 16
  {
    if i < 16 then i % 16
    else if i < 32 then (5 * i + 1) % 16
    else if i < 48 then (3 * i + 5) % 16
    else 7 * i % 16
  }

  /** The distance it rotates by. */
  function Shift(i: nat): (s: nat)
    ensures 4 <= s <= 23
  {
    var row := if i < 16 then [7, 12, 17, 22] else if i < 32 then [5, 9, 14, 20]
               else if i < 48 then [4, 11, 16, 23] else [6, 10, 15, 21];
    row[i % 4]
  }

  /** The integer part of 4294967296 times abs(sin(i + 1)). */
  function T(i: nat): bv32
    requires i < 64
  {
    if i < 16 then T1(i) else if i < 32 then T2(i - 16) else if i < 48 then T3(i - 32) else T4(i - 48)
  }

  function T1(i: nat): bv32
    requires i < 16
  {
    match i
    case 0 => 0xD76A_A478
    case 1 => 0xE8C7_B756
    case 2 => 0x2420_70DB
    case 3 => 0xC1BD_CEEE
    case 4 => 0xF57C_0FAF
    case 5 => 0x4787_C62A
    case 6 => 0xA830_4613
    case 7 => 0xFD46_9501
    case 8 => 0x6980_98D8
    case 9 => 0x8B44_F7AF
    case 10 => 0xFFFF_5BB1
    case 11 => 0x895C_D7BE
    case 12 => 0x6B90_1122
    case 13 => 0xFD98_7193
    case 14 => 0xA679_438E
    case 15 => 0x49B4_0821
  }

  function T2(i: nat): bv32
    requires i < 16
  {
    match i
    case 0 => 0xF61E_2562
    case 1 => 0xC040_B340
    case 2 => 0x265E_5A51
    case 3 => 0xE9B6_C7AA
    case 4 => 0xD62F_105D
    case 5 => 0x0244_1453
    case 6 => 0xD8A1_E681
    case 7 => 0xE7D3_FBC8
    case 8 => 0x21E1_CDE6
    case 9 => 0xC337_07D6
    case 10 => 0xF4D5_0D87
    case 11 => 0x455A_14ED
    case 12 => 0xA9E3_E905
    case 13 => 0xFCEF_A3F8
    case 14 => 0x676F_02D9
    case 15 => 0x8D2A_4C8A
  }

  function T3(i: nat): bv32
    requires i < 16
  {
    match i
    case 0 => 0xFFFA_3942
    case 1 => 0x8771_F681
    case 2 => 0x6D9D_6122
    case 3 => 0xFDE5_380C
    case 4 => 0xA4BE_EA44
    case 5 => 0x4BDE_CFA9
    case 6 => 0xF6BB_4B60
    case 7 => 0xBEBF_BC70
    case 8 => 0x289B_7EC6
    case 9 => 0xEAA1_27FA
    case 10 => 0xD4EF_3085
    case 11 => 0x0488_1D05
    case 12 => 0xD9D4_D039
    case 13 => 0xE6DB_99E5
    case 14 => 0x1FA2_7CF8
    case 15 => 0xC4AC_5665
  }

  function T4(i: nat): bv32
    requires i < 16
  {
    match i
    case 0 => 0xF429_2244
    case 1 => 0x432A_FF97
    case 2 => 0xAB94_23A7
    case 3 => 0xFC93_A039
    case 4 => 0x655B_59C3
    case 5 => 0x8F0C_CC92
    case 6 => 0xFFEF_F47D
    case 7 => 0x8584_5DD1
    case 8 => 0x6FA8_7E4F
    case 9 => 0xFE2C_E6E0
    case 10 => 0xA301_4314
    case 11 => 0x4E08_11A1
    case 12 => 0xF753_7E82
    case 13 => 0xBD3A_F235
    case 14 => 0x2AD7_D2BB
    case 15 => 0xEB86_D391
  }

  function RotateLeft(x: bv32, n: nat): bv32
    requires n <= 32
  {
    (x << n) | (x >> (32 - n))
  }

  /** At each of the distances used it is the rotation of the word. */
  lemma RotateLeftRotates(x: bv32)
    ensures RotateLeft(x, 7) == x.RotateLeft(7) && RotateLeft(x, 12) == x.RotateLeft(12) && RotateLeft(x, 17) == x.RotateLeft(17) && RotateLeft(x, 22) == x.RotateLeft(22)
    ensures RotateLeft(x, 5) == x.RotateLeft(5) && RotateLeft(x, 9) == x.RotateLeft(9) && RotateLeft(x, 14) == x.RotateLeft(14) && RotateLeft(x, 20) == x.RotateLeft(20)
    ensures RotateLeft(x, 4) == x.RotateLeft(4) && RotateLeft(x, 11) == x.RotateLeft(11) && RotateLeft(x, 16) == x.RotateLeft(16) && RotateLeft(x, 23) == x.RotateLeft(23)
    ensures RotateLeft(x, 6) == x.RotateLeft(6) && RotateLeft(x, 10) == x.RotateLeft(10) && RotateLeft(x, 15) == x.RotateLeft(15) && RotateLeft(x, 21) == x.RotateLeft(21)
  {
  }

  /** a = b + ((a + mix + x + t) <<< s) */
  function Set(a: bv32, mix: bv32, x: bv32, s: nat, t: bv32, b: bv32): bv32
    requires s <= 32
  {
    RotateLeft(a + mix + x + t, s) + b
  }

  function WordOf(b0: Byte, b1: Byte, b2: Byte, b3: Byte): bv32 {
    (b0 + 0x100 * b1 + 0x1_0000 * b2 + 0x100_0000 * b3) as bv32
  }

  function Words(block: seq<Byte>): (x: seq<bv32>)
    requires |block| == 64
    ensures |x| == 16
  {
    seq(16, k requires 0 <= k < 16 => WordOf(block[4 * k], block[4 * k + 1], block[4 * k + 2], block[4 * k + 3]))
  }

  /** Step i: one register is replaced, and the four take each other's places. */
  function Step(x: seq<bv32>, r: Regs, i: nat): Regs
    requires |x| == 16 && i < 64
  {
    Regs(r.d, Set(r.a, Mix(i, r.b, r.c, r.d), x[Index(i)], Shift(i), T(i), r.b), r.b, r.c)
  }

  /** The first n steps. */
  function Steps(x: seq<bv32>, r: Regs, n: nat): Regs
    requires |x| == 16 && n <= 64
  {
    if n == 0 then r else Step(x, Steps(x, r, n - 1), n - 1)
  }

  function Plus(r: Regs, s: Regs): Regs {
    Regs(r.a + s.a, r.b + s.b, r.c + s.c, r.d + s.d)
  }

  function Block(r: Regs, block: seq<Byte>): Regs
    requires |block| == 64
  {
    Plus(r, Steps(Words(block), r, 64))
  }

  /** The registers after the first n blocks. */
  function Digested(s: seq<Byte>, n: nat): Regs
    requires 64 * n <= |s|
  {
    if n == 0 then INIT else Block(Digested(s, n - 1), s[64 * n - 64..64 * n])
  }

  // ---- section 3.5 ----

  /** Byte j of a word, byte 0 being the low-order one. */
  function ByteOf(w: bv32, j: nat): Byte
    requires j < 4
  {
    ((w >> (8 * j)) & 0xFF) as nat
  }

  function Output(r: Regs): (s: seq<Byte>)
    ensures |s| == 16
  {
    seq(16, i requires 0 <= i < 16 =>
      ByteOf(if i < 4 then r.a else if i < 8 then r.b else if i < 12 then r.c else r.d, i % 4))
  }

  /** The digest. */
  function Md5(message: seq<Byte>): seq<Byte> {
    Output(Digested(Padded(message), |Padded(message)| / 64))
  }
}
