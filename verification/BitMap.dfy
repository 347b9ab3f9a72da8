/** Bitmaps of 32-bit words, most significant bit first, as sets of page numbers. */
module BitMap {

  // ---- a word and a mask ----

  predicate Hits(w: bv32, m: bv32) { w & m != 0 }

  predicate Apart(m: bv32, n: bv32) { m & n == 0 }

  predicate OneBit(m: bv32) { m != 0 && m & (m - 1) == 0 }

  function With(w: bv32, m: bv32): bv32 { w | m }

  function Without(w: bv32, m: bv32): bv32 { w & !m }

  function Half(m: bv32): bv32 { m >> 1 }

  /** m lies below the single bit p. */
  predicate Under(m: bv32, p: bv32) { m & (p - 1) == m }

  lemma HalfOneBit(m: bv32)
    requires OneBit(m)
    ensures Under(Half(m), m) && (Half(m) != 0 ==> OneBit(Half(m)))
  {
  }

  lemma HalfZero(m: bv32)
    ensures Half(m) != 0 ==> m != 0
  {
  }

  lemma HalfUnder(m: bv32, p: bv32)
    requires OneBit(p) && Under(m, p)
    ensures Under(Half(m), p)
  {
  }

  lemma UnderApart(m: bv32, p: bv32)
    requires OneBit(p) && Under(m, p)
    ensures Apart(m, p) && Apart(p, m)
  {
  }

  lemma OrOther(w: bv32, m: bv32, n: bv32)
    requires m & n == 0
    ensures (w | m) & n == w & n
  {
  }

  lemma HitsWith(w: bv32, m: bv32, n: bv32)
    requires Apart(m, n)
    ensures Hits(With(w, m), n) == Hits(w, n)
  {
    OrOther(w, m, n);
  }

  lemma HitsWithout(w: bv32, m: bv32, n: bv32)
    requires Apart(m, n)
    ensures Hits(Without(w, m), n) == Hits(w, n)
  {
    assert Without(w, m) & n == w & n;
  }

  lemma HitsOwn(w: bv32, m: bv32)
    requires OneBit(m)
    ensures Hits(With(w, m), m) && !Hits(Without(w, m), m)
  {
  }

  // ---- the bits of a word ----

  /** 1 << (31 - j) */
  function Mask(j: nat): bv32
    requires j < 32
  {
    if j == 0 then 0x8000_0000 else Half(Mask(j - 1))
  }

  predicate BitAt(w: bv32, j: nat)
    requires j < 32
  {
    Hits(w, Mask(j))
  }

  lemma LastMask()
    ensures Mask(31) == 1
  {
    assert Mask(4) == 0x0800_0000;
    assert Mask(8) == 0x0080_0000;
    assert Mask(12) == 0x0008_0000;
    assert Mask(16) == 0x8000;
    assert Mask(20) == 0x0800;
    assert Mask(24) == 0x0080;
    assert Mask(28) == 0x8;
  }

  lemma {:induction false} MaskNonZero(j: nat)
    requires j < 32
    ensures Mask(j) != 0
    decreases 32 - j
  {
    hide Half;
    if j == 31 {
      LastMask();
    } else {
      MaskNonZero(j + 1);
      HalfZero(Mask(j));
    }
  }

  lemma {:induction false} MaskOneBit(j: nat)
    requires j < 32
    ensures OneBit(Mask(j))
  {
    hide Half;
    if j > 0 {
      hide OneBit;
      MaskOneBit(j - 1);
      MaskNonZero(j);
      HalfOneBit(Mask(j - 1));
    }
  }

  lemma {:induction false} MaskUnder(i: nat, j: nat)
    requires i < j < 32
    ensures Under(Mask(j), Mask(i))
    decreases j
  {
    hide Half, OneBit, Under;
    MaskOneBit(i);
    if i == j - 1 {
      HalfOneBit(Mask(i));
    } else {
      MaskUnder(i, j - 1);
      HalfUnder(Mask(j - 1), Mask(i));
    }
  }

  lemma MasksApart(i: nat, j: nat)
    requires i < 32 && j < 32 && i != j
    ensures Apart(Mask(i), Mask(j))
  {
    hide Mask, OneBit, Apart, Under;
    MaskOneBit(i);
    MaskOneBit(j);
    if i < j {
      MaskUnder(i, j);
      UnderApart(Mask(j), Mask(i));
    } else {
      MaskUnder(j, i);
      UnderApart(Mask(i), Mask(j));
    }
  }

  /** Setting or clearing bit j of a word changes that bit alone. */
  lemma BitChanged(w: bv32, j: nat, i: nat)
    requires i < 32 && j < 32
    ensures BitAt(With(w, Mask(j)), i) <==> i == j || BitAt(w, i)
    ensures BitAt(Without(w, Mask(j)), i) <==> i != j && BitAt(w, i)
  {
    hide Mask, OneBit, Apart, Hits, With, Without;
    if i == j {
      MaskOneBit(j);
      HitsOwn(w, Mask(j));
    } else {
      MasksApart(j, i);
      HitsWith(w, Mask(j), Mask(i));
      HitsWithout(w, Mask(j), Mask(i));
    }
  }

  // ---- the bits of a bitmap ----

  predicate Bit(words: seq<bv32>, p: nat)
    requires p < 32 * |words|
  {
    BitAt(words[p / 32], p % 32)
  }

  /** The numbers of the bits that are set. */
  ghost function Pages(words: seq<bv32>): set<nat> {
    set p: nat | p < 32 * |words| && Bit(words, p)
  }

  ghost function Range(start: nat, n: nat): (r: set<nat>)
    ensures forall p :: p in r <==> start <= p < start + n
    ensures |r| == n
  {
    if n == 0 then {} else Range(start, n - 1) + {start + n - 1}
  }

  /** Setting or clearing one bit of a bitmap adds or takes out its number. */
  lemma PagesChanged(words: seq<bv32>, p: nat)
    requires p < 32 * |words|
    ensures Pages(words[p / 32 := With(words[p / 32], Mask(p % 32))]) == Pages(words) + {p}
    ensures Pages(words[p / 32 := Without(words[p / 32], Mask(p % 32))]) == Pages(words) - {p}
  {
    hide With, Without, Mask, BitAt;
    forall q: nat | q < 32 * |words|
      ensures Bit(words[p / 32 := With(words[p / 32], Mask(p % 32))], q) <==> q == p || Bit(words, q)
      ensures Bit(words[p / 32 := Without(words[p / 32], Mask(p % 32))], q) <==> q != p && Bit(words, q)
    {
      if q / 32 == p / 32 {
        BitChanged(words[p / 32], p % 32, q % 32);
      }
    }
  }
}
