/** Inputs on which sw_buddy.c falls short: a request that its block does not hold, a free that does not
    undo the allocation before it, and a counter that wraps; and the pools that its callers make. */
module BuddyCases {
  import opened Options
  import opened SwMath
  import opened BuddySpec
  import opened BuddyTheory
  import opened BuddyHeap
  import opened BuddyPool

  // ---- a request above 2^31 ----

  /** More than 2^31 bytes of memory, managed in blocks of 16 to 64 bytes. */
  const LARGE: Config := Config(8192, 16, 3, 0x9000_0000, 4)

  lemma PowerSixteen()
    ensures IsPower(16)
  {
    assert Pow2(4) == 16;
  }

  lemma LargeValid()
    ensures ValidConfig(LARGE) && Extent(LARGE) == 128 && Size(LARGE, 2) == 64 && Size(LARGE, 0) == 16
  {
    PowerSixteen();
  }

  lemma LargeBin()
    ensures Val(0x8000_0001) == 0x8000_0001 && Val(NextPow(0x8000_0001)) == 0
    ensures BinOf(LARGE, 0) == 0
  {
    hide LogOf2, NextPow;
    NextPowWraps(0x8000_0001);
    PowerSixteen();
    assert Pow2(4) == 16;
    LogOfPow2(4);
    ZeroShift(4);
    LogOfZero();
  }

  /** Right after initialisation a request of 2^31 + 1 bytes gets a block, of 16 bytes. */
  lemma HoldsFails()
    ensures ValidConfig(LARGE)
    ensures var (s, r) := Alloc(LARGE, Run(LARGE, []), 0x8000_0001);
            && Val(0x8000_0001) == 0x8000_0001
            && r.Some? && r.value in s.live && Size(LARGE, s.live[r.value]) == 16
  {
    LargeValid();
    LargeBin();
    InitialSound(LARGE);
    var s := Initial(LARGE);
    assert |s.free| == 4 && s.free[0] == s.free[1] == s.free[2] == {} && s.free[3] == {8192} && s.spare == 3;
    assert FirstBin(s.free, 0) == 3;
    hide Alloc, NextPow, BinOf, Val, Size, FirstBin, Extent;
    AllocOutcome(LARGE, s, 0x8000_0001);
    var bin, idx := AllocSome(LARGE, s, 0x8000_0001);
  }

  // ---- an allocation that a free does not undo ----

  /** The second half of the memory is free, in two blocks, the first one live. */
  lemma PairReached(c: Config, k: nat, q: nat, w: bv32)
    requires Eighths(c, k, q) && Fitting(c, w, k) && 8 <= c.total
    ensures ValidConfig(c)
    ensures var s := Run(c, Holes(c, w, q) + [FreeOp(c.start + 3 * q)] + [AllocOp(w)]);
            && k < |s.free| && s.free[k] == {c.start + 2 * q, c.start + 3 * q} && s.heap == 2 * q
  {
    hide Run, Size, Fitting, Eighths, ValidConfig, Lists, Holes;
    EighthsSizes(c, k, q);
    HolesReached(c, k, q, w);
    ListsAt(c.maxBin + 1, k, {c.start, c.start + 2 * q}, {}, {c.start + 4 * q});
    FreeFurther(c, Holes(c, w, q), HolesState(c, k, q), c.start + 3 * q, k, c.start);
    var s := Run(c, Holes(c, w, q) + [FreeOp(c.start + 3 * q)]);
    assert s.free[k] == {c.start, c.start + 2 * q, c.start + 3 * q};
    var free := s.free[k := {c.start + 2 * q, c.start + 3 * q}];
    AllocFurther(c, Holes(c, w, q) + [FreeOp(c.start + 3 * q)], s, w, k, k, c.start, free);
  }

  /** In every pool of at least eight descriptors that sw_heap.c makes, some run leads to an allocation that
      its free does not undo: the block joins its right neighbour. */
  lemma UndoFails(c: Config) returns (ops: seq<Op>, w: bv32)
    requires HeapPool(c) && 4 <= c.maxBin
    ensures var s := Run(c, ops);
            var (s', r) := Alloc(c, s, w);
            r.Some? && r.value in s'.live && Release(c, s', r.value) != s
  {
    hide Run, Size, Alloc, Release, Fitting, Holes, Lists, Eighths, Inv, NextPow, BinOf, Val;
    var k, q := EighthsExist(c);
    EighthsSizes(c, k, q);
    w := FittingWord(c, k);
    PairReached(c, k, q, w);
    ops := Holes(c, w, q) + [FreeOp(c.start + 3 * q)] + [AllocOp(w)];
    var s := Run(c, ops);
    RunSound(c, ops);
    AllocServes(c, s, w, k, k, c.start + 2 * q);
    assert FirstBin(s.free, k) == k;
    FittingBin(c, w, k);
    AllocThenReleaseIff(c, s, w);
  }

  lemma FittingBin(c: Config, w: bv32, bin: nat)
    requires Fitting(c, w, bin)
    ensures BinOf(c, Val(NextPow(w))) == bin
  {
  }

  // ---- curr_heap_size wraps ----

  /** 24 bytes of memory, in blocks of 16. */
  const ODD: Config := Config(8192, 16, 4, 24, 8)

  lemma OddSizes()
    ensures ValidConfig(ODD) && Size(ODD, 0) == 16 && Fitting(ODD, 16, 0)
  {
    PowerSixteen();
    LogOfPow2(4);
    LogOfPow2(0);
    hide LogOf2;
    assert IsPowOf2(16) && Pow2(4) == 16 && Pow2(0) == 1;
    assert ShiftRight(16, 4) == 1;
  }

  lemma OddBin()
    ensures Val(8) == 8 && Val(NextPow(8)) == 8 && BinOf(ODD, 8) == 0
  {
    hide LogOf2;
    LogOfPow2(4);
    LogOfZero();
    assert IsPowOf2(8) && Pow2(4) == 16;
    assert ShiftRight(8, 4) == 0;
  }

  /** After one minimal allocation 8 bytes are left; a request for them gets 16. */
  lemma HeapWraps()
    ensures ValidConfig(ODD)
    ensures var s := Run(ODD, [] + [AllocOp(16)]);
            s.heap == 8 && Alloc(ODD, s, 8).1.Some? && Alloc(ODD, s, 8).0.heap == WORD - 8
  {
    OddSizes();
    OddBin();
    Start(ODD, 1);
    hide Run, Fitting, Size, NextPow, Val, BinOf, Alloc, Extent;
    var c, s := ODD, Run(ODD, []);
    var free := SplitFree(c, s.free[4 := {}], c.start, 4, 0);
    AllocFurther(c, [], s, 16, 0, 4, c.start, free);
    var t := Run(c, [] + [AllocOp(16)]);
    RunSound(c, [] + [AllocOp(16)]);
    assert t.free[0] == {c.start + 16};
    assert FirstBin(t.free, 0) == 0;
    SizeTop(c, 0);
    hide Inv;
    AllocOutcome(c, t, 8);
    AllocWrapsIff(c, t, 8);
  }

  // ---- pools that sw_buddy_init accepts ----

  lemma Areas()
    ensures GetManageArea(64, 16) == GetManageArea(128, 16) == 4096
    ensures ShiftRight(64, 4) == 4 && ShiftRight(128, 4) == 8 && LogOf2(16) == 4
  {
    hide LogOf2;
    LogOfPow2(4);
    assert Pow2(4) == 16;
    assert ShiftRight(64, 4) == 4 && ShiftRight(128, 4) == 8;
  }

  lemma BinCounts()
    ensures Val(16) == 16 && Val(64) == 64 && Val(128) == 128
    ensures Bins(16, 64) == 3 && Bins(16, 128) == 4
  {
    hide LogOf2;
    LogOfPow2(4);
    LogOfPow2(6);
    LogOfPow2(7);
    assert Pow2(4) == 16 && Pow2(6) == 64 && Pow2(7) == 128;
  }

  /** Pools at 4096, their descriptors in the first page; the last one is as sw_heap.c makes it. */
  lemma CasesAreInits()
    ensures Accepted(4096 + 0x9000_0000, 16, 64) && Addressable(4096, 16, 64)
    ensures InitConfig(4096, 4096 + 0x9000_0000, 16, 64) == LARGE
    ensures Accepted(4096 + 24, 16, 128) && Addressable(4096, 16, 128)
    ensures InitConfig(4096, 4096 + 24, 16, 128) == ODD
    ensures Accepted(4096 + 128, 16, 128) && HeapPool(InitConfig(4096, 4096 + 128, 16, 128))
  {
    Areas();
    BinCounts();
    assert IsPowOf2(16) && IsPowOf2(64) && IsPowOf2(128);
    hide LogOf2, ShiftRight, GetManageArea, Bins, Val, IsPowOf2, HeapPool;
    HeapInit(4096, 16, 128);
  }

  /** alloc_private_heap and alloc_user_heap pass the heap size as max_alloc_size and the heap size and the
      descriptors as pool_size.  Such a pool hands out only its own memory over all runs exactly if
      min_alloc_size is the heap size. */
  lemma HeapInit(poolStart: nat, minAlloc: bv32, maxAlloc: bv32)
    requires var poolSize := GetManageArea(Val(maxAlloc), Val(minAlloc)) + Val(maxAlloc);
             Accepted(poolSize, minAlloc, maxAlloc) && Addressable(poolStart, minAlloc, maxAlloc)
    ensures var poolSize := GetManageArea(Val(maxAlloc), Val(minAlloc)) + Val(maxAlloc);
            var c := InitConfig(poolStart, poolSize, minAlloc, maxAlloc);
            HeapPool(c) && (AlwaysContained(c) <==> minAlloc == maxAlloc)
  {
    hide LogOf2, ShiftRight, GetManageArea, Bins, Val, IsPowOf2, Size, Extent, AlwaysContained, ValidConfig;
    var poolSize := GetManageArea(Val(maxAlloc), Val(minAlloc)) + Val(maxAlloc);
    InitConfigValid(poolStart, poolSize, minAlloc, maxAlloc);
    var c := InitConfig(poolStart, poolSize, minAlloc, maxAlloc);
    WordValue(maxAlloc);
    assert HeapPool(c);
    ContainedIff(c);
    OneBinIff(poolSize, minAlloc, maxAlloc);
  }

  lemma OneBinIff(poolSize: nat, minAlloc: bv32, maxAlloc: bv32)
    requires Accepted(poolSize, minAlloc, maxAlloc)
    ensures Bins(minAlloc, maxAlloc) == 1 <==> minAlloc == maxAlloc
  {
    hide LogOf2, ShiftRight, GetManageArea, Bins, Val, IsPowOf2, Accepted;
    var m, n := InitExponents(poolSize, minAlloc, maxAlloc);
    if m == n {
      SameWord(minAlloc, maxAlloc);
    } else {
      Pow2Monotonic(m + 1, n);
      Positive(m);
    }
  }

  lemma Positive(m: nat)
    ensures 0 < Pow2(m) && Pow2(m + 1) == 2 * Pow2(m)
  {
  }
}
