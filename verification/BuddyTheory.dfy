/** What holds of every run of the allocator. */
module BuddyTheory {
  import opened Options
  import opened SwMath
  import opened BuddySpec

  // ---- from a requested size to a bin ----

  lemma {:induction false} ShiftPow2(r: nat, m: nat)
    ensures ShiftRight(Pow2(r), m) == if r < m then 0 else Pow2(r - m)
  {
    if 0 < m {
      if r == 0 {
        ZeroShift(m - 1);
      } else {
        assert Pow2(r) / 2 == Pow2(r - 1);
        ShiftPow2(r - 1, m - 1);
      }
    }
  }

  lemma {:induction false} ZeroShift(m: nat)
    ensures ShiftRight(0, m) == 0
  {
    if 0 < m {
      ZeroShift(m - 1);
    }
  }

  /** The bin of a request is the smallest whose blocks hold the rounded size, and lies below the top bin. */
  lemma BinFits(c: Config, size: bv32)
    requires ValidConfig(c) && Val(NextPow(size)) <= Size(c, c.maxBin - 1)
    ensures var rounded, bin := Val(NextPow(size)), BinOf(c, Val(NextPow(size)));
            bin < c.maxBin && rounded <= Size(c, bin) && (0 < bin ==> rounded == Size(c, bin))
  {
    hide NextPow, LogOf2, Val, LeastPow, IsPowOf2, ShiftRight;
    var rounded := Val(NextPow(size));
    SizeWord(c, 0);
    var m := PowerExponent(c.minSize);
    LogOfPow2(m);
    if Val(size) == 0 {
      Zero(size);
      ShiftPow2(0, m);
      BinOfPow2(c, m, 0);
    } else if Val(size) <= 0x8000_0000 {
      var r := RoundedPow(size);
      BinOfPow2(c, m, r);
    } else {
      NextPowWraps(size);
      ZeroShift(m);
      LogOfZero();
      SizePositive(c, 0);
    }
  }

  lemma RoundedPow(size: bv32) returns (r: nat)
    requires 0 < Val(size) <= 0x8000_0000
    ensures r < 32 && Val(NextPow(size)) == Pow2(r)
  {
    hide NextPow, Val, IsPowOf2;
    r := NextPowIsLeast(size);
  }

  lemma BinOfPow2(c: Config, m: nat, r: nat)
    requires ValidConfig(c) && m < 32 && c.minSize == Pow2(m) && r < 32 && Pow2(r) <= Size(c, c.maxBin - 1)
    ensures var bin := BinOf(c, Pow2(r));
            bin < c.maxBin && Pow2(r) <= Size(c, bin) && (0 < bin ==> Pow2(r) == Size(c, bin))
  {
    hide LogOf2, ShiftRight, IsPower;
    LogOfPow2(m);
    ShiftPow2(r, m);
    if r < m {
      LogOfZero();
      Pow2Monotonic(r, m);
      assert Pow2(0) == 1;
    } else {
      LogOfPow2(r - m);
      ExponentFits(c, m, r);
    }
  }

  lemma ExponentFits(c: Config, m: nat, r: nat)
    requires 1 <= c.maxBin && c.minSize == Pow2(m) && m <= r && Pow2(r) <= Size(c, c.maxBin - 1)
    ensures r - m < c.maxBin && Size(c, r - m) == Pow2(r)
  {
    Pow2Add(m, r - m);
    if c.maxBin <= r - m {
      Pow2Add(m, c.maxBin - 1);
      Pow2Monotonic(m + c.maxBin, r);
      assert Pow2(m + c.maxBin) == 2 * Pow2(m + (c.maxBin - 1));
      Pow2Monotonic(0, m + (c.maxBin - 1));
    }
  }

  // ---- every operation keeps the invariant ----

  lemma {:induction false} SplitKeeps(c: Config, s: State, addr: nat, idx: nat, bin: nat)
    requires InvHeld(c, s, addr, idx) && bin <= idx
    ensures idx < |s.free|
    ensures var (s', r) := Split(c, s, addr, idx, bin);
            if r.Some? then r.value == addr && InvHeld(c, s', addr, bin) else Inv(c, s')
    decreases idx
  {
    hide Inv, Tiles, Bytes, Pieces, Size, LivePieces, ValidConfig;
    BinInRange(c, WithHeld(s, addr, idx), Piece(Held, addr, idx));
    if idx != bin {
      if s.spare == 0 {
        LoseStep(c, s, addr, idx);
      } else {
        SplitStep(c, s, addr, idx);
        SplitKeeps(c, AddFree(s, idx - 1, addr + Size(c, idx - 1)).(spare := s.spare - 1), addr, idx - 1, bin);
      }
    }
  }

  lemma GetFreeBuddyKeeps(c: Config, s: State, bin: nat)
    requires Inv(c, s)
    ensures var (s', r) := GetFreeBuddy(c, s, bin);
            if r.Some? then InvHeld(c, s', r.value, bin) else Inv(c, s')
  {
    var idx := FirstBin(s.free, bin);
    if idx < |s.free| {
      var addr := Lowest(s.free[idx]);
      TakeFree(c, s, idx, addr);
      SplitKeeps(c, DropFree(s, idx, addr), addr, idx, bin);
    }
  }

  /** sw_buddy_alloc keeps the invariant. */
  lemma AllocKeeps(c: Config, s: State, size: bv32)
    requires Inv(c, s)
    ensures Inv(c, Alloc(c, s, size).0)
  {
    hide Tiles, Bytes, Pieces, Size, LivePieces, NextPow, Val, LogOf2, BinOf, Split;
    var rounded := Val(NextPow(size));
    if !(s.heap < Val(size) || s.heap < rounded || Size(c, c.maxBin - 1) < rounded) {
      var bin := BinOf(c, rounded);
      GetFreeBuddyKeeps(c, s, bin);
      var (s', r) := GetFreeBuddy(c, s, bin);
      if r.Some? {
        GiveLive(c, s', r.value, bin);
      }
    }
  }

  /** Every merge of return_to_free_area keeps the invariant and touches only the free lists. */
  lemma {:induction false} MergeKeeps(c: Config, s: State, idx: nat, tracked: nat)
    requires Inv(c, s) && idx <= c.maxBin
    ensures var s' := Merge(c, s, idx, tracked);
            Inv(c, s') && s'.live == s.live && s'.lost == s.lost && s'.heap == s.heap && s.spare <= s'.spare
    decreases c.maxBin - idx
  {
    hide Tiles, Bytes, Pieces, Size, LivePieces, ValidConfig;
    if s.free[idx] != {} {
      var addr := Lowest(s.free[idx]);
      var buddy := addr + Size(c, idx);
      if buddy in s.free[idx] {
        MergeStep(c, s, idx, addr);
        MergeKeeps(c, MergeOnce(c, s, idx, addr), idx + 1, if tracked == buddy then 0 else tracked);
      } else if idx < c.maxBin {
        MergeKeeps(c, s, idx + 1, tracked);
      }
    }
  }

  /** A pointer that is not null: for a null pointer sw_buddy_free goes wrong, see BuddyPool. */
  type Pointer = p: nat | p != 0 witness 1

  /** A live block is at no null address. */
  lemma LivePointer(c: Config, s: State, addr: nat)
    requires Inv(c, s) && addr in s.live
    ensures 0 < addr
  {
    hide Bytes, Size, Pieces;
    PiecesHas(s);
    assert Has(s, Piece(Live, addr, s.live[addr]));
    assert Inside(c, Piece(Live, addr, s.live[addr]));
  }

  /** sw_buddy_free keeps the invariant, whatever other pointer than null it is given. */
  lemma ReleaseKeeps(c: Config, s: State, ptr: Pointer)
    requires Inv(c, s)
    ensures var s' := Release(c, s, ptr);
            && Inv(c, s')
            && s'.live == s.live - {ptr} && s'.lost == s.lost
            && (ptr !in s.live ==> s' == s)
            && (ptr in s.live ==> s'.heap == (s.heap + Size(c, s.live[ptr])) % WORD)
  {
    hide Tiles, Bytes, Pieces, Size, LivePieces;
    if ptr in s.live {
      TakeLive(c, s, ptr);
      var bin := s.live[ptr];
      var s1 := s.(live := s.live - {ptr}, heap := (s.heap + Size(c, bin)) % WORD);
      GiveFree(c, s1, ptr, bin);
      if bin < c.maxBin {
        MergeKeeps(c, AddFree(s1, bin, ptr), bin, ptr);
      }
    } else {
      assert s.live - {ptr} == s.live;
    }
  }

  // ---- runs ----

  datatype Op = AllocOp(size: bv32) | FreeOp(ptr: Pointer)

  ghost function Step(c: Config, s: State, op: Op): (r: State)
    requires 1 <= c.maxBin && |s.free| == c.maxBin + 1
    ensures |r.free| == |s.free|
  {
    match op
    case AllocOp(size) => Alloc(c, s, size).0
    case FreeOp(ptr) => Release(c, s, ptr)
  }

  /** The state after sw_buddy_init. */
  ghost function Initial(c: Config): State {
    State(seq(c.maxBin + 1, k => if k == c.maxBin then {c.start} else {}), map[], {},
          if c.total == 0 then 0 else c.total - 1, c.memSize)
  }

  /** The state after sw_buddy_init and the operations ops. */
  ghost function Run(c: Config, ops: seq<Op>): (s: State)
    requires 1 <= c.maxBin
    ensures |s.free| == c.maxBin + 1
  {
    if ops == [] then Initial(c) else Step(c, Run(c, ops[..|ops| - 1]), ops[|ops| - 1])
  }

  lemma InitialSound(c: Config)
    requires ValidConfig(c)
    ensures Inv(c, Initial(c))
  {
    var s := Initial(c);
    var p := Piece(Free, c.start, c.maxBin);
    PiecesHas(s);
    forall q
      ensures q in Pieces(s) <==> q == p
    {
      assert q in Pieces(s) <==> Has(s, q);
    }
    assert Pieces(s) == {p};
    BytesWith(c, {}, p);
    assert {} + {p} == {p};
    LiveHas(s.live);
    assert LivePieces(s.live) == {};
    forall x: nat | c.start <= x < c.start + Extent(c)
      ensures Covered(c, {p}, x)
    {
      assert Within(c, p, x);
    }
  }

  /** In every state that allocations and frees of non-null pointers reach, the free, live and dropped
      blocks tile the extent, every descriptor is in one place, and curr_heap_size is mem_size less the
      live bytes, modulo 2^32. */
  lemma {:induction false} RunSound(c: Config, ops: seq<Op>)
    requires ValidConfig(c)
    ensures Inv(c, Run(c, ops))
  {
    hide Tiles, Bytes, Pieces, Size, LivePieces, Alloc, Release;
    if ops == [] {
      InitialSound(c);
    } else {
      var s := Run(c, ops[..|ops| - 1]);
      RunSound(c, ops[..|ops| - 1]);
      match ops[|ops| - 1]
      case AllocOp(size) => AllocKeeps(c, s, size);
      case FreeOp(ptr) => ReleaseKeeps(c, s, ptr);
    }
  }

  // ---- byte by byte ----

  ghost predicate InFree(c: Config, free: seq<set<nat>>, x: nat) {
    exists p :: p in FreePieces(free) && Within(c, p, x)
  }

  ghost predicate InLive(c: Config, live: map<nat, nat>, x: nat) {
    exists p :: p in LivePieces(live) && Within(c, p, x)
  }

  ghost predicate InLost(c: Config, lost: set<Block>, x: nat) {
    exists p :: p in LostPieces(lost) && Within(c, p, x)
  }

  ghost predicate InExtent(c: Config, x: nat) {
    c.start <= x < c.start + Extent(c)
  }

  /** Every byte of the extent is in exactly one of a free, a live and a dropped block, and no other byte is in any. */
  lemma BytePartition(c: Config, s: State, x: nat)
    requires Inv(c, s)
    ensures InExtent(c, x) <==> InFree(c, s.free, x) || InLive(c, s.live, x) || InLost(c, s.lost, x)
    ensures !(InFree(c, s.free, x) && InLive(c, s.live, x))
    ensures !(InFree(c, s.free, x) && InLost(c, s.lost, x))
    ensures !(InLive(c, s.live, x) && InLost(c, s.lost, x))
  {
    hide Size, Bytes, Extent;
    var ps := Pieces(s);
    forall p, q | p in ps && q in ps && Within(c, p, x) && Within(c, q, x)
      ensures p == q
    {
      OneBlockOver(c, ps, p, q, x);
    }
    if InExtent(c, x) {
      assert Covered(c, ps, x);
      var p :| p in ps && Within(c, p, x);
    }
    KindsDiffer(s);
    forall p | p in ps && Within(c, p, x)
      ensures InExtent(c, x)
    {
      assert Inside(c, p);
    }
  }

  lemma KindsDiffer(s: State)
    ensures forall p :: p in FreePieces(s.free) ==> p.kind == Free
    ensures forall p :: p in LivePieces(s.live) ==> p.kind == Live
    ensures forall p :: p in LostPieces(s.lost) ==> p.kind == Lost
  {
  }

  lemma OneBlockOver(c: Config, ps: set<Piece>, p: Piece, q: Piece, x: nat)
    requires Tiles(c, ps) && p in ps && q in ps && Within(c, p, x) && Within(c, q, x)
    ensures p == q
  {
  }

  /** sw_buddy_free adds exactly the bytes of the freed block to the free bytes, whatever is merged. */
  lemma ReleaseBytes(c: Config, s: State, ptr: nat, x: nat)
    requires Inv(c, s) && ptr in s.live
    ensures InFree(c, Release(c, s, ptr).free, x) <==> InFree(c, s.free, x) || ptr <= x < ptr + Size(c, s.live[ptr])
  {
    hide Size, Release, Within, Bytes, InExtent, Tiles, InFree, InLive, InLost;
    var s' := Release(c, s, ptr);
    LivePointer(c, s, ptr);
    ReleaseKeeps(c, s, ptr);
    BytePartition(c, s, x);
    BytePartition(c, s', x);
    LiveByte(c, s, ptr, x);
  }

  /** A byte is live after a free exactly if it was before and is not in the freed block. */
  lemma LiveByte(c: Config, s: State, ptr: nat, x: nat)
    requires Inv(c, s) && ptr in s.live
    ensures InLive(c, s.live - {ptr}, x) <==> InLive(c, s.live, x) && !(ptr <= x < ptr + Size(c, s.live[ptr]))
    ensures ptr <= x < ptr + Size(c, s.live[ptr]) ==> InLive(c, s.live, x)
  {
    hide Size, Bytes, Tiles, ValidConfig, LivePieces, Pieces;
    var p := Piece(Live, ptr, s.live[ptr]);
    LiveHas(s.live);
    LiveHas(s.live - {ptr});
    LiveIncluded(s);
    assert p in LivePieces(s.live);
    forall q | q in LivePieces(s.live) && Within(c, q, x) && Within(c, p, x)
      ensures q == p
    {
      OneBlockOver(c, Pieces(s), p, q, x);
    }
    if InLive(c, s.live, x) && !Within(c, p, x) {
      var q :| q in LivePieces(s.live) && Within(c, q, x);
      assert q in LivePieces(s.live - {ptr});
    }
  }

  // ---- what a call returns ----

  /** Splitting from idx down to bin: level j between them gets the one new free block addr + size(j). */
  ghost function SplitFree(c: Config, free: seq<set<nat>>, addr: nat, idx: nat, bin: nat): seq<set<nat>> {
    seq(|free|, j requires 0 <= j < |free| => if bin <= j < idx then free[j] + {addr + Size(c, j)} else free[j])
  }

  lemma {:induction false} SplitOutcome(c: Config, s: State, addr: nat, idx: nat, bin: nat)
    requires bin <= idx <= |s.free|
    ensures Split(c, s, addr, idx, bin) ==
      if idx - bin <= s.spare then
        (s.(free := SplitFree(c, s.free, addr, idx, bin), spare := s.spare - (idx - bin)), Some(addr))
      else
        (s.(free := SplitFree(c, s.free, addr, idx, idx - s.spare), spare := 0,
            lost := s.lost + {Block(addr, idx - s.spare)}), None)
    decreases idx
  {
    hide Size;
    if idx == bin || s.spare == 0 {
      assert SplitFree(c, s.free, addr, idx, idx) == s.free;
    } else {
      var s1 := AddFree(s, idx - 1, addr + Size(c, idx - 1)).(spare := s.spare - 1);
      SplitOutcome(c, s1, addr, idx - 1, bin);
      var low := if idx - bin <= s.spare then bin else idx - s.spare;
      assert SplitFree(c, s1.free, addr, idx - 1, low) == SplitFree(c, s.free, addr, idx, low);
    }
  }

  /** The free list a request is served from, and the block: the lowest of the first non-empty
      list whose blocks are large enough. */
  ghost predicate Serves(c: Config, s: State, bin: nat, idx: nat, addr: nat) {
    && bin <= idx < |s.free|
    && IsLowest(s.free[idx], addr)
    && (forall k :: bin <= k < idx ==> s.free[k] == {})
  }

  ghost predicate Admitted(c: Config, s: State, size: bv32)
    requires 1 <= c.maxBin
  {
    Val(size) <= s.heap && Val(NextPow(size)) <= s.heap && Val(NextPow(size)) <= Size(c, c.maxBin - 1)
  }

  /** The state after a request that was served by the block of bin idx at addr. */
  ghost function Served(c: Config, s: State, bin: nat, idx: nat, addr: nat): State
    requires idx < |s.free| && idx - bin <= s.spare
  {
    s.(free := SplitFree(c, s.free[idx := s.free[idx] - {addr}], addr, idx, bin),
       spare := s.spare - (idx - bin),
       live := s.live[addr := bin],
       heap := HeapLess(s.heap, Size(c, bin)))
  }

  /** A successful sw_buddy_alloc. */
  lemma AllocSome(c: Config, s: State, size: bv32) returns (bin: nat, idx: nat)
    requires Inv(c, s) && Alloc(c, s, size).1.Some?
    ensures var (s', r) := Alloc(c, s, size);
            && Admitted(c, s, size)
            && bin < c.maxBin
            && Val(NextPow(size)) <= Size(c, bin)
            && (0 < bin ==> Val(NextPow(size)) == Size(c, bin))
            && Serves(c, s, bin, idx, r.value)
            && idx - bin <= s.spare
            && r.value !in s.live
            && s' == Served(c, s, bin, idx, r.value)
    ensures bin == BinOf(c, Val(NextPow(size))) && idx == FirstBin(s.free, bin)
  {
    hide Tiles, Bytes, Pieces, Size, LivePieces, NextPow, Val, LogOf2, BinOf, Split, SplitFree;
    BinFits(c, size);
    bin := BinOf(c, Val(NextPow(size)));
    idx := FirstBin(s.free, bin);
    GetFreeBuddyKeeps(c, s, bin);
    var (s1, r) := GetFreeBuddy(c, s, bin);
    var addr := Lowest(s.free[idx]);
    SplitOutcome(c, DropFree(s, idx, addr), addr, idx, bin);
    GiveLive(c, s1, r.value, bin);
  }

  /** All spare descriptors went into halving the lowest block of bin idx; what is left of it is dropped. */
  ghost function Dropped(c: Config, s: State, idx: nat): State
    requires idx < |s.free| && s.free[idx] != {} && s.spare <= idx
  {
    var addr := Lowest(s.free[idx]);
    s.(free := SplitFree(c, s.free[idx := s.free[idx] - {addr}], addr, idx, idx - s.spare),
       spare := 0, lost := s.lost + {Block(addr, idx - s.spare)})
  }

  /** When sw_buddy_alloc succeeds, and what a failure does: nothing, or, when the descriptors run
      out half way, the loss of the block in hand. */
  lemma AllocOutcome(c: Config, s: State, size: bv32)
    requires Inv(c, s)
    ensures var (s', r) := Alloc(c, s, size);
            var bin := BinOf(c, Val(NextPow(size)));
            var idx := FirstBin(s.free, bin);
            && (r.Some? <==> Admitted(c, s, size) && idx <= c.maxBin && idx - bin <= s.spare)
            && (r.None? && Admitted(c, s, size) && idx <= c.maxBin ==> s' == Dropped(c, s, idx))
            && (r.None? && !(Admitted(c, s, size) && idx <= c.maxBin) ==> s' == s)
  {
    hide Tiles, Bytes, Pieces, Size, LivePieces, NextPow, Val, LogOf2, BinOf, Split, SplitFree;
    var bin := BinOf(c, Val(NextPow(size)));
    var idx := FirstBin(s.free, bin);
    if idx < |s.free| {
      var addr := Lowest(s.free[idx]);
      SplitOutcome(c, DropFree(s, idx, addr), addr, idx, bin);
    }
  }

  /** The block of a successful sw_buddy_alloc holds the request exactly if the request is at most
      2^31; above that next_pow_of_2 wraps to 0 and a minimal block is returned. */
  lemma AllocHoldsIff(c: Config, s: State, size: bv32)
    requires Inv(c, s) && Alloc(c, s, size).1.Some?
    ensures var bin := BinOf(c, Val(NextPow(size)));
            Val(size) <= Size(c, bin) <==> Val(size) <= 0x8000_0000
  {
    hide Tiles, Bytes, Pieces, Size, LivePieces, NextPow, Val, LogOf2, Alloc, ShiftRight;
    var bin, idx := AllocSome(c, s, size);
    NextPowSufficesIff(size);
    if 0x8000_0000 < Val(size) {
      NextPowWraps(size);
      if 0 < bin {
        SizePositive(c, bin);
      } else {
        MinSmall(c);
      }
    }
  }

  lemma MinSmall(c: Config)
    requires ValidConfig(c)
    ensures Size(c, 0) < 0x8000_0000
  {
    SizeStep(c, 0);
    Pow2Monotonic(1, c.maxBin);
    SizeMonotonic(c, 1, c.maxBin);
  }

  lemma {:induction false} SizeMonotonic(c: Config, a: nat, b: nat)
    requires a <= b
    ensures Size(c, a) <= Size(c, b)
  {
    if a < b {
      SizeStep(c, b - 1);
      SizeMonotonic(c, a, b - 1);
    }
  }

  lemma SizeWord(c: Config, bin: nat)
    requires ValidConfig(c) && bin <= c.maxBin
    ensures Size(c, bin) < WORD
  {
    SizeMonotonic(c, bin, c.maxBin);
  }

  /** sw_buddy_alloc takes the bytes of the returned block, all of them free before, out of the
      free bytes and touches no other byte. */
  lemma AllocBytes(c: Config, s: State, size: bv32, x: nat)
    requires Inv(c, s) && Alloc(c, s, size).1.Some?
    ensures var (s', r) := Alloc(c, s, size);
            var bin := s'.live[r.value];
            && (r.value <= x < r.value + Size(c, bin) ==> InFree(c, s.free, x) && !InLive(c, s.live, x))
            && (InFree(c, s'.free, x) <==> InFree(c, s.free, x) && !(r.value <= x < r.value + Size(c, bin)))
            && (InLive(c, s'.live, x) <==> InLive(c, s.live, x) || r.value <= x < r.value + Size(c, bin))
  {
    hide Size, Within, Bytes, InExtent, Tiles, InFree, InLive, InLost, Alloc, NextPow, Val, BinOf, SplitFree;
    AllocKeeps(c, s, size);
    var (s', r) := Alloc(c, s, size);
    var bin, idx := AllocSome(c, s, size);
    BytePartition(c, s, x);
    BytePartition(c, s', x);
    LiveByte(c, s', r.value, x);
    assert s'.live - {r.value} == s.live;
  }

  // ---- alloc followed by free ----

  /** The free lists while return_to_free_area undoes the halvings of the block of bin idx at addr:
      it has been put together again up to bin j. */
  ghost function Rejoined(c: Config, s: State, addr: nat, idx: nat, j: nat): State
    requires j <= idx < |s.free| && idx - j <= s.spare
  {
    var free := SplitFree(c, s.free[idx := s.free[idx] - {addr}], addr, idx, j);
    s.(free := free[j := free[j] + {addr}], spare := s.spare - (idx - j))
  }

  lemma RejoinDone(c: Config, s: State, addr: nat, idx: nat)
    requires idx < |s.free| && addr in s.free[idx]
    ensures Rejoined(c, s, addr, idx, idx) == s
  {
    var free := Rejoined(c, s, addr, idx, idx).free;
    assert s.free[idx] - {addr} + {addr} == s.free[idx];
    forall k | 0 <= k < |free|
      ensures free[k] == s.free[k]
    {
    }
    assert free == s.free;
  }

  lemma MergePair(c: Config, s: State, j: nat, addr: nat)
    requires |s.free| == c.maxBin + 1 && j < c.maxBin && 0 < Size(c, j)
    requires IsLowest(s.free[j], addr) && addr + Size(c, j) in s.free[j]
    ensures var m := MergeOnce(c, s, j, addr);
            Merge(c, s, j, addr) == if j + 1 == c.maxBin then m else Merge(c, m, j + 1, addr)
  {
    hide Size;
  }

  lemma {:induction false} RejoinMerge(c: Config, s: State, addr: nat, idx: nat, j: nat)
    requires Inv(c, s) && Serves(c, s, j, idx, addr) && idx - j <= s.spare && j < idx
    ensures Merge(c, Rejoined(c, s, addr, idx, j), j, addr) ==
            (if idx == c.maxBin then s else Merge(c, s, idx, addr))
    decreases idx - j
  {
    hide Tiles, Bytes, Pieces, Size, LivePieces, IsPower, Merge, MergeOnce;
    var t := Rejoined(c, s, addr, idx, j);
    var buddy := addr + Size(c, j);
    SizePositive(c, j);
    assert t.free[j] == {addr, buddy};
    assert Lowest(t.free[j]) == addr;
    MergePair(c, t, j, addr);
    RejoinOnce(c, s, addr, idx, j);
    if j + 1 == idx {
      RejoinDone(c, s, addr, idx);
    } else {
      RejoinMerge(c, s, addr, idx, j + 1);
    }
  }

  lemma RejoinOnce(c: Config, s: State, addr: nat, idx: nat, j: nat)
    requires Serves(c, s, j, idx, addr) && idx - j <= s.spare && j < idx && 0 < Size(c, j)
    ensures MergeOnce(c, Rejoined(c, s, addr, idx, j), j, addr) == Rejoined(c, s, addr, idx, j + 1)
  {
    hide Size;
    var t, u := Rejoined(c, s, addr, idx, j), Rejoined(c, s, addr, idx, j + 1);
    var m := MergeOnce(c, t, j, addr);
    forall k | 0 <= k < |m.free|
      ensures m.free[k] == u.free[k]
    {
      if k == j {
        assert t.free[j] == {addr, addr + Size(c, j)};
      }
    }
    assert m.free == u.free;
  }

  /** sw_buddy_free undoes the sw_buddy_alloc just before it exactly if the block that served the
      request had no free right neighbour of its own bin; otherwise it merges further. */
  lemma AllocThenReleaseIff(c: Config, s: State, size: bv32)
    requires Inv(c, s) && Alloc(c, s, size).1.Some?
    ensures var (s', r) := Alloc(c, s, size);
            var idx := FirstBin(s.free, BinOf(c, Val(NextPow(size))));
            Release(c, s', r.value) == s <==> r.value + Size(c, idx) !in s.free[idx]
  {
    hide Tiles, Bytes, Pieces, Size, LivePieces, Alloc, NextPow, Val, BinOf, SplitFree, Merge, IsPower;
    AllocKeeps(c, s, size);
    var (s', r) := Alloc(c, s, size);
    var addr := r.value;
    var bin, idx := AllocSome(c, s, size);
    LivePointer(c, s', addr);
    ReleaseKeeps(c, s', addr);
    var t := Rejoined(c, s, addr, idx, bin);
    SizeWord(c, bin);
    HeapAdd(s.heap, Size(c, bin));
    assert s'.live - {addr} == s.live;
    assert Release(c, s', addr) == Merge(c, t, bin, addr);
    if bin < idx {
      RejoinMerge(c, s, addr, idx, bin);
    } else {
      RejoinDone(c, s, addr, idx);
    }
    assert addr == Lowest(s.free[idx]);
    MergeAt(c, s, idx, addr);
  }

  lemma HeapAdd(heap: nat, size: nat)
    requires heap < WORD && size < WORD
    ensures (HeapLess(heap, size) + size) % WORD == heap
  {
  }

  /** A merge loop that starts at the tracked block leaves the state alone exactly if that block has
      no free right neighbour. */
  lemma MergeAt(c: Config, s: State, idx: nat, addr: nat)
    requires Inv(c, s) && idx <= c.maxBin && IsLowest(s.free[idx], addr)
    ensures Merge(c, s, idx, addr) == s <==> addr + Size(c, idx) !in s.free[idx]
    ensures idx == c.maxBin ==> addr + Size(c, idx) !in s.free[idx]
  {
    hide Tiles, Bytes, Pieces, Size, LivePieces, IsPower;
    assert addr == Lowest(s.free[idx]);
    var buddy := addr + Size(c, idx);
    if buddy in s.free[idx] {
      MergeStep(c, s, idx, addr);
      MergeKeeps(c, MergeOnce(c, s, idx, addr), idx + 1, if addr == buddy then 0 else addr);
    }
  }

  // ---- the same, of every state that a run reaches ----

  /** After any run: every byte of the extent is free, live or dropped, and only one of these. */
  lemma {:induction false} ReachableBytes(c: Config, ops: seq<Op>, x: nat)
    requires ValidConfig(c)
    ensures var s := Run(c, ops);
            && (InExtent(c, x) <==> InFree(c, s.free, x) || InLive(c, s.live, x) || InLost(c, s.lost, x))
            && !(InFree(c, s.free, x) && InLive(c, s.live, x))
            && !(InFree(c, s.free, x) && InLost(c, s.lost, x))
            && !(InLive(c, s.live, x) && InLost(c, s.lost, x))
  {
    hide Inv, InFree, InLive, InLost, InExtent, Run;
    RunSound(c, ops);
    BytePartition(c, Run(c, ops), x);
  }

  /** After any run: an allocation that returns a block gives a lowest one of the first sufficient bin
      that is not empty, and frees nothing it did not have. */
  lemma {:induction false} ReachableAlloc(c: Config, ops: seq<Op>, size: bv32, x: nat)
    requires ValidConfig(c)
    ensures var s := Run(c, ops);
            var (s', r) := Alloc(c, s, size);
            r.Some? ==>
              && r.value !in s.live && r.value in s'.live
              && (exists bin, idx :: Serves(c, s, bin, idx, r.value) && s'.live[r.value] == bin)
              && (Val(size) <= Size(c, s'.live[r.value]) <==> Val(size) <= 0x8000_0000)
              && (InFree(c, s'.free, x) ==> InFree(c, s.free, x))
  {
    hide Inv, Alloc, InFree, InLive, Size, NextPow, Val, BinOf, FirstBin, Run, Admitted, Served, IsLowest;
    RunSound(c, ops);
    var s := Run(c, ops);
    if Alloc(c, s, size).1.Some? {
      var bin, idx := AllocSome(c, s, size);
      ServedLive(c, s, bin, idx, Alloc(c, s, size).1.value);
      AllocHoldsIff(c, s, size);
      AllocBytes(c, s, size, x);
    }
  }

  lemma ServedLive(c: Config, s: State, bin: nat, idx: nat, addr: nat)
    requires idx < |s.free| && idx - bin <= s.spare
    ensures addr in Served(c, s, bin, idx, addr).live && Served(c, s, bin, idx, addr).live[addr] == bin
  {
  }

  /** After any run: freeing a block right after its allocation restores the state exactly if the block
      that served it had no free right neighbour in its bin. */
  lemma {:induction false} ReachableUndoIff(c: Config, ops: seq<Op>, size: bv32)
    requires ValidConfig(c)
    ensures var s := Run(c, ops);
            var (s', r) := Alloc(c, s, size);
            var idx := FirstBin(s.free, BinOf(c, Val(NextPow(size))));
            r.Some? ==>
              idx < |s.free| && (Release(c, s', r.value) == s <==> r.value + Size(c, idx) !in s.free[idx])
  {
    hide Inv, Alloc, Size, NextPow, Val, BinOf, FirstBin, Run, Admitted, Served, Release, IsLowest;
    RunSound(c, ops);
    if Alloc(c, Run(c, ops), size).1.Some? {
      var bin, idx := AllocSome(c, Run(c, ops), size);
      AllocThenReleaseIff(c, Run(c, ops), size);
    }
  }
}
