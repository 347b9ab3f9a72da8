/** Which blocks lie inside the memory of the pool.  sw_buddy_init lets the first block stand for twice
    max_alloc_size, while sw_heap.c creates its pools with max_alloc_size bytes. */
module BuddyHeap {
  import opened Options
  import opened SwMath
  import opened BuddySpec
  import opened BuddyTheory

  /** The bytes behind the descriptors that belong to the pool end here. */
  function MemEnd(c: Config): nat { c.start + c.memSize }

  /** Every live block lies in the memory of the pool. */
  ghost predicate Contained(c: Config, s: State) {
    forall a :: a in s.live ==> c.start <= a && a + Size(c, s.live[a]) <= MemEnd(c)
  }

  /** A pool as sw_heap.c creates it: its memory is max_alloc_size bytes. */
  ghost predicate HeapPool(c: Config) {
    ValidConfig(c) && c.memSize == Size(c, c.maxBin - 1)
  }

  // ---- one call ----

  /** sw_buddy_alloc returns memory of the pool exactly if some block of the list that serves the
      request starts early enough. */
  lemma AllocInsideIff(c: Config, s: State, size: bv32)
    requires Inv(c, s) && Alloc(c, s, size).1.Some?
    ensures var (s', r) := Alloc(c, s, size);
            var bin := BinOf(c, Val(NextPow(size)));
            var idx := FirstBin(s.free, bin);
            && r.value in s'.live && s'.live[r.value] == bin && idx < |s.free|
            && (r.value + Size(c, bin) <= MemEnd(c) <==> exists a :: a in s.free[idx] && a + Size(c, bin) <= MemEnd(c))
  {
    hide Inv, Alloc, NextPow, Val, BinOf, Size, Admitted;
    var bin, idx := AllocSome(c, s, size);
    ServedLive(c, s, bin, idx, Alloc(c, s, size).1.value);
  }

  /** In a pool that has all the bytes of the extent every run keeps to its memory. */
  lemma RunContained(c: Config, ops: seq<Op>)
    requires ValidConfig(c) && Extent(c) <= c.memSize
    ensures Contained(c, Run(c, ops))
  {
    RunSound(c, ops);
    hide Run, Bytes, Size, Pieces;
    var s := Run(c, ops);
    PiecesHas(s);
    forall a | a in s.live
      ensures c.start <= a && a + Size(c, s.live[a]) <= MemEnd(c)
    {
      assert Has(s, Piece(Live, a, s.live[a]));
      assert Inside(c, Piece(Live, a, s.live[a]));
    }
  }

  // ---- curr_heap_size ----

  /** curr_heap_size goes down by the block a request gets exactly if it was at least min_alloc_size;
      else the request got more than was left, and it wraps. */
  lemma AllocWrapsIff(c: Config, s: State, size: bv32)
    requires Inv(c, s) && Alloc(c, s, size).1.Some?
    ensures var (s', r) := Alloc(c, s, size);
            && r.value in s'.live && s'.live[r.value] <= c.maxBin
            && (s'.heap + Size(c, s'.live[r.value]) == s.heap <==> c.minSize <= s.heap)
            && (s.heap < c.minSize ==> s'.heap == s.heap + WORD - c.minSize)
  {
    hide Inv, Alloc, NextPow, Val, BinOf, FirstBin, IsLowest;
    var bin, idx := AllocSome(c, s, size);
    ServedLive(c, s, bin, idx, Alloc(c, s, size).1.value);
    assert ValidConfig(c) by { HeapWord(c, s); }
    HeapWord(c, s);
    SizeWord(c, bin);
    LessIs(s.heap, Size(c, bin));
    SizeMonotonic(c, 0, bin);
    assert Size(c, 0) == c.minSize by { assert Pow2(0) == 1; }
    SizePositive(c, bin);
  }

  ghost predicate Multiple(n: nat, m: nat) {
    exists k: nat :: n == k * m
  }

  lemma ProductSum(j: nat, k: nat, m: nat)
    ensures (j + k) * m == j * m + k * m
  {
  }

  lemma ProductGap(j: nat, k: nat, m: nat)
    ensures j <= k ==> j * m <= k * m
    ensures k < j ==> k * m + m <= j * m
  {
    if j <= k {
      ProductSum(j, k - j, m);
      assert 0 <= (k - j) * m;
    } else {
      ProductSum(k + 1, j - k - 1, m);
      ProductSum(k, 1, m);
      assert 0 <= (j - k - 1) * m;
    }
  }

  lemma MultipleSum(a: nat, b: nat, m: nat)
    requires Multiple(a, m) && Multiple(b, m)
    ensures Multiple(a + b, m)
  {
    var j: nat :| a == j * m;
    var k: nat :| b == k * m;
    ProductSum(j, k, m);
  }

  lemma MultipleRest(a: nat, b: nat, m: nat)
    requires Multiple(a + b, m) && Multiple(b, m) && 0 < a
    ensures m <= a
  {
    var j: nat :| a + b == j * m;
    var k: nat :| b == k * m;
    ProductGap(j, k, m);
  }

  lemma SizeMultiple(c: Config, bin: nat)
    ensures Multiple(Size(c, bin), c.minSize)
  {
    assert Size(c, bin) == Pow2(bin) * c.minSize;
  }

  lemma {:induction false} BytesMultiple(c: Config, ps: set<Piece>)
    ensures Multiple(Bytes(c, ps), c.minSize)
  {
    hide Size;
    if ps == {} {
      assert 0 == 0 * c.minSize;
    } else {
      var p :| p in ps;
      BytesMultiple(c, ps - {p});
      BytesWithout(c, ps, p);
      SizeMultiple(c, p.bin);
      MultipleSum(Size(c, p.bin), Bytes(c, ps - {p}), c.minSize);
    }
  }

  /** curr_heap_size is mem_size less the live bytes. */
  ghost predicate Exact(c: Config, s: State) {
    s.heap + Bytes(c, LivePieces(s.live)) == c.memSize
  }

  /** curr_heap_size is exact over every run of a pool that has all the bytes of the extent, or whose
      memory is a multiple of min_alloc_size. */
  lemma {:induction false} RunExact(c: Config, ops: seq<Op>)
    requires ValidConfig(c) && (Extent(c) <= c.memSize || Multiple(c.memSize, c.minSize))
    ensures Exact(c, Run(c, ops))
    decreases |ops|
  {
    hide Inv, Step, Bytes, Multiple, Extent, Exact, Initial;
    RunSound(c, ops);
    if Extent(c) <= c.memSize {
      CoveredExact(c, Run(c, ops));
    } else if ops == [] {
      InitialExact(c);
    } else {
      var before := ops[..|ops| - 1];
      RunExact(c, before);
      RunSound(c, before);
      StepExact(c, Run(c, before), ops[|ops| - 1]);
    }
  }

  lemma InitialExact(c: Config)
    ensures Exact(c, Initial(c))
  {
    assert LivePieces(map[]) == {};
  }

  lemma CoveredExact(c: Config, s: State)
    requires Inv(c, s) && Extent(c) <= c.memSize
    ensures Exact(c, s)
  {
    hide Bytes, Tiles, ValidConfig, Extent, Pieces;
    assert LivePieces(s.live) <= Pieces(s) by { LiveIncluded(s); }
    BytesSubset(c, LivePieces(s.live), Pieces(s));
  }

  lemma StepExact(c: Config, s: State, op: Op)
    requires Inv(c, s) && Exact(c, s) && Multiple(c.memSize, c.minSize)
    ensures Exact(c, Step(c, s, op))
  {
    hide Bytes, Multiple, Inv, Alloc, Release, LivePieces;
    HeapWord(c, s);
    match op
    case AllocOp(size) =>
      AllocExact(c, s, size);
    case FreeOp(ptr) =>
      ReleaseExact(c, s, ptr);
  }

  lemma AllocExact(c: Config, s: State, size: bv32)
    requires Inv(c, s) && Exact(c, s) && Multiple(c.memSize, c.minSize)
    ensures Exact(c, Alloc(c, s, size).0)
  {
    hide Bytes, Multiple, Inv, Alloc, LivePieces, Size, NextPow, Val, BinOf, FirstBin, IsLowest;
    HeapWord(c, s);
    var (s', r) := Alloc(c, s, size);
    if r.Some? {
      var bin, idx := AllocSome(c, s, size);
      AllocWrapsIff(c, s, size);
      RequestNeeds(size);
      BytesMultiple(c, LivePieces(s.live));
      MultipleRest(s.heap, Bytes(c, LivePieces(s.live)), c.minSize);
      ServedLive(c, s, bin, idx, r.value);
      MoreLive(c, s.live, r.value, bin);
    } else {
      AllocNone(c, s, size);
    }
  }

  /** Every request needs something. */
  lemma RequestNeeds(size: bv32)
    ensures 0 < Val(size) || 0 < Val(NextPow(size))
  {
    hide NextPow, Val;
    if Val(size) == 0 {
      Zero(size);
    }
  }

  lemma MoreLive(c: Config, live: map<nat, nat>, addr: nat, bin: nat)
    requires addr !in live
    ensures Bytes(c, LivePieces(live[addr := bin])) == Bytes(c, LivePieces(live)) + Size(c, bin)
  {
    hide Bytes, Size;
    var p := Piece(Live, addr, bin);
    assert p !in LivePieces(live);
    assert LivePieces(live[addr := bin]) == LivePieces(live) + {p} by {
      LiveHas(live);
      LiveHas(live[addr := bin]);
    }
    BytesWith(c, LivePieces(live), p);
  }

  lemma ReleaseExact(c: Config, s: State, ptr: Pointer)
    requires Inv(c, s) && Exact(c, s)
    ensures Exact(c, Release(c, s, ptr))
  {
    hide Bytes, Inv, Release, LivePieces, Size;
    HeapWord(c, s);
    ReleaseKeeps(c, s, ptr);
    if ptr in s.live {
      var bin := s.live[ptr];
      assert (s.live - {ptr})[ptr := bin] == s.live;
      MoreLive(c, s.live - {ptr}, ptr, bin);
    }
  }

  // ---- steps of a run ----

  /** A request for exactly the blocks of a bin. */
  ghost predicate Fitting(c: Config, size: bv32, bin: nat) {
    bin < c.maxBin && Val(size) == Val(NextPow(size)) == Size(c, bin) && BinOf(c, Size(c, bin)) == bin
  }

  lemma {:induction false} PowWord(k: nat) returns (w: bv32)
    requires k < 32
    ensures Val(w) == Pow2(k)
  {
    if k == 0 {
      w := 1;
      assert Pow2(0) == 1;
    } else {
      var p := PowWord(k - 1);
      Pow2Monotonic(k - 1, 30);
      assert Pow2(30) == 0x4000_0000 by { Pow2Values(); }
      LowerHalf(p);
      DoubleWord(p);
      w := p << 1;
    }
  }

  lemma LowerHalf(p: bv32)
    requires Val(p) <= 0x4000_0000
    ensures p < 0x8000_0000
  {
  }

  lemma PowRequest(w: bv32, r: nat)
    requires r < 32 && Val(w) == Pow2(r)
    ensures Val(NextPow(w)) == Pow2(r)
  {
    hide LogOf2, NextPow, IsPowOf2, Val, Pow2;
    IsPowOf2Iff(w);
    Pow2Monotonic(r, 31);
    Pow2Monotonic(0, r);
    Pow2Values();
    var k := NextPowIsLeast(w);
  }

  lemma BinAt(c: Config, m: nat, bin: nat)
    requires c.minSize == Pow2(m) && m + bin < 32
    ensures BinOf(c, Pow2(m + bin)) == bin
  {
    hide LogOf2, ShiftRight, Pow2;
    ShiftPow2(m + bin, m);
    LogOfPow2(m);
    LogOfPow2(bin);
  }

  lemma BinExponent(c: Config, bin: nat) returns (m: nat)
    requires ValidConfig(c) && bin <= c.maxBin
    ensures c.minSize == Pow2(m) && m + bin < 32 && Size(c, bin) == Pow2(m + bin)
  {
    hide Pow2, IsPower;
    SizeWord(c, 0);
    assert Pow2(0) == 1 by { Pow2Values(); }
    m := PowerExponent(c.minSize);
    Pow2Add(m, bin);
    SizeWord(c, bin);
    if 32 <= m + bin {
      Pow2Monotonic(32, m + bin);
      Pow2Values();
    }
  }

  lemma FittingWord(c: Config, bin: nat) returns (w: bv32)
    requires ValidConfig(c) && bin < c.maxBin
    ensures Fitting(c, w, bin)
  {
    hide Pow2, NextPow, Val, BinOf, Size;
    var m := BinExponent(c, bin);
    w := PowWord(m + bin);
    PowRequest(w, m + bin);
    BinAt(c, m, bin);
  }

  /** A request whose list and block are known. */
  lemma AllocServes(c: Config, s: State, size: bv32, bin: nat, idx: nat, addr: nat)
    requires Inv(c, s) && Fitting(c, size, bin) && Size(c, bin) <= s.heap
    requires Serves(c, s, bin, idx, addr) && idx - bin <= s.spare
    ensures Alloc(c, s, size) == (Served(c, s, bin, idx, addr), Some(addr))
  {
    hide Alloc, NextPow, Val, BinOf, Size, FirstBin, Inv, SplitFree, HeapLess;
    HeapWord(c, s);
    AllocOutcome(c, s, size);
    FirstIs(s.free, bin, idx);
    SizeTop(c, bin);
    var bin', idx' := AllocSome(c, s, size);
  }

  /** The run goes on with a request that the block of bin idx at addr serves; free are the lists after it. */
  lemma AllocFurther(c: Config, ops: seq<Op>, s: State, size: bv32, bin: nat, idx: nat, addr: nat, free: seq<set<nat>>)
    requires ValidConfig(c) && Run(c, ops) == s && Fitting(c, size, bin) && Size(c, bin) <= s.heap
    requires Serves(c, s, bin, idx, addr) && idx - bin <= s.spare
    requires |free| == |s.free| && free[idx] == s.free[idx] - {addr}
    requires forall j :: 0 <= j < |free| && j != idx ==>
               free[j] == if bin <= j < idx then {addr + Size(c, j)} else s.free[j]
    ensures var s' := State(free, s.live[addr := bin], s.lost, s.spare - (idx - bin), s.heap - Size(c, bin));
            Run(c, ops + [AllocOp(size)]) == s'
  {
    hide Run, Alloc, NextPow, Val, BinOf, Size, FirstBin, Inv, SplitFree, HeapLess;
    RunSound(c, ops);
    AllocServes(c, s, size, bin, idx, addr);
    SizeWord(c, bin);
    HeapWord(c, s);
    LessIs(s.heap, Size(c, bin));
    SplitIs(c, s, addr, idx, bin, free);
    RunStep(c, ops, AllocOp(size));
  }

  lemma FirstIs(free: seq<set<nat>>, bin: nat, idx: nat)
    requires bin <= idx < |free| && free[idx] != {} && forall k :: bin <= k < idx ==> free[k] == {}
    ensures FirstBin(free, bin) == idx
  {
  }

  lemma SizeTop(c: Config, bin: nat)
    requires bin < c.maxBin
    ensures Size(c, bin) <= Size(c, c.maxBin - 1)
  {
    SizeMonotonic(c, bin, c.maxBin - 1);
  }

  lemma HeapWord(c: Config, s: State)
    requires Inv(c, s)
    ensures ValidConfig(c) && s.heap < WORD && |s.free| == c.maxBin + 1
  {
  }

  lemma LessIs(heap: nat, size: nat)
    requires heap < WORD && size < WORD
    ensures HeapLess(heap, size) == if size <= heap then heap - size else heap + WORD - size
  {
  }

  lemma SplitIs(c: Config, s: State, addr: nat, idx: nat, bin: nat, free: seq<set<nat>>)
    requires |free| == |s.free| && bin <= idx < |free| && free[idx] == s.free[idx] - {addr}
    requires forall k :: bin <= k < idx ==> s.free[k] == {}
    requires forall j :: 0 <= j < |free| && j != idx ==>
               free[j] == if bin <= j < idx then {addr + Size(c, j)} else s.free[j]
    ensures SplitFree(c, s.free[idx := s.free[idx] - {addr}], addr, idx, bin) == free
  {
    hide Size;
    var split := SplitFree(c, s.free[idx := s.free[idx] - {addr}], addr, idx, bin);
    forall j | 0 <= j < |free|
      ensures split[j] == free[j]
    {
      assert bin <= j < idx ==> split[j] == {} + {addr + Size(c, j)};
    }
  }

  lemma RunStep(c: Config, ops: seq<Op>, op: Op)
    requires 1 <= c.maxBin
    ensures Run(c, ops + [op]) == Step(c, Run(c, ops), op)
  {
    assert (ops + [op])[..|ops|] == ops;
  }

  /** The run goes on with a request for which the descriptors run out: the block in hand is dropped. */
  lemma LoseFurther(c: Config, ops: seq<Op>, s: State, size: bv32, bin: nat, idx: nat, addr: nat, free: seq<set<nat>>)
    requires ValidConfig(c) && Run(c, ops) == s && Fitting(c, size, bin) && Size(c, bin) <= s.heap
    requires Serves(c, s, bin, idx, addr) && s.spare < idx - bin
    requires |free| == |s.free| && free[idx] == s.free[idx] - {addr}
    requires forall j :: 0 <= j < |free| && j != idx ==>
               free[j] == if idx - s.spare <= j < idx then {addr + Size(c, j)} else s.free[j]
    ensures Run(c, ops + [AllocOp(size)]) == State(free, s.live, s.lost + {Block(addr, idx - s.spare)}, 0, s.heap)
  {
    hide Run, Alloc, NextPow, Val, BinOf, Size, FirstBin, Inv, SplitFree, HeapLess;
    RunSound(c, ops);
    AllocOutcome(c, s, size);
    FirstIs(s.free, bin, idx);
    SizeTop(c, bin);
    HeapWord(c, s);
    SplitIs(c, s, addr, idx, idx - s.spare, free);
    RunStep(c, ops, AllocOp(size));
  }

  /** The run goes on with a free that merges nothing: the lowest free block of the bin has no free right
      neighbour, and is the freed block itself or nothing is free in the next bin. */
  lemma FreeFurther(c: Config, ops: seq<Op>, s: State, ptr: Pointer, bin: nat, low: nat)
    requires ValidConfig(c) && Run(c, ops) == s && bin < c.maxBin
    requires ptr in s.live && s.live[ptr] == bin && s.heap + Size(c, bin) < WORD
    requires IsLowest(s.free[bin] + {ptr}, low) && low + Size(c, bin) !in s.free[bin] + {ptr}
    requires low == ptr || s.free[bin + 1] == {}
    ensures Run(c, ops + [FreeOp(ptr)]) ==
            s.(free := s.free[bin := s.free[bin] + {ptr}], live := s.live - {ptr}, heap := s.heap + Size(c, bin))
  {
    RunStep(c, ops, FreeOp(ptr));
    Unmerged(c, s, ptr, bin, low);
  }

  lemma Unmerged(c: Config, s: State, ptr: nat, bin: nat, low: nat)
    requires |s.free| == c.maxBin + 1 && bin < c.maxBin
    requires ptr in s.live && s.live[ptr] == bin && s.heap + Size(c, bin) < WORD
    requires IsLowest(s.free[bin] + {ptr}, low) && low + Size(c, bin) !in s.free[bin] + {ptr}
    requires low == ptr || s.free[bin + 1] == {}
    ensures Release(c, s, ptr) ==
            s.(free := s.free[bin := s.free[bin] + {ptr}], live := s.live - {ptr}, heap := s.heap + Size(c, bin))
  {
    hide Size, Merge;
    var s' := AddFree(s.(live := s.live - {ptr}, heap := s.heap + Size(c, bin)), bin, ptr);
    MergeStops(c, s', bin, ptr, low);
    assert (s.heap + Size(c, bin)) % WORD == s.heap + Size(c, bin);
  }

  lemma MergeStops(c: Config, s: State, idx: nat, tracked: nat, low: nat)
    requires |s.free| == c.maxBin + 1 && idx < c.maxBin
    requires IsLowest(s.free[idx], low) && low + Size(c, idx) !in s.free[idx]
    requires low == tracked || s.free[idx + 1] == {}
    ensures Merge(c, s, idx, tracked) == s
  {
    hide Size;
    assert Lowest(s.free[idx]) == low;
  }

  // ---- the first requests of any pool ----

  /** Free lists of which only three, from bin k on, may hold blocks. */
  ghost function Lists(n: nat, k: nat, x: set<nat>, y: set<nat>, z: set<nat>): (free: seq<set<nat>>)
    ensures |free| == n
  {
    seq(n, j => if j == k then x else if j == k + 1 then y else if j == k + 2 then z else {})
  }

  lemma ListsAt(n: nat, k: nat, x: set<nat>, y: set<nat>, z: set<nat>)
    requires k + 3 < n
    ensures var free := Lists(n, k, x, y, z);
            && free[k] == x && free[k + 1] == y && free[k + 2] == z
            && forall j :: 0 <= j < n && j != k && j != k + 1 && j != k + 2 ==> free[j] == {}
  {
  }

  lemma ListsAre(free: seq<set<nat>>, k: nat, x: set<nat>, y: set<nat>, z: set<nat>)
    requires k + 3 < |free| && free[k] == x && free[k + 1] == y && free[k + 2] == z
    requires forall j :: 0 <= j < |free| && j != k && j != k + 1 && j != k + 2 ==> free[j] == {}
    ensures free == Lists(|free|, k, x, y, z)
  {
    var lists := Lists(|free|, k, x, y, z);
    forall j | 0 <= j < |free|
      ensures free[j] == lists[j]
    {
    }
  }

  /** The blocks of a pool of at least four descriptors, cut into eighths: bins k, k + 1, k + 2 and the top bin. */
  ghost predicate Eighths(c: Config, k: nat, q: nat) {
    && HeapPool(c) && c.maxBin == k + 3 && 0 < q
    && Size(c, k) == q && Size(c, k + 1) == 2 * q && Size(c, k + 2) == 4 * q == c.memSize && Size(c, k + 3) == 8 * q
    && 4 <= c.total
  }

  lemma EighthsExist(c: Config) returns (k: nat, q: nat)
    requires HeapPool(c) && 3 <= c.maxBin
    ensures Eighths(c, k, q) && (0 < k ==> 8 <= c.total) && (k == 0 ==> c.total == 4)
  {
    k, q := c.maxBin - 3, Size(c, c.maxBin - 3);
    hide Size;
    SizeStep(c, k);
    SizeStep(c, k + 1);
    SizeStep(c, k + 2);
    Pow2Monotonic(2, c.maxBin - 1);
    assert Pow2(2) == 4 && Pow2(3) == 8;
    if 0 < k {
      Pow2Monotonic(3, c.maxBin - 1);
    }
  }

  lemma EighthsSizes(c: Config, k: nat, q: nat)
    requires Eighths(c, k, q)
    ensures ValidConfig(c) && c.maxBin == k + 3 && 0 < q && 4 <= c.total && c.memSize == 4 * q && c.memSize < WORD
    ensures Size(c, k) == q && Size(c, k + 1) == 2 * q && Size(c, k + 2) == 4 * q && 0 < c.start
  {
  }

  /** After one request for an eighth. */
  ghost function One(c: Config, k: nat, q: nat): State
    requires 4 <= c.total
  {
    State(Lists(c.maxBin + 1, k, {c.start + q}, {c.start + 2 * q}, {c.start + 4 * q}),
          map[c.start := k], {}, c.total - 4, 3 * q)
  }

  lemma Start(c: Config, k: nat)
    requires ValidConfig(c) && c.maxBin == k + 3
    ensures var s := Run(c, []);
            && |s.free| == k + 4 && s.free[k + 3] == {c.start} && s.spare == c.total - 1
            && s.live == map[] && s.lost == {} && s.heap == c.memSize
            && forall j :: 0 <= j < k + 3 ==> s.free[j] == {}
  {
    assert 0 < c.total;
    assert Run(c, []) == Initial(c);
  }

  lemma OneReached(c: Config, k: nat, q: nat, w: bv32)
    requires Eighths(c, k, q) && Fitting(c, w, k)
    ensures Run(c, [] + [AllocOp(w)]) == One(c, k, q)
  {
    hide Run, Size, Fitting, Eighths, ValidConfig, Lists;
    EighthsSizes(c, k, q);
    Start(c, k);
    var s := One(c, k, q);
    ListsAt(c.maxBin + 1, k, {c.start + q}, {c.start + 2 * q}, {c.start + 4 * q});
    AllocFurther(c, [], Run(c, []), w, k, k + 3, c.start, s.free);
  }

  /** After two. */
  ghost function Two(c: Config, k: nat, q: nat): State
    requires 4 <= c.total
  {
    State(Lists(c.maxBin + 1, k, {}, {c.start + 2 * q}, {c.start + 4 * q}),
          map[c.start := k, c.start + q := k], {}, c.total - 4, 2 * q)
  }

  lemma TwoReached(c: Config, k: nat, q: nat, w: bv32)
    requires Eighths(c, k, q) && Fitting(c, w, k)
    ensures Run(c, [] + [AllocOp(w)] + [AllocOp(w)]) == Two(c, k, q)
  {
    hide Run, Size, Fitting, Eighths, ValidConfig, Lists;
    EighthsSizes(c, k, q);
    OneReached(c, k, q, w);
    ListsAt(c.maxBin + 1, k, {c.start + q}, {c.start + 2 * q}, {c.start + 4 * q});
    ListsAt(c.maxBin + 1, k, {}, {c.start + 2 * q}, {c.start + 4 * q});
    AllocFurther(c, [] + [AllocOp(w)], One(c, k, q), w, k, k, c.start + q, Two(c, k, q).free);
  }

  // ---- at least eight descriptors: fragmentation ----

  /** Four eighths fill the lower half, which is all the memory; then the first and the third are freed. */
  ghost function Holes(c: Config, w: bv32, q: nat): seq<Op>
    requires ValidConfig(c)
  {
    [] + [AllocOp(w)] + [AllocOp(w)] + [AllocOp(w)] + [AllocOp(w)] + [FreeOp(c.start)] + [FreeOp(c.start + 2 * q)]
  }

  ghost function Four(c: Config, k: nat, q: nat): State
    requires 5 <= c.total
  {
    State(Lists(c.maxBin + 1, k, {}, {}, {c.start + 4 * q}),
          map[c.start := k, c.start + q := k, c.start + 2 * q := k, c.start + 3 * q := k], {}, c.total - 5, 0)
  }

  lemma FourReached(c: Config, k: nat, q: nat, w: bv32)
    requires Eighths(c, k, q) && Fitting(c, w, k) && 8 <= c.total
    ensures Run(c, [] + [AllocOp(w)] + [AllocOp(w)] + [AllocOp(w)] + [AllocOp(w)]) == Four(c, k, q)
  {
    hide Run, Size, Fitting, Eighths, ValidConfig, Lists;
    EighthsSizes(c, k, q);
    TwoReached(c, k, q, w);
    var ops := [] + [AllocOp(w)] + [AllocOp(w)];
    ListsAt(c.maxBin + 1, k, {}, {c.start + 2 * q}, {c.start + 4 * q});
    ListsAt(c.maxBin + 1, k, {c.start + 3 * q}, {}, {c.start + 4 * q});
    var free := Lists(c.maxBin + 1, k, {c.start + 3 * q}, {}, {c.start + 4 * q});
    AllocFurther(c, ops, Two(c, k, q), w, k, k + 1, c.start + 2 * q, free);
    var s := Run(c, ops + [AllocOp(w)]);
    ListsAt(c.maxBin + 1, k, {}, {}, {c.start + 4 * q});
    AllocFurther(c, ops + [AllocOp(w)], s, w, k, k, c.start + 3 * q, Four(c, k, q).free);
  }

  ghost function HolesState(c: Config, k: nat, q: nat): State
    requires 5 <= c.total
  {
    State(Lists(c.maxBin + 1, k, {c.start, c.start + 2 * q}, {}, {c.start + 4 * q}),
          map[c.start + q := k, c.start + 3 * q := k], {}, c.total - 5, 2 * q)
  }

  lemma HolesReached(c: Config, k: nat, q: nat, w: bv32)
    requires Eighths(c, k, q) && Fitting(c, w, k) && 8 <= c.total
    ensures ValidConfig(c) && Run(c, Holes(c, w, q)) == HolesState(c, k, q)
  {
    hide Run, Size, Fitting, Eighths, ValidConfig, Lists;
    EighthsSizes(c, k, q);
    FourReached(c, k, q, w);
    var ops := [] + [AllocOp(w)] + [AllocOp(w)] + [AllocOp(w)] + [AllocOp(w)];
    ListsAt(c.maxBin + 1, k, {}, {}, {c.start + 4 * q});
    FreeFurther(c, ops, Four(c, k, q), c.start, k, c.start);
    var s := Run(c, ops + [FreeOp(c.start)]);
    assert s.free[k] == {c.start};
    FreeFurther(c, ops + [FreeOp(c.start)], s, c.start + 2 * q, k, c.start);
    var t := Run(c, ops + [FreeOp(c.start)] + [FreeOp(c.start + 2 * q)]);
    assert t.free[k] == {c.start, c.start + 2 * q};
    ListsAre(t.free, k, {c.start, c.start + 2 * q}, {}, {c.start + 4 * q});
    assert t.live == HolesState(c, k, q).live;
  }

  /** Half of the memory is free, and a request for it gets the first bytes behind the memory. */
  lemma HolesOutside(c: Config, k: nat, q: nat, w: bv32, v: bv32)
    requires Eighths(c, k, q) && Fitting(c, w, k) && Fitting(c, v, k + 1) && 8 <= c.total
    ensures ValidConfig(c)
    ensures var s := Run(c, Holes(c, w, q) + [AllocOp(v)]);
            MemEnd(c) in s.live && s.live[MemEnd(c)] == k + 1
  {
    hide Run, Size, Fitting, Eighths, ValidConfig, Lists, Holes;
    EighthsSizes(c, k, q);
    HolesReached(c, k, q, w);
    ListsAt(c.maxBin + 1, k, {c.start, c.start + 2 * q}, {}, {c.start + 4 * q});
    ListsAt(c.maxBin + 1, k, {c.start, c.start + 2 * q}, {c.start + 6 * q}, {});
    AllocFurther(c, Holes(c, w, q), HolesState(c, k, q), v, k + 1, k + 2, c.start + 4 * q,
                 Lists(c.maxBin + 1, k, {c.start, c.start + 2 * q}, {c.start + 6 * q}, {}));
  }

  // ---- four descriptors: a dropped block ----

  /** The third eighth finds no descriptor, so the quarter it came from is dropped; the first two are freed
      and joined. */
  ghost function Drops(c: Config, w: bv32, q: nat): seq<Op>
    requires ValidConfig(c)
  {
    [] + [AllocOp(w)] + [AllocOp(w)] + [AllocOp(w)] + [FreeOp(c.start + q)] + [FreeOp(c.start)]
  }

  ghost function Dropped3(c: Config, q: nat): State {
    State(Lists(4, 0, {}, {}, {c.start + 4 * q}), map[c.start := 0, c.start + q := 0],
          {Block(c.start + 2 * q, 1)}, 0, 2 * q)
  }

  lemma Dropped3Reached(c: Config, q: nat, w: bv32)
    requires Eighths(c, 0, q) && Fitting(c, w, 0) && c.total == 4
    ensures Run(c, [] + [AllocOp(w)] + [AllocOp(w)] + [AllocOp(w)]) == Dropped3(c, q)
  {
    hide Run, Size, Fitting, Eighths, ValidConfig, Lists;
    EighthsSizes(c, 0, q);
    TwoReached(c, 0, q, w);
    ListsAt(4, 0, {}, {c.start + 2 * q}, {c.start + 4 * q});
    ListsAt(4, 0, {}, {}, {c.start + 4 * q});
    LoseFurther(c, [] + [AllocOp(w)] + [AllocOp(w)], Two(c, 0, q), w, 0, 1, c.start + 2 * q, Dropped3(c, q).free);
  }

  ghost function Rejoined3(c: Config, q: nat): State {
    State(Lists(4, 0, {}, {c.start}, {c.start + 4 * q}), map[], {Block(c.start + 2 * q, 1)}, 1, 4 * q)
  }

  lemma DropsReached(c: Config, q: nat, w: bv32)
    requires Eighths(c, 0, q) && Fitting(c, w, 0) && c.total == 4
    ensures ValidConfig(c) && Run(c, Drops(c, w, q)) == Rejoined3(c, q)
  {
    hide Run, Size, Fitting, Eighths, ValidConfig, Lists, Release;
    EighthsSizes(c, 0, q);
    Dropped3Reached(c, q, w);
    var ops := [] + [AllocOp(w)] + [AllocOp(w)] + [AllocOp(w)];
    ListsAt(4, 0, {}, {}, {c.start + 4 * q});
    FreeFurther(c, ops, Dropped3(c, q), c.start + q, 0, c.start + q);
    var s := Run(c, ops + [FreeOp(c.start + q)]);
    assert s.free[0] == {c.start + q};
    ListsAre(s.free, 0, {c.start + q}, {}, {c.start + 4 * q});
    assert s.live == map[c.start := 0];
    RunStep(c, ops + [FreeOp(c.start + q)], FreeOp(c.start));
    JoinFirst(c, s, q);
  }

  /** The free of the first eighth joins it with the second, and stops there. */
  lemma JoinFirst(c: Config, s: State, q: nat)
    requires Eighths(c, 0, q) && s.free == Lists(4, 0, {c.start + q}, {}, {c.start + 4 * q})
    requires s.live == map[c.start := 0] && s.lost == {Block(c.start + 2 * q, 1)} && s.spare == 0 && s.heap == 3 * q
    ensures Release(c, s, c.start) == Rejoined3(c, q)
  {
    hide Size, Eighths, ValidConfig, Lists, Merge;
    EighthsSizes(c, 0, q);
    ListsAt(4, 0, {c.start + q}, {}, {c.start + 4 * q});
    ListsAt(4, 0, {}, {c.start}, {c.start + 4 * q});
    var t := AddFree(s.(live := map[], heap := 4 * q), 0, c.start);
    assert s.live - {c.start} == map[];
    assert (s.heap + q) % WORD == 4 * q;
    assert Release(c, s, c.start) == Merge(c, t, 0, c.start);
    assert t.free[0] == {c.start, c.start + q};
    MergePair(c, t, 0, c.start);
    var m := MergeOnce(c, t, 0, c.start);
    assert m.free[0] == {} && m.free[1] == {c.start} && m.free[2] == {c.start + 4 * q} && m.free[3] == {};
    assert m.free == Rejoined3(c, q).free;
    MergeStops(c, m, 1, c.start, c.start);
  }

  lemma DropsOutside(c: Config, q: nat, w: bv32, v: bv32)
    requires Eighths(c, 0, q) && Fitting(c, w, 0) && Fitting(c, v, 2) && c.total == 4
    ensures ValidConfig(c)
    ensures var s := Run(c, Drops(c, w, q) + [AllocOp(v)]);
            MemEnd(c) in s.live && s.live[MemEnd(c)] == 2
  {
    hide Run, Size, Fitting, Eighths, ValidConfig, Lists, Drops;
    EighthsSizes(c, 0, q);
    DropsReached(c, q, w);
    ListsAt(4, 0, {}, {c.start}, {c.start + 4 * q});
    ListsAt(4, 0, {}, {c.start}, {});
    AllocFurther(c, Drops(c, w, q), Rejoined3(c, q), v, 2, 2, c.start + 4 * q, Lists(4, 0, {}, {c.start}, {}));
  }

  // ---- two descriptors ----

  ghost function Bins3(x: set<nat>, y: set<nat>, z: set<nat>): (free: seq<set<nat>>)
    ensures |free| == 3 && free[0] == x && free[1] == y && free[2] == z
  {
    [x, y, z]
  }

  /** The first small request drops the whole memory, the next one gets what lies behind it. */
  lemma TwoOutside(c: Config, w: bv32, v: bv32)
    requires HeapPool(c) && c.maxBin == 2 && Fitting(c, w, 0) && Fitting(c, v, 1)
    ensures var s := Run(c, [] + [AllocOp(w)] + [AllocOp(v)]);
            MemEnd(c) in s.live && s.live[MemEnd(c)] == 1
  {
    TwoSizes(c);
    TwoDropped(c, w);
    hide Run, Size, Fitting, HeapPool, ValidConfig, Bins3;
    AllocFurther(c, [] + [AllocOp(w)], Run(c, [] + [AllocOp(w)]), v, 1, 1, MemEnd(c), Bins3({}, {}, {}));
  }

  lemma TwoDropped(c: Config, w: bv32)
    requires HeapPool(c) && c.maxBin == 2 && Fitting(c, w, 0)
    ensures Run(c, [] + [AllocOp(w)]) == State(Bins3({}, {MemEnd(c)}, {}), map[], {Block(c.start, 1)}, 0, c.memSize)
  {
    TwoSizes(c);
    TwoStart(c);
    hide Run, Size, Fitting, HeapPool, ValidConfig, Bins3;
    LoseFurther(c, [], Run(c, []), w, 0, 2, c.start, Bins3({}, {MemEnd(c)}, {}));
  }

  lemma TwoStart(c: Config)
    requires c.maxBin == 2 && c.total == 2
    ensures Run(c, []) == State(Bins3({}, {}, {c.start}), map[], {}, 1, c.memSize)
  {
    assert Run(c, []) == Initial(c);
  }

  lemma TwoSizes(c: Config)
    requires HeapPool(c) && c.maxBin == 2
    ensures ValidConfig(c) && c.total == 2 && MemEnd(c) == c.start + Size(c, 1)
    ensures Size(c, 0) <= Size(c, 1) == c.memSize < WORD
  {
    SizeStep(c, 0);
    assert Pow2(1) == 2;
  }

  // ---- one descriptor ----

  /** Where minimum and maximum are the same, no request succeeds: the one descriptor stands for the
      first block, which would have to be halved. */
  lemma {:induction false} OneNeverServes(c: Config, ops: seq<Op>)
    requires ValidConfig(c) && c.maxBin == 1
    ensures Run(c, ops).live == map[]
    decreases |ops|
  {
    hide Inv, Alloc, Size;
    if ops != [] {
      var before, op := ops[..|ops| - 1], ops[|ops| - 1];
      OneNeverServes(c, before);
      RunSound(c, before);
      var s := Run(c, before);
      if op.AllocOp? {
        OneRefuses(c, s, op.size);
        AllocNone(c, s, op.size);
      }
    }
  }

  lemma OneRefuses(c: Config, s: State, size: bv32)
    requires Inv(c, s) && c.maxBin == 1
    ensures Alloc(c, s, size).1 == None
  {
    hide Alloc, NextPow, Val, BinOf, FirstBin, Bytes, Size, Tiles, Pieces, Served, Admitted;
    if Alloc(c, s, size).1.Some? {
      var bin, idx := AllocSome(c, s, size);
      var addr := Alloc(c, s, size).1.value;
      BytesEmpty(c);
      SizeStep(c, 0);
      PiecesHas(s);
      assert idx == 0 ==> Has(s, Piece(Free, addr, 0));
      OnlyPiece(c, s, addr, idx);
    }
  }

  lemma BytesEmpty(c: Config)
    ensures Bytes(c, {}) == 0
  {
  }

  lemma OnlyPiece(c: Config, s: State, addr: nat, idx: nat)
    requires Inv(c, s) && c.maxBin == 1 && idx <= s.spare && Bytes(c, {}) == 0
    requires Size(c, 1) == 2 * Size(c, 0) && 0 < Size(c, 0)
    ensures idx == 0 && Piece(Free, addr, 0) !in Pieces(s)
  {
    hide Bytes, Size, Tiles, Pieces;
    assert Pow2(0) == 1;
    var ps := Pieces(s);
    if ps == {} {
      assert false;
    }
    var p := Piece(Free, addr, 0);
    if p in ps {
      Alone(ps, p);
      BytesOne(c, p);
    }
  }

  lemma BytesOne(c: Config, p: Piece)
    ensures Bytes(c, {p}) == Size(c, p.bin)
  {
    BytesWith(c, {}, p);
    assert {} + {p} == {p};
  }

  lemma Alone<T>(ps: set<T>, p: T)
    requires p in ps && |ps| <= 1
    ensures ps == {p}
  {
    assert |ps| == 1 + |ps - {p}|;
  }

  lemma AllocNone(c: Config, s: State, size: bv32)
    requires 1 <= c.maxBin && Alloc(c, s, size).1.None?
    ensures Alloc(c, s, size).0.live == s.live && Alloc(c, s, size).0.heap == s.heap
  {
    hide NextPow, Val, BinOf, Size;
    var idx := FirstBin(s.free, BinOf(c, Val(NextPow(size))));
    if idx < |s.free| {
      SplitLive(c, DropFree(s, idx, Lowest(s.free[idx])), Lowest(s.free[idx]), idx, BinOf(c, Val(NextPow(size))));
    }
  }

  lemma {:induction false} SplitLive(c: Config, s: State, addr: nat, idx: nat, bin: nat)
    requires bin <= idx <= |s.free|
    ensures Split(c, s, addr, idx, bin).0.live == s.live && Split(c, s, addr, idx, bin).0.heap == s.heap
    decreases idx
  {
    hide Size;
    if idx != bin && 0 < s.spare {
      SplitLive(c, AddFree(s, idx - 1, addr + Size(c, idx - 1)).(spare := s.spare - 1), addr, idx - 1, bin);
    }
  }

  // ---- the condition ----

  /** Some run of a pool made by sw_heap.c hands out the bytes behind its memory, unless min_alloc_size is
      max_alloc_size. */
  lemma SomeRunOutside(c: Config) returns (ops: seq<Op>)
    requires HeapPool(c) && 2 <= c.maxBin
    ensures MemEnd(c) in Run(c, ops).live && !Contained(c, Run(c, ops))
  {
    hide Run, Size, Holes, Drops, Fitting;
    if c.maxBin == 2 {
      var w := FittingWord(c, 0);
      var v := FittingWord(c, 1);
      TwoOutside(c, w, v);
      ops := [] + [AllocOp(w)] + [AllocOp(v)];
    } else {
      var k, q := EighthsExist(c);
      var w := FittingWord(c, k);
      if k == 0 {
        var v := FittingWord(c, 2);
        DropsOutside(c, q, w, v);
        ops := Drops(c, w, q) + [AllocOp(v)];
      } else {
        var v := FittingWord(c, k + 1);
        HolesOutside(c, k, q, w, v);
        ops := Holes(c, w, q) + [AllocOp(v)];
      }
    }
    var a: nat := MemEnd(c);
    SizePositive(c, Run(c, ops).live[a]);
    assert !(a + Size(c, Run(c, ops).live[a]) <= MemEnd(c));
  }

  /** Every run keeps inside the memory of the pool. */
  ghost predicate AlwaysContained(c: Config) {
    1 <= c.maxBin && forall ops :: Contained(c, Run(c, ops))
  }

  /** A pool made by sw_heap.c keeps every run inside its memory exactly if min_alloc_size is
      max_alloc_size, in which case it serves no request at all. */
  lemma ContainedIff(c: Config)
    requires HeapPool(c)
    ensures AlwaysContained(c) <==> c.maxBin == 1
  {
    hide Run, Size;
    if c.maxBin == 1 {
      forall ops: seq<Op>
        ensures Contained(c, Run(c, ops))
      {
        OneNeverServes(c, ops);
      }
    } else {
      var ops := SomeRunOutside(c);
    }
  }
}
