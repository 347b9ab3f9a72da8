/** What sw_buddy.c promises, on values: the free blocks of each bin as a set of addresses, the
    live blocks as a map from address to bin, and the blocks that a failing allocation drops.
    BuddyPool proves that the pointer code moves between exactly these states. */
module BuddySpec {
  import opened Options
  import opened SwMath

  /** Fixed by sw_buddy_init. */
  datatype Config = Config(start: nat, minSize: nat, maxBin: nat, memSize: nat, total: nat)

  /** min_alloc_size << bin */
  function Size(c: Config, bin: nat): nat { c.minSize * Pow2(bin) }

  /** The bytes the first free block stands for. */
  function Extent(c: Config): nat { Size(c, c.maxBin) }

  const MAX_BINS: nat := 20

  /** The addresses of the extent are words, whether or not the managed memory reaches that far. */
  ghost predicate ValidConfig(c: Config) {
    && 1 < c.minSize && IsPower(c.minSize)
    && 1 <= c.maxBin < MAX_BINS
    && 0 < c.start && c.start + Extent(c) < WORD
    && c.memSize < WORD
    && c.total == Pow2(c.maxBin - 1)
  }

  datatype Block = Block(addr: nat, bin: nat)

  /** spare counts the unused descriptors, heap is curr_heap_size. */
  datatype State = State(
    free: seq<set<nat>>, live: map<nat, nat>, lost: set<Block>, spare: nat, heap: nat)

  // ---- the blocks of a state ----

  /** Held is a block that an operation has taken out of every list. */
  datatype Kind = Free | Live | Lost | Held

  datatype Piece = Piece(kind: Kind, addr: nat, bin: nat)

  ghost predicate Has(s: State, p: Piece) {
    match p.kind
    case Free => p.bin < |s.free| && p.addr in s.free[p.bin]
    case Live => p.addr in s.live && s.live[p.addr] == p.bin
    case Lost => Block(p.addr, p.bin) in s.lost
    case Held => false
  }

  ghost function FreePieces(free: seq<set<nat>>): set<Piece> {
    set k: nat, a: nat | k < |free| && a in free[k] :: Piece(Free, a, k)
  }

  ghost function LivePieces(live: map<nat, nat>): set<Piece> {
    set a: nat | a in live :: Piece(Live, a, live[a])
  }

  ghost function LostPieces(lost: set<Block>): set<Piece> {
    set b | b in lost :: Piece(Lost, b.addr, b.bin)
  }

  ghost function Pieces(s: State): set<Piece> {
    FreePieces(s.free) + LivePieces(s.live) + LostPieces(s.lost)
  }

  lemma PiecesHas(s: State)
    ensures forall p :: p in Pieces(s) <==> Has(s, p)
  {
    forall p
      ensures p in Pieces(s) <==> Has(s, p)
    {
      if Has(s, p) && p.kind == Lost {
        assert Block(p.addr, p.bin) in s.lost;
      }
    }
  }

  /** x lies in the block p. */
  ghost predicate Within(c: Config, p: Piece, x: nat) {
    p.addr <= x < p.addr + Size(c, p.bin)
  }

  ghost predicate Apart(c: Config, p: Piece, q: Piece) {
    p.addr + Size(c, p.bin) <= q.addr || q.addr + Size(c, q.bin) <= p.addr
  }

  ghost predicate Inside(c: Config, p: Piece) {
    p.bin <= c.maxBin && c.start <= p.addr && p.addr + Size(c, p.bin) <= c.start + Extent(c)
  }

  ghost predicate Covered(c: Config, ps: set<Piece>, x: nat) {
    exists p :: p in ps && Within(c, p, x)
  }

  /** The blocks ps lie in the extent, never overlap, and leave no gap. */
  ghost predicate Tiles(c: Config, ps: set<Piece>) {
    && (forall p :: p in ps ==> Inside(c, p))
    && (forall p, q :: p in ps && q in ps && p != q ==> Apart(c, p, q))
    && (forall x: nat :: c.start <= x < c.start + Extent(c) ==> Covered(c, ps, x))
  }

  // ---- the operations ----

  /** The first element of a free list. */
  ghost function Lowest(s: set<nat>): (m: nat)
    requires s != {}
    ensures IsLowest(s, m)
  {
    LowestExists(s);
    var m :| IsLowest(s, m);
    m
  }

  ghost predicate IsLowest(s: set<nat>, m: nat) {
    m in s && forall x :: x in s ==> m <= x
  }

  lemma {:induction false} LowestExists(s: set<nat>)
    requires s != {}
    ensures exists m :: IsLowest(s, m)
  {
    var y :| y in s;
    var t := s - {y};
    assert s == t + {y};
    if t == {} {
      assert IsLowest(s, y);
    } else {
      LowestExists(t);
      var m :| IsLowest(t, m);
      assert IsLowest(s, if m < y then m else y);
    }
  }

  /** The first non-empty bin from bin on, or |free|. */
  ghost function FirstBin(free: seq<set<nat>>, bin: nat): (idx: nat)
    ensures bin <= idx
    ensures forall k :: bin <= k < idx && k < |free| ==> free[k] == {}
    ensures bin <= |free| ==> idx <= |free|
    ensures idx < |free| ==> free[idx] != {}
    decreases |free| - bin
  {
    if bin < |free| && free[bin] == {} then FirstBin(free, bin + 1) else bin
  }

  ghost function AddFree(s: State, bin: nat, addr: nat): State
    requires bin < |s.free|
  {
    s.(free := s.free[bin := s.free[bin] + {addr}])
  }

  ghost function DropFree(s: State, bin: nat, addr: nat): State
    requires bin < |s.free|
  {
    s.(free := s.free[bin := s.free[bin] - {addr}])
  }

  /** get_free_buddy from its first removal on: the block of bin idx at addr is halved until its
      bin is bin; a halving needs a spare descriptor. */
  ghost function Split(c: Config, s: State, addr: nat, idx: nat, bin: nat): (r: (State, Option<nat>))
    requires bin <= idx <= |s.free|
    ensures |r.0.free| == |s.free|
    decreases idx
  {
    if idx == bin then (s, Some(addr))
    else if s.spare == 0 then (s.(lost := s.lost + {Block(addr, idx)}), None)
    else
      var s' := AddFree(s, idx - 1, addr + Size(c, idx - 1)).(spare := s.spare - 1);
      Split(c, s', addr, idx - 1, bin)
  }

  /** get_free_buddy */
  ghost function GetFreeBuddy(c: Config, s: State, bin: nat): (r: (State, Option<nat>))
    ensures |r.0.free| == |s.free|
  {
    var idx := FirstBin(s.free, bin);
    if idx >= |s.free| then (s, None)
    else
      var addr := Lowest(s.free[idx]);
      Split(c, DropFree(s, idx, addr), addr, idx, bin)
  }

  /** The bin sw_buddy_alloc computes for a rounded size. */
  ghost function BinOf(c: Config, rounded: nat): nat {
    LogOf2(ShiftRight(rounded, LogOf2(c.minSize)))
  }

  /** curr_heap_size -= size */
  function HeapLess(heap: nat, size: nat): nat { (heap + WORD - size % WORD) % WORD }

  /** sw_buddy_alloc; rounded sizes above max_alloc_size find no contiguous blocks. */
  ghost function Alloc(c: Config, s: State, size: bv32): (r: (State, Option<nat>))
    requires 1 <= c.maxBin
    ensures |r.0.free| == |s.free|
  {
    var rounded := Val(NextPow(size));
    if s.heap < Val(size) || s.heap < rounded || Size(c, c.maxBin - 1) < rounded then (s, None)
    else
      var bin := BinOf(c, rounded);
      var (s', r) := GetFreeBuddy(c, s, bin);
      if r.None? then (s', None)
      else (s'.(live := s'.live[r.value := bin], heap := HeapLess(s'.heap, Size(c, bin))), r)
  }

  /** The merge loop of return_to_free_area.  In each bin from idx up the lowest block is joined
      with its right neighbour if that is free too; tracked is the address in the descriptor of
      the block that was freed, 0 once that descriptor is released. */
  ghost function Merge(c: Config, s: State, idx: nat, tracked: nat): (r: State)
    requires |s.free| == c.maxBin + 1 && idx <= c.maxBin
    ensures |r.free| == |s.free|
    decreases c.maxBin - idx
  {
    if s.free[idx] == {} then s
    else
      var addr := Lowest(s.free[idx]);
      var buddy := addr + Size(c, idx);
      if buddy in s.free[idx] && idx < c.maxBin then
        var s' := AddFree(DropFree(DropFree(s, idx, addr), idx, buddy), idx + 1, addr).(spare := s.spare + 1);
        if idx + 1 == c.maxBin then s'
        else Merge(c, s', idx + 1, if tracked == buddy then 0 else tracked)
      else if tracked == addr || idx == c.maxBin then s
      else Merge(c, s, idx + 1, tracked)
  }

  /** return_to_free_area */
  ghost function ReturnToFreeArea(c: Config, s: State, addr: nat, bin: nat): (r: State)
    requires |s.free| == c.maxBin + 1 && bin <= c.maxBin
    ensures |r.free| == |s.free|
  {
    var s' := AddFree(s, bin, addr);
    if bin == c.maxBin then s' else Merge(c, s', bin, addr)
  }

  /** sw_buddy_free */
  ghost function Release(c: Config, s: State, ptr: nat): (r: State)
    requires |s.free| == c.maxBin + 1
    ensures |r.free| == |s.free|
  {
    if ptr !in s.live || c.maxBin < s.live[ptr] then s
    else
      var bin := s.live[ptr];
      var s' := s.(live := s.live - {ptr}, heap := (s.heap + Size(c, bin)) % WORD);
      ReturnToFreeArea(c, s', ptr, bin)
  }

  // ---- how the blocks change with the fields ----

  lemma AddFreePieces(s: State, bin: nat, addr: nat)
    requires bin < |s.free|
    ensures Pieces(AddFree(s, bin, addr)) == Pieces(s) + {Piece(Free, addr, bin)}
  {
    var s' := AddFree(s, bin, addr);
    PiecesHas(s);
    PiecesHas(s');
    forall p
      ensures p in Pieces(s') <==> p in Pieces(s) + {Piece(Free, addr, bin)}
    {
      assert p in Pieces(s') <==> Has(s', p);
    }
  }

  lemma DropFreePieces(s: State, bin: nat, addr: nat)
    requires bin < |s.free|
    ensures Pieces(DropFree(s, bin, addr)) == Pieces(s) - {Piece(Free, addr, bin)}
  {
    var s' := DropFree(s, bin, addr);
    PiecesHas(s);
    PiecesHas(s');
    forall p
      ensures p in Pieces(s') <==> p in Pieces(s) - {Piece(Free, addr, bin)}
    {
      assert p in Pieces(s') <==> Has(s', p);
    }
  }

  lemma LiveHas(live: map<nat, nat>)
    ensures forall p :: p in LivePieces(live) <==> p.kind == Live && p.addr in live && live[p.addr] == p.bin
  {
  }

  lemma LiveIncluded(s: State)
    ensures LivePieces(s.live) <= Pieces(s)
  {
  }

  lemma AddLivePieces(s: State, addr: nat, bin: nat)
    requires addr !in s.live
    ensures LivePieces(s.live[addr := bin]) == LivePieces(s.live) + {Piece(Live, addr, bin)}
    ensures Pieces(s.(live := s.live[addr := bin])) == Pieces(s) + {Piece(Live, addr, bin)}
  {
    LiveHas(s.live);
    LiveHas(s.live[addr := bin]);
    forall p
      ensures p in LivePieces(s.live[addr := bin]) <==> p in LivePieces(s.live) + {Piece(Live, addr, bin)}
    {
    }
  }

  lemma DropLivePieces(s: State, addr: nat)
    requires addr in s.live
    ensures LivePieces(s.live - {addr}) == LivePieces(s.live) - {Piece(Live, addr, s.live[addr])}
    ensures Pieces(s.(live := s.live - {addr})) == Pieces(s) - {Piece(Live, addr, s.live[addr])}
  {
    LiveHas(s.live);
    LiveHas(s.live - {addr});
    forall p
      ensures p in LivePieces(s.live - {addr}) <==> p in LivePieces(s.live) - {Piece(Live, addr, s.live[addr])}
    {
    }
    PiecesHas(s);
    forall p | p in FreePieces(s.free) + LostPieces(s.lost)
      ensures p.kind != Live
    {
    }
  }

  lemma AddLostPieces(s: State, b: Block)
    ensures Pieces(s.(lost := s.lost + {b})) == Pieces(s) + {Piece(Lost, b.addr, b.bin)}
  {
    var s' := s.(lost := s.lost + {b});
    PiecesHas(s);
    PiecesHas(s');
    forall p
      ensures p in Pieces(s') <==> p in Pieces(s) + {Piece(Lost, b.addr, b.bin)}
    {
      assert p in Pieces(s') <==> Has(s', p);
    }
  }

  // ---- tilings ----

  lemma SizeStep(c: Config, k: nat)
    ensures Size(c, k + 1) == Size(c, k) + Size(c, k)
    ensures 0 < c.minSize ==> 0 < Size(c, k)
  {
  }

  /** Halving one block of a tiling. */
  lemma SplitTiles(c: Config, ps: set<Piece>, p: Piece, lo: Piece, hi: Piece)
    requires Tiles(c, ps) && p in ps && 0 < c.minSize && 0 < p.bin
    requires lo.bin == hi.bin == p.bin - 1 && lo.addr == p.addr && hi.addr == p.addr + Size(c, p.bin - 1)
    ensures Tiles(c, ps - {p} + {lo, hi}) && lo !in ps && hi !in ps && lo != hi
  {
    SizeStep(c, p.bin - 1);
    var qs := ps - {p} + {lo, hi};
    forall q | q in ps && q != p
      ensures Apart(c, p, q)
    {
    }
    assert !Apart(c, p, lo) && !Apart(c, p, hi);
    forall x: nat | c.start <= x < c.start + Extent(c)
      ensures Covered(c, qs, x)
    {
      assert Covered(c, ps, x);
      var q :| q in ps && Within(c, q, x);
      var r := if q != p then q else if Within(c, lo, x) then lo else hi;
      assert r in qs && Within(c, r, x);
    }
  }

  /** Joining two neighbours of a tiling. */
  lemma MergeTiles(c: Config, ps: set<Piece>, lo: Piece, hi: Piece, p: Piece)
    requires Tiles(c, ps) && lo in ps && hi in ps && 0 < c.minSize
    requires lo.bin == hi.bin == p.bin - 1 && lo.addr == p.addr && hi.addr == p.addr + Size(c, p.bin - 1)
    ensures Tiles(c, ps - {lo, hi} + {p}) && p !in ps && p.bin <= c.maxBin
  {
    SizeStep(c, p.bin - 1);
    assert lo != hi && Apart(c, lo, hi);
    TwoTopsTooMany(c, lo, hi);
    assert !Apart(c, p, lo);
    var qs := ps - {lo, hi} + {p};
    forall q | q in ps && q != lo && q != hi
      ensures Apart(c, p, q) && Apart(c, q, p)
    {
      assert Apart(c, lo, q) && Apart(c, hi, q) && Inside(c, q);
      SizeStep(c, q.bin);
    }
    forall x: nat | c.start <= x < c.start + Extent(c)
      ensures Covered(c, qs, x)
    {
      assert Covered(c, ps, x);
      var q :| q in ps && Within(c, q, x);
      var r := if q == lo || q == hi then p else q;
      assert r in qs && Within(c, r, x);
    }
  }

  /** There is no room for two blocks of the top bin. */
  lemma TwoTopsTooMany(c: Config, p: Piece, q: Piece)
    requires Inside(c, p) && Inside(c, q) && Apart(c, p, q) && p.bin == q.bin && 0 < c.minSize
    ensures p.bin < c.maxBin
  {
    SizeStep(c, p.bin);
  }

  /** A block that only changes its kind. */
  lemma RetagTiles(c: Config, ps: set<Piece>, p: Piece, q: Piece)
    requires Tiles(c, ps) && p in ps && 0 < c.minSize
    requires q.addr == p.addr && q.bin == p.bin && q.kind != p.kind
    ensures Tiles(c, ps - {p} + {q}) && q !in ps
  {
    SizeStep(c, p.bin);
    assert !Apart(c, p, q);
    var qs := ps - {p} + {q};
    forall x: nat | c.start <= x < c.start + Extent(c)
      ensures Covered(c, qs, x)
    {
      assert Covered(c, ps, x);
      var r :| r in ps && Within(c, r, x);
      var t := if r == p then q else r;
      assert t in qs && Within(c, t, x);
    }
  }

  // ---- adding up ----

  ghost function Bytes(c: Config, ps: set<Piece>): nat {
    if ps == {} then 0
    else
      var p :| p in ps;
      Size(c, p.bin) + Bytes(c, ps - {p})
  }

  lemma {:induction false} BytesWithout(c: Config, ps: set<Piece>, p: Piece)
    requires p in ps
    ensures Bytes(c, ps) == Size(c, p.bin) + Bytes(c, ps - {p})
  {
    var q :| q in ps && Bytes(c, ps) == Size(c, q.bin) + Bytes(c, ps - {q});
    if p != q {
      BytesWithout(c, ps - {q}, p);
      BytesWithout(c, ps - {p}, q);
      assert ps - {q} - {p} == ps - {p} - {q};
    }
  }

  lemma BytesWith(c: Config, ps: set<Piece>, p: Piece)
    requires p !in ps
    ensures Bytes(c, ps + {p}) == Bytes(c, ps) + Size(c, p.bin)
  {
    BytesWithout(c, ps + {p}, p);
    assert ps + {p} - {p} == ps;
  }

  lemma {:induction false} BytesSubset(c: Config, ps: set<Piece>, qs: set<Piece>)
    requires ps <= qs
    ensures Bytes(c, ps) <= Bytes(c, qs)
  {
    if ps != {} {
      var p :| p in ps;
      BytesSubset(c, ps - {p}, qs - {p});
      BytesWithout(c, ps, p);
      BytesWithout(c, qs, p);
    }
  }

  // ---- the invariant ----

  /** curr_heap_size, a word, is mem_size less the live bytes, modulo 2^32. */
  ghost predicate Accounted(heap: nat, live: nat, memSize: nat) {
    heap < WORD && (heap + live == memSize || heap + live == memSize + WORD)
  }

  lemma HeapTaken(heap: nat, live: nat, memSize: nat, size: nat)
    requires Accounted(heap, live, memSize) && live + size < WORD && memSize < WORD
    ensures Accounted(HeapLess(heap, size), live + size, memSize)
    ensures HeapLess(heap, size) == if size <= heap then heap - size else heap + WORD - size
  {
  }

  lemma HeapGiven(heap: nat, live: nat, memSize: nat, size: nat)
    requires Accounted(heap, live + size, memSize) && live + size < WORD && memSize < WORD
    ensures Accounted((heap + size) % WORD, live, memSize)
  {
  }

  /** The blocks ps tile the extent; descriptors and bytes are accounted for. */
  ghost predicate Sound(c: Config, s: State, ps: set<Piece>) {
    && ValidConfig(c)
    && |s.free| == c.maxBin + 1
    && Tiles(c, ps)
    && s.spare + |ps| == c.total
    && Bytes(c, ps) == Extent(c)
    && Accounted(s.heap, Bytes(c, LivePieces(s.live)), c.memSize)
  }

  /** What every sequence of operations keeps. */
  ghost predicate Inv(c: Config, s: State) {
    Sound(c, s, Pieces(s))
  }

  ghost function WithHeld(s: State, addr: nat, bin: nat): set<Piece> {
    Pieces(s) + {Piece(Held, addr, bin)}
  }

  /** The invariant while an operation holds one block. */
  ghost predicate InvHeld(c: Config, s: State, addr: nat, bin: nat) {
    Sound(c, s, WithHeld(s, addr, bin))
  }

  lemma SwapBytes(c: Config, ps: set<Piece>, p: Piece, q: Piece)
    requires p in ps && q !in ps && p.bin == q.bin
    ensures Bytes(c, ps - {p} + {q}) == Bytes(c, ps) && |ps - {p} + {q}| == |ps|
  {
    BytesWithout(c, ps, p);
    BytesWith(c, ps - {p}, q);
  }

  lemma OneBlockAt(c: Config, ps: set<Piece>, p: Piece, q: Piece)
    requires Tiles(c, ps) && p in ps && q in ps && p.addr == q.addr && 0 < c.minSize
    ensures p == q
  {
    SizeStep(c, p.bin);
    SizeStep(c, q.bin);
  }

  lemma BinInRange(c: Config, ps: set<Piece>, p: Piece)
    requires Tiles(c, ps) && p in ps
    ensures p.bin <= c.maxBin
  {
  }

  /** Byte and block counts when p makes room for q and r. */
  lemma HalvesBytes(c: Config, ps: set<Piece>, p: Piece, q: Piece, r: Piece)
    requires p in ps && q !in ps && r !in ps && q != r && q.bin == r.bin == p.bin - 1
    ensures Bytes(c, ps - {p} + {q, r}) == Bytes(c, ps) && |ps - {p} + {q, r}| == |ps| + 1
  {
    hide Bytes, Size;
    BytesWithout(c, ps, p);
    BytesWith(c, ps - {p}, q);
    BytesWith(c, ps - {p} + {q}, r);
    SizeStep(c, q.bin);
    assert ps - {p} + {q, r} == ps - {p} + {q} + {r};
  }

  lemma JoinBytes(c: Config, ps: set<Piece>, p: Piece, q: Piece, r: Piece)
    requires q in ps && r in ps && p !in ps && q != r && q.bin == r.bin == p.bin - 1
    ensures Bytes(c, ps - {q, r} + {p}) == Bytes(c, ps) && |ps - {q, r} + {p}| == |ps| - 1
  {
    hide Bytes, Size;
    BytesWithout(c, ps, q);
    BytesWithout(c, ps - {q}, r);
    BytesWith(c, ps - {q} - {r}, p);
    SizeStep(c, q.bin);
    assert ps - {q, r} == ps - {q} - {r};
  }

  /** A block leaves a free list. */
  lemma TakeFree(c: Config, s: State, bin: nat, addr: nat)
    requires Inv(c, s) && bin <= c.maxBin && addr in s.free[bin]
    ensures InvHeld(c, DropFree(s, bin, addr), addr, bin)
  {
    var p, q := Piece(Free, addr, bin), Piece(Held, addr, bin);
    PiecesHas(s);
    DropFreePieces(s, bin, addr);
    RetagTiles(c, Pieces(s), p, q);
    SwapBytes(c, Pieces(s), p, q);
  }

  /** The held block enters a free list. */
  lemma GiveFree(c: Config, s: State, addr: nat, bin: nat)
    requires InvHeld(c, s, addr, bin)
    ensures bin <= c.maxBin && addr !in s.free[bin] && Inv(c, AddFree(s, bin, addr))
  {
    var p, q := Piece(Held, addr, bin), Piece(Free, addr, bin);
    var ps := WithHeld(s, addr, bin);
    PiecesHas(s);
    assert Inside(c, p);
    AddFreePieces(s, bin, addr);
    RetagTiles(c, ps, p, q);
    SwapBytes(c, ps, p, q);
    assert ps - {p} + {q} == Pieces(AddFree(s, bin, addr));
  }

  /** The held block becomes live. */
  lemma GiveLive(c: Config, s: State, addr: nat, bin: nat)
    requires InvHeld(c, s, addr, bin)
    ensures addr !in s.live && Size(c, bin) < WORD
    ensures Inv(c, s.(live := s.live[addr := bin], heap := HeapLess(s.heap, Size(c, bin))))
  {
    var p, q := Piece(Held, addr, bin), Piece(Live, addr, bin);
    var ps := WithHeld(s, addr, bin);
    PiecesHas(s);
    SizeStep(c, bin);
    if addr in s.live {
      var r := Piece(Live, addr, s.live[addr]);
      assert Has(s, r);
      OneBlockAt(c, ps, p, r);
    }
    AddLivePieces(s, addr, bin);
    RetagTiles(c, ps, p, q);
    SwapBytes(c, ps, p, q);
    LiveHas(s.live);
    BytesWith(c, LivePieces(s.live), q);
    BytesSubset(c, LivePieces(s.live) + {q}, ps - {p} + {q});
    HeapTaken(s.heap, Bytes(c, LivePieces(s.live)), c.memSize, Size(c, bin));
    assert ps - {p} + {q} == Pieces(s.(live := s.live[addr := bin], heap := HeapLess(s.heap, Size(c, bin))));
  }

  lemma LiveBytes(c: Config, s: State, addr: nat)
    requires Inv(c, s) && addr in s.live
    ensures var bin := s.live[addr];
            && bin <= c.maxBin
            && Bytes(c, LivePieces(s.live)) == Bytes(c, LivePieces(s.live - {addr})) + Size(c, bin) < WORD
  {
    hide Bytes, Size, Pieces;
    var p := Piece(Live, addr, s.live[addr]);
    PiecesHas(s);
    assert Has(s, p) && Inside(c, p);
    DropLivePieces(s, addr);
    LiveHas(s.live);
    BytesWithout(c, LivePieces(s.live), p);
    assert LivePieces(s.live) <= Pieces(s);
    BytesSubset(c, LivePieces(s.live), Pieces(s));
  }

  /** A live block is taken back. */
  lemma TakeLive(c: Config, s: State, addr: nat)
    requires Inv(c, s) && addr in s.live
    ensures var bin := s.live[addr];
            && bin <= c.maxBin && Size(c, bin) < WORD && s.heap < WORD
            && InvHeld(c, s.(live := s.live - {addr}, heap := (s.heap + Size(c, bin)) % WORD), addr, bin)
  {
    hide Bytes, Size, Pieces, LivePieces, ValidConfig, Tiles;
    var bin := s.live[addr];
    var p, q := Piece(Live, addr, bin), Piece(Held, addr, bin);
    PiecesHas(s);
    assert Has(s, p);
    DropLivePieces(s, addr);
    WordMemory(c);
    RetagTiles(c, Pieces(s), p, q);
    SwapBytes(c, Pieces(s), p, q);
    LiveBytes(c, s, addr);
    HeapGiven(s.heap, Bytes(c, LivePieces(s.live - {addr})), c.memSize, Size(c, bin));
    var heap := (s.heap + Size(c, bin)) % WORD;
    SamePieces(s.(live := s.live - {addr}), s.(live := s.live - {addr}, heap := heap));
  }

  lemma WordMemory(c: Config)
    requires ValidConfig(c)
    ensures c.memSize < WORD && 0 < c.minSize
  {
  }

  /** The held block is halved: the upper half is free, the lower half stays held. */
  lemma SplitStep(c: Config, s: State, addr: nat, idx: nat)
    requires InvHeld(c, s, addr, idx) && 0 < idx && 0 < s.spare
    ensures idx <= c.maxBin
    ensures var hi := addr + Size(c, idx - 1);
            hi !in s.free[idx - 1] && InvHeld(c, AddFree(s, idx - 1, hi).(spare := s.spare - 1), addr, idx - 1)
  {
    hide Tiles, Bytes, Size, Pieces;
    var p := Piece(Held, addr, idx);
    var hi, lo := Piece(Free, addr + Size(c, idx - 1), idx - 1), Piece(Held, addr, idx - 1);
    var ps := WithHeld(s, addr, idx);
    BinInRange(c, ps, p);
    PiecesHas(s);
    SplitTiles(c, ps, p, lo, hi);
    HalvesBytes(c, ps, p, lo, hi);
    SplitOncePieces(s, addr, idx, hi.addr);
  }

  lemma SplitOncePieces(s: State, addr: nat, idx: nat, hi: nat)
    requires 0 < idx <= |s.free| && 0 < s.spare
    ensures WithHeld(AddFree(s, idx - 1, hi).(spare := s.spare - 1), addr, idx - 1) ==
      WithHeld(s, addr, idx) - {Piece(Held, addr, idx)} + {Piece(Held, addr, idx - 1), Piece(Free, hi, idx - 1)}
  {
    hide Pieces;
    PiecesHas(s);
    var s1 := AddFree(s, idx - 1, hi);
    AddFreePieces(s, idx - 1, hi);
    SamePieces(s1, s1.(spare := s.spare - 1));
  }

  lemma SamePieces(s: State, s': State)
    requires s.free == s'.free && s.live == s'.live && s.lost == s'.lost
    ensures Pieces(s) == Pieces(s')
  {
  }

  /** The held block is dropped. */
  lemma LoseStep(c: Config, s: State, addr: nat, idx: nat)
    requires InvHeld(c, s, addr, idx)
    ensures Inv(c, s.(lost := s.lost + {Block(addr, idx)}))
  {
    var p, q := Piece(Held, addr, idx), Piece(Lost, addr, idx);
    var ps := WithHeld(s, addr, idx);
    PiecesHas(s);
    AddLostPieces(s, Block(addr, idx));
    RetagTiles(c, ps, p, q);
    SwapBytes(c, ps, p, q);
    assert ps - {p} + {q} == Pieces(s.(lost := s.lost + {Block(addr, idx)}));
  }

  ghost function MergeOnce(c: Config, s: State, idx: nat, addr: nat): State
    requires idx + 1 < |s.free|
  {
    AddFree(DropFree(DropFree(s, idx, addr), idx, addr + Size(c, idx)), idx + 1, addr).(spare := s.spare + 1)
  }

  /** Two free neighbours of one bin are joined: the next bin exists. */
  lemma MergeStep(c: Config, s: State, idx: nat, addr: nat)
    requires Inv(c, s) && idx <= c.maxBin && addr in s.free[idx] && addr + Size(c, idx) in s.free[idx]
    ensures idx < c.maxBin && addr !in s.free[idx + 1]
    ensures Inv(c, MergeOnce(c, s, idx, addr))
  {
    hide Tiles, Bytes, Size, Pieces;
    var lo, hi := Piece(Free, addr, idx), Piece(Free, addr + Size(c, idx), idx);
    var p := Piece(Free, addr, idx + 1);
    var ps := Pieces(s);
    PiecesHas(s);
    SizePositive(c, idx);
    MergeTiles(c, ps, lo, hi, p);
    JoinBytes(c, ps, p, lo, hi);
    MergeOncePieces(c, s, idx, addr);
  }

  lemma MergeOncePieces(c: Config, s: State, idx: nat, addr: nat)
    requires idx + 1 < |s.free|
    ensures Pieces(MergeOnce(c, s, idx, addr)) ==
      Pieces(s) - {Piece(Free, addr, idx), Piece(Free, addr + Size(c, idx), idx)} + {Piece(Free, addr, idx + 1)}
  {
    hide Size, Pieces;
    var hi := addr + Size(c, idx);
    var s1 := DropFree(s, idx, addr);
    var s2 := DropFree(s1, idx, hi);
    var s3 := AddFree(s2, idx + 1, addr);
    DropFreePieces(s, idx, addr);
    DropFreePieces(s1, idx, hi);
    AddFreePieces(s2, idx + 1, addr);
    SamePieces(s3, s3.(spare := s.spare + 1));
  }

  lemma SizePositive(c: Config, k: nat)
    requires 0 < c.minSize
    ensures 0 < Size(c, k)
  {
  }
}
