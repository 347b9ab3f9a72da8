/** What the page bitmaps of mem_mng.c stand for: a set of used pages and a free-page counter, and what
    holds over every run that frees what it holds. */
module PageSpec {
  import opened BitMap

  const PAGE: nat := 4096
  const W: nat := 0x1_0000_0000

  /** The rounding of a 32-bit size up to whole pages; it can wrap. */
  function RoundUp(size: nat): (r: nat)
    requires size < W
    ensures r < W && r % PAGE == 0
  {
    if size % PAGE == 0 then size else (size - size % PAGE + PAGE) % W
  }

  function PageCount(size: nat): (n: nat)
    requires size < W
    ensures n <= W / PAGE
  {
    RoundUp(size) / PAGE
  }

  /** The pages cover the size, and with the fewest possible, exactly if the rounding does not wrap. */
  lemma RoundUpCoversIff(size: nat)
    requires size < W
    ensures size <= PageCount(size) * PAGE < size + PAGE <==> size <= W - PAGE
  {
    if size % PAGE != 0 && size > W - PAGE {
      assert size - size % PAGE + PAGE == W;
    }
  }

  /** One of the two maps: its used pages, its free-page counter, an unsigned word. */
  datatype Map = Map(used: set<nat>, free: nat)

  ghost predicate FreeRun(used: set<nat>, start: nat, n: nat) {
    forall p :: start <= p < start + n ==> p !in used
  }

  /** The first start at or after from of n free pages, start + n being strictly less than bits; -1 if
      there is none. */
  ghost function FirstFit(used: set<nat>, bits: nat, n: nat, from: nat): (start: int)
    ensures start == -1 <==> forall s: nat :: from <= s && s + n < bits ==> !FreeRun(used, s, n)
    ensures start != -1 ==>
              from <= start && start + n < bits && FreeRun(used, start, n) &&
              forall s: nat :: from <= s < start ==> !FreeRun(used, s, n)
    decreases bits - from
  {
    if from + n >= bits then -1
    else if FreeRun(used, from, n) then from
    else FirstFit(used, bits, n, from + 1)
  }

  ghost function Take(m: Map, start: nat, n: nat): Map {
    Map(m.used + Range(start, n), (m.free - n) % W)
  }

  ghost function Give(m: Map, start: nat, n: nat): Map {
    Map(m.used - Range(start, n), (m.free + n) % W)
  }

  /** The search and the marking of sw_phy_page_alloc: -1 and no change, or the start. */
  ghost function PageAlloc(m: Map, bits: nat, n: nat): (r: (Map, int)) {
    if n > m.free then (m, -1)
    else
      var start := FirstFit(m.used, bits, n, 0);
      if start == -1 then (m, -1) else (Take(m, start, n), start)
  }

  /** Taking a run and giving it back restores the map exactly if the run was free. */
  lemma TakeGiveIff(m: Map, start: nat, n: nat)
    requires m.free < W
    ensures Give(Take(m, start, n), start, n) == m <==> FreeRun(m.used, start, n)
  {
    CounterBack(m.free, n);
    var r := Range(start, n);
    if FreeRun(m.used, start, n) {
      assert m.used + r - r == m.used;
    } else {
      var p :| start <= p < start + n && p in m.used;
      assert p !in m.used + r - r;
    }
  }

  lemma CounterBack(free: nat, n: nat)
    requires free < W
    ensures ((free - n) % W + n) % W == free
  {
  }

  // ---- conservation, over every run ----

  /** The counter is the total less the pages in use, as a word. */
  ghost predicate Counted(m: Map, total: nat) {
    m.free == (total - |m.used|) % W
  }

  /** As long as no more pages are in use than were counted, nothing wraps. */
  lemma CountedExact(m: Map, total: nat)
    requires Counted(m, total) && |m.used| <= total < W
    ensures m.free + |m.used| == total
  {
  }

  lemma TakeCounts(m: Map, total: nat, start: nat, n: nat)
    requires Counted(m, total) && FreeRun(m.used, start, n)
    ensures Counted(Take(m, start, n), total)
  {
    var r := Range(start, n);
    assert m.used !! r;
    assert |m.used + r| == |m.used| + n;
    ModSub(total - |m.used|, n);
  }

  lemma ModSub(x: int, n: nat)
    ensures (x % W - n) % W == (x - n) % W
    ensures (x % W + n) % W == (x + n) % W
  {
  }

  /** A free keeps the count exactly if all its pages were in use. */
  lemma GiveCountsIff(m: Map, total: nat, start: nat, n: nat)
    requires Counted(m, total) && n < W
    ensures Counted(Give(m, start, n), total) <==> Range(start, n) <= m.used
  {
    var r := Range(start, n);
    SetParts(m.used, r);
    GiveWord(m.free, total, |m.used - r|, |m.used * r|, n);
  }

  lemma SetParts(a: set<nat>, r: set<nat>)
    ensures |a| == |a - r| + |a * r| && |a * r| <= |r|
    ensures |a * r| == |r| <==> r <= a
  {
    assert a == (a - r) + a * r && (a - r) !! a * r;
    SubsetSize(a * r, r);
    assert a * r == r <==> r <= a;
  }

  lemma GiveWord(free: nat, total: nat, rest: nat, held: nat, n: nat)
    requires free == (total - (rest + held)) % W && held <= n < W
    ensures (free + n) % W == (total - rest) % W <==> held == n
  {
    ModSub(total - (rest + held), n);
    SameWord(total - rest, n - held);
  }

  lemma SameWord(x: int, d: int)
    requires 0 <= d < W
    ensures (x + d) % W == x % W <==> d == 0
  {
  }

  lemma SubsetSize(a: set<nat>, b: set<nat>)
    requires a <= b
    ensures |a| <= |b| && (|a| == |b| <==> a == b)
  {
    assert b == a + (b - a);
    assert |b| == |a| + |b - a|;
  }

  // ---- runs: allocations, reservations, and frees of what is held ----

  /** A map's bit count, the last page that a reserve or a free accepts as a start, and the last one
      that sw_vir_addr_free accepts, -1 if it accepts none. */
  datatype Region = Region(bits: nat, last: nat, lastMapped: int)

  datatype Op =
    | Alloc(n: nat)                    // sw_phy_page_alloc, or the virtual half of sw_vir_page_alloc
    | Reserve(start: nat, n: nat)      // sw_phy_addr_reserve, sw_vir_addr_reserve
    | Free(start: nat, n: nat)         // sw_phy_addr_free, sw_vir_free_reserve
    | FreeMapped(start: nat, n: nat)   // the virtual half of sw_vir_addr_free

  /** What an operation does to a map; an address beyond the region is refused. */
  ghost function StepMap(m: Map, r: Region, op: Op): Map {
    match op
    case Alloc(n) => PageAlloc(m, r.bits, n).0
    case Reserve(start, n) => if start <= r.last && FreeRun(m.used, start, n) then Take(m, start, n) else m
    case Free(start, n) => if start <= r.last then Give(m, start, n) else m
    case FreeMapped(start, n) => if start <= r.lastMapped then Give(m, start, n) else m
  }

  /** A map with the ranges handed out and not yet taken back. */
  datatype Held = Held(m: Map, live: set<(nat, nat)>)

  ghost function Granted(live: set<(nat, nat)>, start: nat, n: nat): set<(nat, nat)> {
    if n == 0 then live else live + {(start, n)}
  }

  /** A range that a free refuses stays held. */
  ghost function Step(h: Held, r: Region, op: Op): Held {
    Held(StepMap(h.m, r, op),
         match op
         case Alloc(n) =>
           var start := PageAlloc(h.m, r.bits, n).1;
           if start == -1 then h.live else Granted(h.live, start, n)
         case Reserve(start, n) =>
           if start <= r.last && FreeRun(h.m.used, start, n) then Granted(h.live, start, n) else h.live
         case Free(start, n) => if start <= r.last then h.live - {(start, n)} else h.live
         case FreeMapped(start, n) => if start <= r.lastMapped then h.live - {(start, n)} else h.live)
  }

  /** A reservation lies in the bitmap; a free is for a range that is held. */
  ghost predicate Allowed(h: Held, r: Region, op: Op) {
    match op
    case Alloc(_) => true
    case Reserve(start, n) => start + n <= r.bits
    case Free(start, n) => (start, n) in h.live
    case FreeMapped(start, n) => (start, n) in h.live
  }

  ghost predicate Overlap(r: (nat, nat), q: (nat, nat)) {
    r.0 < q.0 + q.1 && q.0 < r.0 + r.1
  }

  ghost predicate Owned(live: set<(nat, nat)>, p: nat) {
    exists r :: r in live && r.0 <= p < r.0 + r.1
  }

  /** The pages in use are those of the code (base) and of the live ranges. */
  ghost predicate Exact(used: set<nat>, base: set<nat>, live: set<(nat, nat)>) {
    forall p :: p in used <==> p in base || Owned(live, p)
  }

  ghost predicate Disjoint(live: set<(nat, nat)>) {
    forall r, q :: r in live && q in live && r != q ==> !Overlap(r, q)
  }

  ghost predicate Placed(live: set<(nat, nat)>, base: set<nat>, bits: nat) {
    forall r :: r in live ==> 0 < r.1 && r.0 + r.1 <= bits && FreeRun(base, r.0, r.1)
  }

  /** No two live ranges share a page, they lie in the bitmap and off the code, the bits that are set
      are exactly theirs and the code's, and the counter is right. */
  ghost predicate Inv(h: Held, base: set<nat>, bits: nat, total: nat) {
    Counted(h.m, total) && Exact(h.m.used, base, h.live) && Disjoint(h.live) && Placed(h.live, base, bits)
  }

  lemma GrantDisjoint(used: set<nat>, base: set<nat>, live: set<(nat, nat)>, start: nat, n: nat)
    requires Exact(used, base, live) && Disjoint(live) && FreeRun(used, start, n) && 0 < n
    requires forall q :: q in live ==> 0 < q.1
    ensures Disjoint(live + {(start, n)})
  {
    forall q | q in live
      ensures !Overlap((start, n), q) && !Overlap(q, (start, n))
    {
      var p := if start < q.0 then q.0 else start;
      assert q.0 <= p < q.0 + q.1 ==> Owned(live, p);
    }
  }

  lemma GrantExact(used: set<nat>, base: set<nat>, live: set<(nat, nat)>, start: nat, n: nat)
    requires Exact(used, base, live)
    ensures Exact(used + Range(start, n), base, live + {(start, n)})
  {
    var live' := live + {(start, n)};
    forall p: nat
      ensures Owned(live', p) <==> Owned(live, p) || start <= p < start + n
    {
      if Owned(live, p) {
        var q :| q in live && q.0 <= p < q.0 + q.1;
        assert q in live';
      }
      assert (start, n) in live';
    }
  }

  lemma GrantKeeps(h: Held, base: set<nat>, bits: nat, total: nat, start: nat, n: nat)
    requires Inv(h, base, bits, total) && FreeRun(h.m.used, start, n) && start + n <= bits
    ensures Inv(Held(Take(h.m, start, n), Granted(h.live, start, n)), base, bits, total)
  {
    TakeCounts(h.m, total, start, n);
    if n == 0 {
      assert Take(h.m, start, n).used == h.m.used;
    } else {
      GrantDisjoint(h.m.used, base, h.live, start, n);
      GrantExact(h.m.used, base, h.live, start, n);
      hide Counted, Exact, Disjoint;
      assert FreeRun(base, start, n) by {
        UsedBase(h.m.used, base, h.live);
      }
    }
  }

  lemma UsedBase(used: set<nat>, base: set<nat>, live: set<(nat, nat)>)
    requires Exact(used, base, live)
    ensures base <= used
  {
  }

  lemma FreeExact(used: set<nat>, base: set<nat>, live: set<(nat, nat)>, bits: nat, r: (nat, nat))
    requires Exact(used, base, live) && Disjoint(live) && Placed(live, base, bits) && r in live
    ensures Range(r.0, r.1) <= used
    ensures Exact(used - Range(r.0, r.1), base, live - {r})
  {
    forall p: nat | r.0 <= p < r.0 + r.1
      ensures p in used && p !in base && !Owned(live - {r}, p)
    {
      assert Owned(live, p);
      if Owned(live - {r}, p) {
        var q :| q in live - {r} && q.0 <= p < q.0 + q.1;
        assert Overlap(r, q);
      }
    }
    forall p: nat | !(r.0 <= p < r.0 + r.1)
      ensures Owned(live - {r}, p) <==> Owned(live, p)
    {
      if Owned(live, p) {
        var q :| q in live && q.0 <= p < q.0 + q.1;
        assert q in live - {r};
      }
    }
  }

  lemma FreeKeeps(h: Held, base: set<nat>, bits: nat, total: nat, start: nat, n: nat)
    requires Inv(h, base, bits, total) && (start, n) in h.live && bits < W
    ensures Inv(Held(Give(h.m, start, n), h.live - {(start, n)}), base, bits, total)
  {
    FreeExact(h.m.used, base, h.live, bits, (start, n));
    hide Counted, Exact;
    GiveCountsIff(h.m, total, start, n);
  }

  lemma StepKeeps(h: Held, base: set<nat>, r: Region, total: nat, op: Op)
    requires Inv(h, base, r.bits, total) && Allowed(h, r, op) && r.bits < W
    ensures Inv(Step(h, r, op), base, r.bits, total)
  {
    hide Inv, FreeRun, Take, Give, Counted;
    match op
    case Alloc(n) =>
      var start := PageAlloc(h.m, r.bits, n).1;
      if start != -1 {
        GrantKeeps(h, base, r.bits, total, start, n);
      }
    case Reserve(start, n) =>
      if FreeRun(h.m.used, start, n) {
        GrantKeeps(h, base, r.bits, total, start, n);
      }
    case Free(start, n) =>
      FreeKeeps(h, base, r.bits, total, start, n);
    case FreeMapped(start, n) =>
      FreeKeeps(h, base, r.bits, total, start, n);
  }

  ghost function Exec(h: Held, r: Region, ops: seq<Op>): Held
    decreases ops
  {
    if ops == [] then h else Exec(Step(h, r, ops[0]), r, ops[1..])
  }

  ghost predicate AllowedRun(h: Held, r: Region, ops: seq<Op>)
    decreases ops
  {
    ops == [] || (Allowed(h, r, ops[0]) && AllowedRun(Step(h, r, ops[0]), r, ops[1..]))
  }

  /** Over every run that frees only what it holds: no two live ranges share a page, they stay in the
      bitmap and off the code, the bits that are set are exactly theirs and the code's, and counter and
      bitmap agree. */
  lemma {:induction false} RunKeeps(h: Held, base: set<nat>, r: Region, total: nat, ops: seq<Op>)
    requires Inv(h, base, r.bits, total) && AllowedRun(h, r, ops) && r.bits < W
    ensures Inv(Exec(h, r, ops), base, r.bits, total)
    decreases ops
  {
    if ops != [] {
      StepKeeps(h, base, r, total, ops[0]);
      RunKeeps(Step(h, r, ops[0]), base, r, total, ops[1..]);
    }
  }

  /** Every reservation of the run is of no more pages than the counter has; an allocation checks that itself. */
  ghost predicate WithinCounter(h: Held, r: Region, ops: seq<Op>)
    decreases ops
  {
    ops == [] || ((ops[0].Reserve? ==> ops[0].n <= h.m.free) && WithinCounter(Step(h, r, ops[0]), r, ops[1..]))
  }

  /** Over such a run the counter stays exact, so that a count it lets through fits the bitmap: the loop bound
      of the next allocation does not wrap. */
  lemma {:induction false} RunFits(h: Held, base: set<nat>, r: Region, total: nat, ops: seq<Op>, n: nat)
    requires Inv(h, base, r.bits, total) && AllowedRun(h, r, ops) && WithinCounter(h, r, ops)
    requires |h.m.used| <= total <= r.bits < W
    ensures var h' := Exec(h, r, ops);
            h'.m.free + |h'.m.used| == total && (n <= h'.m.free ==> n <= r.bits)
    decreases ops
  {
    hide Step, Inv;
    if ops == [] {
      assert Counted(h.m, total) by { InvCounted(h, base, r.bits, total); }
      CountedExact(h.m, total);
    } else {
      StepKeeps(h, base, r, total, ops[0]);
      StepFits(h, base, r, total, ops[0]);
      RunFits(Step(h, r, ops[0]), base, r, total, ops[1..], n);
    }
  }

  lemma InvCounted(h: Held, base: set<nat>, bits: nat, total: nat)
    requires Inv(h, base, bits, total)
    ensures Counted(h.m, total)
  {
  }

  lemma StepFits(h: Held, base: set<nat>, r: Region, total: nat, op: Op)
    requires Inv(h, base, r.bits, total) && |h.m.used| <= total < W && (op.Reserve? ==> op.n <= h.m.free)
    ensures |Step(h, r, op).m.used| <= total
  {
    hide FreeRun, FirstFit;
    CountedExact(h.m, total);
    match op
    case Alloc(n) =>
      var start := PageAlloc(h.m, r.bits, n).1;
      if start != -1 {
        UnionSize(h.m.used, Range(start, n));
      }
    case Reserve(start, n) =>
      UnionSize(h.m.used, Range(start, n));
    case Free(start, n) =>
      SubsetSize(h.m.used - Range(start, n), h.m.used);
    case FreeMapped(start, n) =>
      SubsetSize(h.m.used - Range(start, n), h.m.used);
  }

  lemma UnionSize(a: set<nat>, b: set<nat>)
    ensures |a + b| <= |a| + |b|
  {
    assert a + b == a + (b - a);
    SubsetSize(b - a, b);
  }

  /** The state after sw_meminfo_init: the code is marked, nothing else is. */
  lemma BootHolds(m: Map, code: nat, bits: nat, total: nat)
    requires m.used == Range(0, code) && Counted(m, total)
    ensures Inv(Held(m, {}), Range(0, code), bits, total)
  {
  }

  /** A free of a held range takes it back, bits and counter, exactly if the range starts at or before
      the last page the region accepts; else every bit stays and the range stays held. */
  lemma FreeTakesBackIff(h: Held, base: set<nat>, r: Region, total: nat, start: nat, n: nat)
    requires Inv(h, base, r.bits, total) && (start, n) in h.live
    ensures var h' := Step(h, r, Free(start, n));
            && (h'.m == Give(h.m, start, n) != h.m <==> start <= r.last)
            && ((start, n) !in h'.live <==> start <= r.last)
            && (h' == h <==> r.last < start)
            && (FreeRun(h'.m.used, start, n) <==> start <= r.last)
  {
    FreeExact(h.m.used, base, h.live, r.bits, (start, n));
    assert start in Range(start, n) && start in h.m.used;
    assert start !in Give(h.m, start, n).used;
  }

  /** A map after an allocation and the free of what it found. */
  ghost function RoundTrip(m: Map, r: Region, n: nat): Map {
    var start := PageAlloc(m, r.bits, n).1;
    if start == -1 then m else StepMap(StepMap(m, r, Alloc(n)), r, Free(start, n))
  }

  /** The two cancel exactly if nothing was found or the run starts where a free accepts it. */
  lemma RoundTripIff(m: Map, r: Region, n: nat)
    requires 0 < n && m.free < W
    ensures var start := PageAlloc(m, r.bits, n).1;
            RoundTrip(m, r, n) == m <==> start == -1 || start <= r.last
  {
    var (p, start) := PageAlloc(m, r.bits, n);
    if start != -1 {
      TakeGiveIff(m, start, n);
      assert start in p.used && start !in m.used;
    }
  }
}
