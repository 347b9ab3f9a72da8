/** A run of mem_mng.c, from the state after boot, at whose end pages are lost: a RAM region of 263 pages,
    whose bitmap has 288 bits, with code in its first 257 pages. */
module PageLoss {
  import opened BitMap
  import opened PageSpec

  const RAM: Region := Region(288, 263, -1)

  /** The first k pages. */
  ghost function First(k: nat): set<nat> {
    set p: nat | p < k && Below(p, k)
  }

  predicate Below(p: nat, k: nat) { p < k }

  lemma FirstIs(k: nat)
    ensures First(k) == Range(0, k)
  {
  }

  lemma FirstNext(k: nat)
    ensures First(k + 1) == First(k) + {k} && k !in First(k) && forall p: nat :: p < k ==> p in First(k)
  {
  }

  /** What sw_meminfo_init leaves behind. */
  ghost function Boot(): Held { Held(Map(First(257), 6), {}) }

  /** h is where the allowed run ops leads from the state after boot. */
  ghost predicate Reached(ops: seq<Op>, h: Held) {
    AllowedRun(Boot(), RAM, ops) && Exec(Boot(), RAM, ops) == h
  }

  lemma {:induction false} RunFurther(h: Held, r: Region, ops: seq<Op>, op: Op)
    ensures Exec(h, r, ops + [op]) == Step(Exec(h, r, ops), r, op)
    ensures AllowedRun(h, r, ops) && Allowed(Exec(h, r, ops), r, op) ==> AllowedRun(h, r, ops + [op])
    decreases ops
  {
    hide Step, Allowed;
    if ops == [] {
      assert [] + [op] == [op] && [op][1..] == [];
    } else {
      RunFurther(Step(h, r, ops[0]), r, ops[1..], op);
      assert (ops + [op])[1..] == ops[1..] + [op];
    }
  }

  lemma ReachedFurther(ops: seq<Op>, h: Held, op: Op)
    requires Reached(ops, h) && Allowed(h, RAM, op)
    ensures Reached(ops + [op], Step(h, RAM, op))
  {
    hide Step, Allowed, AllowedRun, Exec;
    RunFurther(Boot(), RAM, ops, op);
  }

  /** What first fit finds. */
  lemma FitsAt(m: Map, bits: nat, n: nat, start: nat)
    requires n <= m.free && start + n < bits && FreeRun(m.used, start, n)
    requires forall s: nat :: s < start ==> !FreeRun(m.used, s, n)
    ensures PageAlloc(m, bits, n) == (Take(m, start, n), start)
  {
    assert FirstFit(m.used, bits, n, 0) == start;
  }

  lemma OnePage(p: nat)
    ensures Range(p, 1) == {p} && Range(p, 2) == {p, p + 1}
  {
    assert Range(p, 0) == {};
  }

  /** A single page is the first that is free. */
  lemma SingleFound(m: Map, start: nat)
    requires 1 <= m.free < W && start + 1 < RAM.bits && start !in m.used
    requires forall s: nat :: s < start ==> s in m.used
    ensures PageAlloc(m, RAM.bits, 1) == (Map(m.used + {start}, m.free - 1), start)
  {
    NoSingleBefore(m.used, start);
    hide FirstFit, PageAlloc, Take;
    FitsAt(m, RAM.bits, 1, start);
    TakeOne(m, start);
  }

  lemma NoSingleBefore(used: set<nat>, start: nat)
    requires forall s: nat :: s < start ==> s in used
    ensures forall s: nat :: s < start ==> !FreeRun(used, s, 1)
  {
    forall s: nat | s < start
      ensures !FreeRun(used, s, 1)
    {
      assert s <= s < s + 1 && s in used;
    }
  }

  lemma TakeOne(m: Map, start: nat)
    requires 1 <= m.free < W
    ensures Take(m, start, 1) == Map(m.used + {start}, m.free - 1)
  {
    hide Range;
    OnePage(start);
  }

  lemma AllocOne(h: Held, start: nat)
    requires 1 <= h.m.free < W && start + 1 < RAM.bits && start !in h.m.used
    requires forall s: nat :: s < start ==> s in h.m.used
    ensures Step(h, RAM, Alloc(1)) == Held(Map(h.m.used + {start}, h.m.free - 1), h.live + {(start, 1)})
  {
    hide FirstFit, PageAlloc, Take;
    SingleFound(h.m, start);
  }

  lemma FreeOne(h: Held, p: nat)
    requires p <= RAM.last && h.m.free + 1 < W
    ensures Step(h, RAM, Free(p, 1)) == Held(Map(h.m.used - {p}, h.m.free + 1), h.live - {(p, 1)})
  {
    hide Range;
    OnePage(p);
  }

  lemma NoPairBefore(used: set<nat>, start: nat)
    requires forall s: nat :: s < start ==> s in used || s + 1 in used
    ensures forall s: nat :: s < start ==> !FreeRun(used, s, 2)
  {
    forall s: nat | s < start
      ensures !FreeRun(used, s, 2)
    {
      var p := if s in used then s else s + 1;
      assert s <= p < s + 2 && p in used;
    }
  }

  lemma TakeTwo(m: Map, start: nat)
    requires 2 <= m.free < W
    ensures Take(m, start, 2) == Map(m.used + {start, start + 1}, m.free - 2)
  {
    hide Range;
    OnePage(start);
  }

  /** Two pages come from the first pair of free neighbours. */
  lemma PairFound(m: Map, bits: nat, start: nat)
    requires 2 <= m.free < W && start + 2 < bits
    requires start !in m.used && start + 1 !in m.used
    requires forall s: nat :: s < start ==> s in m.used || s + 1 in m.used
    ensures PageAlloc(m, bits, 2) == (Map(m.used + {start, start + 1}, m.free - 2), start)
  {
    NoPairBefore(m.used, start);
    hide FirstFit, PageAlloc, Take;
    FitsAt(m, bits, 2, start);
    TakeTwo(m, start);
  }

  lemma AllocTwo(h: Held, start: nat)
    requires 2 <= h.m.free < W && start + 2 < RAM.bits
    requires start !in h.m.used && start + 1 !in h.m.used
    requires forall s: nat :: s < start ==> s in h.m.used || s + 1 in h.m.used
    ensures Step(h, RAM, Alloc(2)) ==
            Held(Map(h.m.used + {start, start + 1}, h.m.free - 2), h.live + {(start, 2)})
  {
    hide FirstFit, PageAlloc, Take;
    PairFound(h.m, RAM.bits, start);
  }

  // ---- six single pages, then frees that leave no two neighbours, twice ----

  ghost function Ones(k: nat): seq<Op> {
    if k == 0 then [] else Ones(k - 1) + [Alloc(1)]
  }

  ghost function OnesLive(k: nat): set<(nat, nat)> {
    if k == 0 then {} else OnesLive(k - 1) + {(256 + k, 1)}
  }

  lemma BootReached()
    ensures Reached([], Boot())
  {
  }

  /** The state after k allocations of one page. */
  ghost function OnesState(k: nat): Held
    requires k <= 6
  {
    Held(Map(First(257 + k), 6 - k), OnesLive(k))
  }

  lemma {:induction false} OnesReached(k: nat)
    requires k <= 6
    ensures Reached(Ones(k), OnesState(k))
  {
    hide Step, Reached, First;
    if k == 0 {
      BootReached();
    } else {
      OnesReached(k - 1);
      FirstNext(256 + k);
      AllocOne(OnesState(k - 1), 256 + k);
      ReachedFurther(Ones(k - 1), OnesState(k - 1), Alloc(1));
    }
  }

  lemma FreeFurther(ops: seq<Op>, h: Held, p: nat)
    requires Reached(ops, h) && (p, 1) in h.live && p <= RAM.last && h.m.free + 1 < W
    ensures Reached(ops + [Free(p, 1)], Held(Map(h.m.used - {p}, h.m.free + 1), h.live - {(p, 1)}))
  {
    FreeOne(h, p);
    hide Reached, Step;
    ReachedFurther(ops, h, Free(p, 1));
  }

  lemma TwoFurther(ops: seq<Op>, h: Held, start: nat)
    requires Reached(ops, h) && 2 <= h.m.free < W && start + 2 < RAM.bits
    requires start !in h.m.used && start + 1 !in h.m.used
    requires forall s: nat :: s < start ==> s in h.m.used || s + 1 in h.m.used
    ensures Reached(ops + [Alloc(2)], Held(Map(h.m.used + {start, start + 1}, h.m.free - 2), h.live + {(start, 2)}))
  {
    AllocTwo(h, start);
    hide Reached, Step;
    ReachedFurther(ops, h, Alloc(2));
  }

  /** The six single pages are all of the RAM. */
  ghost function Full(): Held {
    Held(Map(First(263), 0), {(257, 1), (258, 1), (259, 1), (260, 1), (261, 1), (262, 1)})
  }

  lemma FullReached()
    ensures Reached(Ones(6), Full())
  {
    OnesReached(6);
    hide Reached, First;
    assert OnesLive(6) == Full().live;
  }

  ghost function Ends(): seq<Op> { Ones(6) + [Free(257, 1)] + [Free(262, 1)] }

  ghost function EndsState(): Held {
    Held(Map(First(263) - {257} - {262}, 2), {(258, 1), (259, 1), (260, 1), (261, 1)})
  }

  lemma EndsReached()
    ensures Reached(Ends(), EndsState())
  {
    FullReached();
    hide Reached, First, Ones;
    FreeFurther(Ones(6), Full(), 257);
    FreeFurther(Ones(6) + [Free(257, 1)], Held(Map(First(263) - {257}, 1), Full().live - {(257, 1)}), 262);
    assert Full().live - {(257, 1)} - {(262, 1)} == EndsState().live;
  }

  /** The middle of the run: pages 262 and 263 are one range, the second beyond the RAM. */
  ghost function HalfWay(): seq<Op> { Ends() + [Alloc(2)] }

  ghost function HalfWayState(): Held {
    Held(Map(First(264) - {257}, 0), {(258, 1), (259, 1), (260, 1), (261, 1), (262, 2)})
  }

  lemma HalfWayReached()
    ensures Reached(HalfWay(), HalfWayState())
  {
    EndsReached();
    hide Reached, Ends;
    TwoFurther(Ends(), EndsState(), 262);
    assert EndsState().m.used + {262, 263} == HalfWayState().m.used;
    hide First;
    assert EndsState().live + {(262, 2)} == HalfWayState().live;
  }

  /** Every second page of the RAM is free, the slack bit after it in use. */
  ghost function Scattered(): seq<Op> { HalfWay() + [Free(259, 1)] + [Free(261, 1)] }

  ghost function ScatteredState(): Held {
    Held(Map(First(264) - {257, 259, 261}, 2), {(258, 1), (260, 1), (262, 2)})
  }

  lemma ScatteredReached()
    ensures Reached(Scattered(), ScatteredState())
  {
    HalfWayReached();
    hide Reached, HalfWay;
    FreeFurther(HalfWay(), HalfWayState(), 259);
    var h := Held(Map(First(264) - {257} - {259}, 1), HalfWayState().live - {(259, 1)});
    FreeFurther(HalfWay() + [Free(259, 1)], h, 261);
    assert h.m.used - {261} == ScatteredState().m.used;
    assert h.live - {(261, 1)} == ScatteredState().live;
  }

  ghost function LostState(): Held {
    Held(Map(First(266) - {257, 259, 261}, 0), {(258, 1), (260, 1), (262, 2), (264, 2)})
  }

  lemma LostReached()
    ensures Reached(Scattered() + [Alloc(2)], LostState())
  {
    ScatteredReached();
    hide Reached, Scattered;
    TwoFurther(Scattered(), ScatteredState(), 264);
    assert ScatteredState().m.used + {264, 265} == LostState().m.used;
    hide First;
    assert ScatteredState().live + {(264, 2)} == LostState().live;
  }

  lemma FirstSize(k: nat)
    ensures |First(k)| == k
  {
    FirstIs(k);
  }

  /** The run starts from a state in which the code is marked and counted. */
  lemma BootSound()
    ensures Inv(Boot(), First(257), RAM.bits, 263)
  {
    FirstSize(257);
  }

  /** The next two pages come from behind the RAM, and their free is refused: the run is allowed, and
      both bits stay set. */
  lemma FreeRefused()
    ensures Inv(Boot(), First(257), RAM.bits, 263)
    ensures Reached(Scattered() + [Alloc(2)], LostState())
    ensures (264, 2) in LostState().live && Step(LostState(), RAM, Free(264, 2)) == LostState()
    ensures Reached(Scattered() + [Alloc(2)] + [Free(264, 2)], LostState())
  {
    BootSound();
    LostReached();
    assert Step(LostState(), RAM, Free(264, 2)) == LostState() && Allowed(LostState(), RAM, Free(264, 2));
    hide Reached, Scattered, Step, Allowed, First;
    ReachedFurther(Scattered() + [Alloc(2)], LostState(), Free(264, 2));
  }

  lemma FoundBehind()
    ensures PageAlloc(ScatteredState().m, RAM.bits, 2).1 == 264
  {
    hide PageAlloc, FirstFit, FreeRun, Take;
    PairFound(ScatteredState().m, RAM.bits, 264);
  }

  /** In that reachable state two pages, as for a kernel stack of one page and its guard page, are found
      behind the RAM; if the stack cannot be completed they are lost. */
  lemma RollbackLeaks()
    ensures Reached(Scattered(), ScatteredState())
    ensures var m := ScatteredState().m;
            && PageAlloc(m, RAM.bits, 2).1 == 264 && RAM.last < 264
            && RoundTrip(m, RAM, 2) == PageAlloc(m, RAM.bits, 2).0 != m
  {
    hide PageAlloc, First, Reached, Scattered, RoundTrip;
    ScatteredReached();
    FoundBehind();
    var m := ScatteredState().m;
    RoundTripIff(m, RAM, 2);
    LostTrip(m, RAM, 2);
  }

  lemma LostTrip(m: Map, r: Region, n: nat)
    requires r.last < PageAlloc(m, r.bits, n).1
    ensures RoundTrip(m, r, n) == PageAlloc(m, r.bits, n).0
  {
    hide PageAlloc, FreeRun, Take, Give;
  }

  /** The virtual map of that memory: its bitmap is not rounded up to whole words, and
      sw_vir_addr_free accepts starts up to four times the region. */
  const VIR: Region := Region(264, 263, 1052)

  /** sw_vir_page_alloc of two pages, with the physical map in that state and the virtual one as after
      boot, and the sw_vir_addr_free of its pages: the virtual run is taken back, the physical one is
      not. */
  lemma VirFreeLoses()
    ensures Reached(Scattered(), ScatteredState())
    ensures var v, m := Boot().m, ScatteredState().m;
            && PageAlloc(v, VIR.bits, 2).1 == 257 <= VIR.lastMapped
            && StepMap(StepMap(v, VIR, Alloc(2)), VIR, FreeMapped(257, 2)) == v
            && RoundTrip(m, RAM, 2) != m
  {
    hide First, Reached, Scattered, PageAlloc, RoundTrip, StepMap, ScatteredState;
    RollbackLeaks();
    FoundFirst();
    UndoneTrip(Boot().m, VIR, 2);
  }

  lemma FoundFirst()
    ensures PageAlloc(Boot().m, VIR.bits, 2).1 == 257
  {
    hide PageAlloc, FirstFit, FreeRun, Take;
    PairFound(Boot().m, VIR.bits, 257);
  }

  lemma UndoneTrip(m: Map, r: Region, n: nat)
    requires m.free < W && 0 <= PageAlloc(m, r.bits, n).1 <= r.lastMapped
    ensures StepMap(StepMap(m, r, Alloc(n)), r, FreeMapped(PageAlloc(m, r.bits, n).1, n)) == m
  {
    hide Take, Give, FreeRun;
    TakeGiveIff(m, PageAlloc(m, r.bits, n).1, n);
  }
}
