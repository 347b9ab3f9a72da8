/** mem_mng.c: the physical and virtual page bitmaps; task.c: kernel stacks. */
module PageMap {
  import opened BitMap
  import opened PageSpec

  // ---- the loops over a bitmap ----

  /** Whether n pages are free, by the loop that counts in avl_cnt. */
  method TestRun(bmap: array<bv32>, start: nat, n: nat) returns (free: bool)
    requires start + n <= 32 * bmap.Length
    ensures free <==> FreeRun(Pages(bmap[..]), start, n)
  {
    hide Mask, Hits;
    var avail := 0;
    while avail < n
      invariant avail <= n && FreeRun(Pages(bmap[..]), start, avail)
    {
      var iter := start + avail;
      assert iter in Pages(bmap[..]) <==> Bit(bmap[..], iter);
      if Hits(bmap[iter / 32], Mask(iter % 32)) {
        break;
      }
      avail := avail + 1;
    }
    free := avail == n;
  }

  /** The first-fit search. */
  method FindRun(bmap: array<bv32>, bits: nat, n: nat) returns (start: int)
    requires n <= bits <= 32 * bmap.Length
    ensures start == FirstFit(Pages(bmap[..]), bits, n, 0)
  {
    hide FreeRun, Pages;
    start := 0;
    while start < bits - n
      invariant 0 <= start <= bits - n
      invariant FirstFit(Pages(bmap[..]), bits, n, 0) == FirstFit(Pages(bmap[..]), bits, n, start)
    {
      var free := TestRun(bmap, start, n);
      if free {
        return;
      }
      start := start + 1;
    }
    start := -1;
  }

  method MarkPage(bmap: array<bv32>, p: nat)
    requires p < 32 * bmap.Length
    modifies bmap
    ensures Pages(bmap[..]) == old(Pages(bmap[..])) + {p}
  {
    hide Pages, With, Mask;
    PagesChanged(bmap[..], p);
    ghost var words := bmap[..];
    bmap[p / 32] := With(bmap[p / 32], Mask(p % 32));
    assert bmap[..] == words[p / 32 := With(words[p / 32], Mask(p % 32))];
  }

  method ClearPage(bmap: array<bv32>, p: nat)
    requires p < 32 * bmap.Length
    modifies bmap
    ensures Pages(bmap[..]) == old(Pages(bmap[..])) - {p}
  {
    hide Pages, Without, Mask;
    PagesChanged(bmap[..], p);
    ghost var words := bmap[..];
    bmap[p / 32] := Without(bmap[p / 32], Mask(p % 32));
    assert bmap[..] == words[p / 32 := Without(words[p / 32], Mask(p % 32))];
  }

  lemma WordStep(x: int)
    requires 0 <= x % W
    ensures (x % W - 1) % W == (x - 1) % W && (x % W + 1) % W == (x + 1) % W
  {
    ModSub(x, 1);
  }

  lemma SameWordZero(x: nat)
    requires x < W
    ensures x % W == x
  {
  }

  lemma NextRange(a: set<nat>, start: nat, n: nat)
    ensures a + Range(start, n + 1) == (a + Range(start, n)) + {start + n}
    ensures a - Range(start, n + 1) == (a - Range(start, n)) - {start + n}
  {
    var r := Range(start, n);
    assert Range(start, n + 1) == r + {start + n};
    assert a + (r + {start + n}) == (a + r) + {start + n};
    assert a - (r + {start + n}) == (a - r) - {start + n};
  }

  /** One page more taken, or given. */
  lemma NextTaken(m: Map, start: nat, n: nat)
    ensures Take(m, start, n + 1) == Map(Take(m, start, n).used + {start + n}, (Take(m, start, n).free - 1) % W)
  {
    hide Range;
    WordStep(m.free - n);
    NextRange(m.used, start, n);
  }

  lemma NextGiven(m: Map, start: nat, n: nat)
    ensures Give(m, start, n + 1) == Map(Give(m, start, n).used - {start + n}, (Give(m, start, n).free + 1) % W)
  {
    hide Range;
    WordStep(m.free + n);
    NextRange(m.used, start, n);
  }

  lemma NoPage(m: Map, start: nat)
    requires m.free < W
    ensures Take(m, start, 0) == m == Give(m, start, 0)
  {
    SameWordZero(m.free);
    assert m.used + {} == m.used && m.used - {} == m.used;
  }

  /** Marks n pages as used and counts them off. */
  method MarkRun(bmap: array<bv32>, start: nat, n: nat, free: nat) returns (free': nat)
    requires start + n <= 32 * bmap.Length && free < W
    modifies bmap
    ensures free' < W && Map(Pages(bmap[..]), free') == Take(old(Map(Pages(bmap[..]), free)), start, n)
  {
    hide Pages, Take;
    free' := free;
    var cnt := 0;
    ghost var before := Map(Pages(bmap[..]), free);
    NoPage(before, start);
    while cnt < n
      invariant cnt <= n && free' < W
      invariant Map(Pages(bmap[..]), free') == Take(before, start, cnt)
    {
      NextTaken(before, start, cnt);
      MarkPage(bmap, start + cnt);
      free' := (free' - 1) % W;
      cnt := cnt + 1;
    }
  }

  /** Clears n pages and counts them back. */
  method ClearRun(bmap: array<bv32>, start: nat, n: nat, free: nat) returns (free': nat)
    requires start + n <= 32 * bmap.Length && free < W
    modifies bmap
    ensures free' < W && Map(Pages(bmap[..]), free') == Give(old(Map(Pages(bmap[..]), free)), start, n)
  {
    hide Pages, Give;
    free' := free;
    var cnt := 0;
    ghost var before := Map(Pages(bmap[..]), free);
    NoPage(before, start);
    while cnt < n
      invariant cnt <= n && free' < W
      invariant Map(Pages(bmap[..]), free') == Give(before, start, cnt)
    {
      NextGiven(before, start, cnt);
      ClearPage(bmap, start + cnt);
      free' := (free' + 1) % W;
      cnt := cnt + 1;
    }
  }

  /** The test and the marking of sw_phy_addr_reserve and sw_vir_addr_reserve. */
  method ReserveRun(bmap: array<bv32>, start: nat, n: nat, free: nat) returns (ok: bool, free': nat)
    requires start + n <= 32 * bmap.Length && free < W
    modifies bmap
    ensures free' < W && ok == FreeRun(old(Pages(bmap[..])), start, n)
    ensures Map(Pages(bmap[..]), free') ==
            if ok then Take(old(Map(Pages(bmap[..]), free)), start, n) else old(Map(Pages(bmap[..]), free))
  {
    hide Pages, Take, FreeRun;
    free' := free;
    ok := TestRun(bmap, start, n);
    if ok {
      free' := MarkRun(bmap, start, n, free);
    }
  }

  // ---- the page table, as far as it is asked for: page addresses to page addresses ----

  /** v is the address of one of the pages of a mapped area. */
  predicate PageOf(v: nat, vir: nat, size: nat) {
    vir <= v < vir + size && (v - vir) % PAGE == 0
  }

  /** map_kernel_data_memory, when it succeeds. */
  function Mapped(table: map<nat, nat>, vir: nat, phy: nat, size: nat): map<nat, nat> {
    table + map v: nat | vir <= v < vir + size && PageOf(v, vir, size) :: phy + (v - vir)
  }

  /** unmap_kernel_memory */
  function Unmapped(table: map<nat, nat>, vir: nat, size: nat): map<nat, nat> {
    map v | v in table && !PageOf(v, vir, size) :: table[v]
  }

  /** The pages of an area are those at whole pages from its start. */
  lemma PageOfIff(v: nat, vir: nat, size: nat)
    ensures PageOf(v, vir, size) <==> exists i: nat :: v == PageAt(vir, i) && v < vir + size
  {
    if PageOf(v, vir, size) {
      var i := (v - vir) / PAGE;
      assert v == PageAt(vir, i);
    }
  }

  /** Page i from an address on. */
  function PageAt(addr: nat, i: nat): nat { addr + i * PAGE }

  /** After mapping, page i of the area leads to page i of the physical run, every other page where it did. */
  lemma MappedEach(table: map<nat, nat>, vir: nat, phy: nat, size: nat, v: nat)
    ensures var t := Mapped(table, vir, phy, size);
            && (v in t <==> v in table || PageOf(v, vir, size))
            && (!PageOf(v, vir, size) && v in table ==> t[v] == table[v])
            && forall i: nat :: v == PageAt(vir, i) && v < vir + size ==> v in t && t[v] == PageAt(phy, i)
  {
    forall i: nat | v == PageAt(vir, i) && v < vir + size
      ensures PageOf(v, vir, size) && phy + (v - vir) == PageAt(phy, i)
    {
      PageOfIff(v, vir, size);
    }
  }

  /** After unmapping, no page of the area leads anywhere, every other page where it did. */
  lemma UnmappedEach(table: map<nat, nat>, vir: nat, size: nat, v: nat)
    ensures var t := Unmapped(table, vir, size);
            && (v in t <==> v in table && !PageOf(v, vir, size))
            && (v in t ==> t[v] == table[v])
  {
  }

  /** Unmapping what was mapped leaves the table as it was before, if the area was not mapped then. */
  lemma MapUnmap(table: map<nat, nat>, vir: nat, phy: nat, size: nat)
    requires forall v :: v in table ==> !PageOf(v, vir, size)
    ensures Unmapped(Mapped(table, vir, phy, size), vir, size) == table
  {
  }

  lemma MappedFirst(table: map<nat, nat>, vir: nat, phy: nat, size: nat)
    requires 0 < size
    ensures vir in Mapped(table, vir, phy, size) && Mapped(table, vir, phy, size)[vir] == phy
  {
    assert PageOf(vir, vir, size);
  }

  const SECTION: nat := 0x10_0000

  /** The words of a bitmap: one byte more than eight pages each need, rounded up to whole words. */
  function BmapWords(size: nat): nat { (size / (8 * PAGE) + 1 + 3) / 4 }

  /** The virtual map has a whole byte more than eight pages each need, the physical one is rounded up to words. */
  ghost predicate BitCounts(size: nat, phyBits: nat, virBits: nat) {
    && virBits == 8 * (size / (8 * PAGE) + 1)
    && virBits <= phyBits < virBits + 32 && phyBits % 32 == 0
  }

  lemma BitCountsOf(size: nat)
    ensures BitCounts(size, 32 * BmapWords(size), 8 * (size / (8 * PAGE) + 1))
  {
  }

  lemma ClearPages(words: seq<bv32>)
    requires forall i :: 0 <= i < |words| ==> words[i] == 0
    ensures Pages(words) == {}
  {
    hide Mask;
    forall p: nat | p < 32 * |words|
      ensures !Bit(words, p)
    {
      NoBits(Mask(p % 32));
    }
  }

  lemma NoBits(m: bv32)
    ensures !Hits(0, m)
  {
  }

  lemma CodeFits(size: nat, codeLen: nat)
    requires size % PAGE == 0 && codeLen + SECTION <= size
    ensures (codeLen + SECTION + PAGE - 1) / PAGE <= size / PAGE < 8 * (size / (8 * PAGE) + 1) <= 32 * BmapWords(size)
  {
  }

  /** A clear bitmap, in which the first pages are marked. */
  method InitMap(words: nat, total: nat, code: nat) returns (bmap: array<bv32>, free: nat)
    requires code <= 32 * words && total < W
    ensures fresh(bmap) && bmap.Length == words && free < W
    ensures Pages(bmap[..]) == Range(0, code) && Counted(Map(Pages(bmap[..]), free), total)
  {
    hide Pages, Range;
    bmap := new bv32[words](_ => 0);
    ClearPages(bmap[..]);
    TakeCounts(Map({}, total), total, 0, code);
    free := MarkRun(bmap, 0, code, total);
  }

  /** An address that is that of a page of the map. */
  predicate OnPage(start: nat, addr: nat) { start <= addr && (addr - start) % PAGE == 0 }

  /** The range checks on addresses, in page numbers. */
  lemma RangeInPages(start: nat, addr: nat, size: nat)
    requires start <= addr
    ensures addr <= start + size ==> (addr - start) / PAGE <= size / PAGE
    ensures OnPage(start, addr) ==> (addr <= start + size <==> (addr - start) / PAGE <= size / PAGE)
  {
  }

  /** struct secure_world_mem_info */
  class MemInfo {
    const physStart: nat
    const virStart: nat
    const size: nat
    const phyBits: nat
    const virBits: nat
    const phyBmap: array<bv32>
    const virBmap: array<bv32>
    var numPhyFree: nat
    var numVirFree: nat
    var table: map<nat, nat>

    /** sw_meminfo_init, for page-aligned RAM: clear bitmaps, in which the pages of the code and of one
        section more are marked. */
    constructor (physStart: nat, virStart: nat, size: nat, codeLen: nat)
      requires 0 < size && size % PAGE == 0 && codeLen + SECTION <= size
      requires 0 < physStart && physStart + 32 * PAGE * BmapWords(size) <= W && physStart + size < W
      requires 0 < virStart && virStart + 32 * PAGE * BmapWords(size) <= W && virStart + size < W
      ensures Valid() && fresh(phyBmap) && fresh(virBmap) && table == map[]
      ensures var code := (codeLen + SECTION + PAGE - 1) / PAGE;
              && Phys().used == Range(0, code) == Virt().used
              && Counted(Phys(), size / PAGE) && Counted(Virt(), size / PAGE)
      ensures size / PAGE < virBits <= phyBits && BitCounts(size, phyBits, virBits) && phyBits == 32 * phyBmap.Length
      ensures var code := Range(0, (codeLen + SECTION + PAGE - 1) / PAGE);
              Inv(Held(Phys(), {}), code, phyBits, size / PAGE) && Inv(Held(Virt(), {}), code, virBits, size / PAGE)
    {
      this.physStart, this.virStart, this.size := physStart, virStart, size;
      phyBits, virBits := 32 * BmapWords(size), 8 * (size / (8 * PAGE) + 1);
      CodeFits(size, codeLen);
      BitCountsOf(size);
      hide BitCounts, BmapWords, Inv, Counted;
      var code := (codeLen + SECTION + PAGE - 1) / PAGE;
      var phys, phyFree := InitMap(BmapWords(size), size / PAGE, code);
      var virt, virFree := InitMap(BmapWords(size), size / PAGE, code);
      phyBmap, virBmap, table := phys, virt, map[];
      numPhyFree, numVirFree := phyFree, virFree;
      new;
      BootHolds(Phys(), code, phyBits, size / PAGE);
      BootHolds(Virt(), code, virBits, size / PAGE);
    }

    /** Two bitmaps of equally many words, over two regions of equal size; addresses fit 32 bits. */
    ghost predicate Valid()
      reads this`numPhyFree, this`numVirFree
    {
      && phyBmap != virBmap && phyBmap.Length == virBmap.Length
      && phyBits <= 32 * phyBmap.Length && virBits <= 32 * virBmap.Length
      && numPhyFree < W && numVirFree < W
      && 0 < physStart && physStart + 32 * PAGE * phyBmap.Length <= W && physStart + size < W
      && 0 < virStart && virStart + 32 * PAGE * virBmap.Length <= W && virStart + size < W
    }

    ghost function Phys(): Map
      reads this`numPhyFree, phyBmap
    {
      Map(Pages(phyBmap[..]), numPhyFree)
    }

    ghost function Virt(): Map
      reads this`numVirFree, virBmap
    {
      Map(Pages(virBmap[..]), numVirFree)
    }

    /** What the functions accept of either map. */
    ghost function PhyRegion(): Region { Region(phyBits, size / PAGE, -1) }

    ghost function VirRegion(): Region {
      Region(virBits, size / PAGE,
             if VirFreeBound() < virStart then -1 else (VirFreeBound() - virStart) / PAGE)
    }

    /** The range checks on addresses. */
    predicate PhyInRange(addr: nat) { physStart <= addr <= physStart + size }

    predicate VirInRange(addr: nat) { virStart <= addr <= virStart + size }

    /** secure_phy_to_vir */
    function PhyToVir(addr: nat): nat
      requires physStart <= addr
    {
      virStart + (addr - physStart)
    }

    /** sw_phy_page_alloc; 0 is failure. */
    method PhyPageAlloc(bytes: nat) returns (addr: nat)
      requires Valid() && bytes < W
      requires PageCount(bytes) <= numPhyFree ==> PageCount(bytes) <= phyBits
      modifies this`numPhyFree, phyBmap
      ensures Valid()
      ensures var (m, start) := PageAlloc(old(Phys()), phyBits, PageCount(bytes));
              Phys() == m && addr == if start == -1 then 0 else physStart + start * PAGE
      ensures Phys() == StepMap(old(Phys()), PhyRegion(), Alloc(PageCount(bytes)))
    {
      hide Take, Pages, PageCount;
      var n := PageCount(bytes);
      if n > numPhyFree {
        return 0;
      }
      var start := FindRun(phyBmap, phyBits, n);
      if start == -1 {
        return 0;
      }
      numPhyFree := MarkRun(phyBmap, start, n, numPhyFree);
      addr := physStart + start * PAGE;
    }

    /** sw_vir_page_alloc: a run of virtual pages and one of physical pages, or neither; mapOk is the
        outcome of the mapping, which is not looked at. */
    method VirPageAlloc(bytes: nat, mapOk: bool) returns (addr: nat)
      requires Valid() && bytes < W
      requires PageCount(bytes) <= numPhyFree ==> PageCount(bytes) <= phyBits
      requires PageCount(bytes) <= numVirFree ==> PageCount(bytes) <= virBits
      modifies this`numPhyFree, this`numVirFree, this`table, phyBmap, virBmap
      ensures Valid()
      ensures var (v, vstart) := PageAlloc(old(Virt()), virBits, PageCount(bytes));
              var (p, pstart) := PageAlloc(old(Phys()), phyBits, PageCount(bytes));
              if vstart == -1 || pstart == -1 then
                addr == 0 && Virt() == old(Virt()) && Phys() == old(Phys()) && table == old(table)
              else
                && addr == virStart + vstart * PAGE && Virt() == v && Phys() == p
                && table == if mapOk then Mapped(old(table), addr, physStart + pstart * PAGE, RoundUp(bytes))
                            else old(table)
      ensures addr != 0 ==> Virt() == StepMap(old(Virt()), VirRegion(), Alloc(PageCount(bytes)))
      ensures addr != 0 ==> Phys() == StepMap(old(Phys()), PhyRegion(), Alloc(PageCount(bytes)))
    {
      hide Take, Pages, PageCount, Mapped, RoundUp;
      var n := PageCount(bytes);
      if n > numVirFree {
        return 0;
      }
      var start := FindRun(virBmap, virBits, n);
      if start == -1 {
        return 0;
      }
      RoundedCount(bytes);
      var phy := PhyPageAlloc(RoundUp(bytes));
      if phy == 0 {
        return 0;
      }
      numVirFree := MarkRun(virBmap, start, n, numVirFree);
      addr := virStart + start * PAGE;
      if mapOk {
        table := Mapped(table, addr, phy, RoundUp(bytes));
      }
    }

    /** sw_phy_addr_reserve */
    method PhyAddrReserve(addr: nat, bytes: nat) returns (ok: bool)
      requires Valid() && bytes <= W / 2 - PAGE
      requires PhyInRange(addr) ==> (addr - physStart) / PAGE + PageCount(bytes) <= 32 * phyBmap.Length
      modifies this`numPhyFree, phyBmap
      ensures Valid()
      ensures ok <==> PhyInRange(addr) && FreeRun(old(Phys()).used, (addr - physStart) / PAGE, PageCount(bytes))
      ensures Phys() == if ok then Take(old(Phys()), (addr - physStart) / PAGE, PageCount(bytes)) else old(Phys())
      ensures PhyInRange(addr) || OnPage(physStart, addr) ==>
                Phys() == StepMap(old(Phys()), PhyRegion(), Reserve((addr - physStart) / PAGE, PageCount(bytes)))
    {
      hide Take, Pages, PageCount, FreeRun;
      if physStart <= addr {
        RangeInPages(physStart, addr, size);
      }
      if addr < physStart || addr > physStart + size {
        return false;
      }
      ok, numPhyFree := ReserveRun(phyBmap, (addr - physStart) / PAGE, PageCount(bytes), numPhyFree);
    }

    /** sw_vir_addr_reserve */
    method VirAddrReserve(addr: nat, bytes: nat) returns (ok: bool)
      requires Valid() && bytes <= W / 2 - PAGE
      requires VirInRange(addr) ==> (addr - virStart) / PAGE + PageCount(bytes) <= 32 * virBmap.Length
      modifies this`numVirFree, virBmap
      ensures Valid()
      ensures ok <==> VirInRange(addr) && FreeRun(old(Virt()).used, (addr - virStart) / PAGE, PageCount(bytes))
      ensures Virt() == if ok then Take(old(Virt()), (addr - virStart) / PAGE, PageCount(bytes)) else old(Virt())
      ensures VirInRange(addr) || OnPage(virStart, addr) ==>
                Virt() == StepMap(old(Virt()), VirRegion(), Reserve((addr - virStart) / PAGE, PageCount(bytes)))
    {
      hide Take, Pages, PageCount, FreeRun;
      if virStart <= addr {
        RangeInPages(virStart, addr, size);
      }
      if addr < virStart || addr > virStart + size {
        return false;
      }
      ok, numVirFree := ReserveRun(virBmap, (addr - virStart) / PAGE, PageCount(bytes), numVirFree);
    }

    /** sw_vir_free_reserve */
    method VirFreeReserve(addr: nat, bytes: nat) returns (ok: bool)
      requires Valid() && bytes <= W / 2 - PAGE
      requires VirInRange(addr) ==> (addr - virStart) / PAGE + PageCount(bytes) <= 32 * virBmap.Length
      modifies this`numVirFree, virBmap
      ensures Valid() && ok == VirInRange(addr)
      ensures Virt() == if ok then Give(old(Virt()), (addr - virStart) / PAGE, PageCount(bytes)) else old(Virt())
      ensures VirInRange(addr) || OnPage(virStart, addr) ==>
                Virt() == StepMap(old(Virt()), VirRegion(), Free((addr - virStart) / PAGE, PageCount(bytes)))
    {
      hide Give, Pages, PageCount;
      if virStart <= addr {
        RangeInPages(virStart, addr, size);
      }
      if addr < virStart || addr > virStart + size {
        return false;
      }
      numVirFree := ClearRun(virBmap, (addr - virStart) / PAGE, PageCount(bytes), numVirFree);
      return true;
    }

    /** sw_phy_addr_free */
    method PhyAddrFree(addr: nat, bytes: nat) returns (ok: bool)
      requires Valid() && bytes <= W / 2 - PAGE
      requires PhyInRange(addr) ==> (addr - physStart) / PAGE + PageCount(bytes) <= 32 * phyBmap.Length
      modifies this`numPhyFree, phyBmap
      ensures Valid() && ok == PhyInRange(addr)
      ensures Phys() == if ok then Give(old(Phys()), (addr - physStart) / PAGE, PageCount(bytes)) else old(Phys())
      ensures PhyInRange(addr) || OnPage(physStart, addr) ==>
                Phys() == StepMap(old(Phys()), PhyRegion(), Free((addr - physStart) / PAGE, PageCount(bytes)))
    {
      hide Give, Pages, PageCount;
      if physStart <= addr {
        RangeInPages(physStart, addr, size);
      }
      if addr < physStart || addr > physStart + size {
        return false;
      }
      numPhyFree := ClearRun(phyBmap, (addr - physStart) / PAGE, PageCount(bytes), numPhyFree);
      return true;
    }

    /** The upper bound of sw_vir_addr_free, which adds the size to a pointer to words. */
    function VirFreeBound(): nat { (virStart + 4 * size) % W }

    /** sw_vir_addr_free, for a page that is mapped. */
    method VirAddrFree(addr: nat, bytes: nat) returns (ok: bool)
      requires Valid() && bytes <= W / 2 - PAGE && addr in table
      requires virStart <= addr <= VirFreeBound() ==>
                 (addr - virStart) / PAGE + PageCount(bytes) <= 32 * virBmap.Length
      requires PhyInRange(table[addr]) ==> (table[addr] - physStart) / PAGE + PageCount(bytes) <= 32 * phyBmap.Length
      modifies this`numPhyFree, this`numVirFree, this`table, phyBmap, virBmap
      ensures Valid() && ok == (virStart <= addr <= VirFreeBound())
      ensures virStart + 4 * size < W ==> ok == (0 <= addr - virStart <= 4 * size)
      ensures Virt() == if ok then Give(old(Virt()), (addr - virStart) / PAGE, PageCount(bytes)) else old(Virt())
      ensures Phys() == if ok && PhyInRange(old(table)[addr])
                        then Give(old(Phys()), (old(table)[addr] - physStart) / PAGE, PageCount(bytes))
                        else old(Phys())
      ensures table == if ok then Unmapped(old(table), addr, RoundUp(bytes)) else old(table)
      ensures ok || OnPage(virStart, addr) ==>
                Virt() == StepMap(old(Virt()), VirRegion(), FreeMapped((addr - virStart) / PAGE, PageCount(bytes)))
      ensures ok && (PhyInRange(old(table)[addr]) || OnPage(physStart, old(table)[addr])) ==>
                Phys() == StepMap(old(Phys()), PhyRegion(),
                                  Free((old(table)[addr] - physStart) / PAGE, PageCount(bytes)))
    {
      hide Give, Pages, PageCount, Unmapped, RoundUp;
      if virStart <= addr && virStart <= VirFreeBound() {
        RangeInPages(virStart, addr, VirFreeBound() - virStart);
      }
      if addr < virStart || addr > VirFreeBound() {
        return false;
      }
      numVirFree := ClearRun(virBmap, (addr - virStart) / PAGE, PageCount(bytes), numVirFree);
      var freed := PhyAddrFree(table[addr], bytes);
      table := Unmapped(table, addr, RoundUp(bytes));
      return true;
    }

    /** alloc_kernel_stack: one page more than asked for, in both maps, the first left unmapped; mapOk is
        the outcome of the mapping.  When it fails, the virtual map is as before; the physical map is as
        before exactly if no run was found or the run starts in range, as sw_phy_addr_free refuses to take
        another one back. */
    method AllocKernelStack(bytes: nat, mapOk: bool) returns (sp: nat)
      requires Valid() && bytes <= W / 2 - 2 * PAGE
      requires PageCount(bytes) + 1 <= numPhyFree ==> PageCount(bytes) + 1 <= phyBits
      modifies this`numPhyFree, this`numVirFree, this`table, phyBmap, virBmap
      ensures Valid()
      ensures var n := PageCount(bytes) + 1;
              var (p, start) := PageAlloc(old(Phys()), phyBits, n);
              && (sp != 0 <==> start != -1 && start * PAGE <= size && FreeRun(old(Virt()).used, start, n) && mapOk)
              && (sp != 0 ==>
                    && sp == virStart + start * PAGE + PAGE && Phys() == p && Virt() == Take(old(Virt()), start, n)
                    && table == Mapped(old(table), sp, physStart + start * PAGE + PAGE, RoundUp(bytes)))
              && (sp == 0 ==>
                    && Virt() == old(Virt()) && table == old(table)
                    && Phys() == RoundTrip(old(Phys()), PhyRegion(), n)
                    && (Phys() == old(Phys()) <==> start == -1 || start * PAGE <= size))
    {
      hide Take, Give, Pages, PageCount, FreeRun, RoundUp, Mapped;
      StackSize(bytes);
      var newSize := RoundUp(bytes) + PAGE;
      ghost var start := PageAlloc(Phys(), phyBits, PageCount(newSize)).1;
      RoundTripIff(Phys(), PhyRegion(), PageCount(newSize));
      StartInPages(start, size);
      var phy := PhyPageAlloc(newSize);
      if phy == 0 {
        return 0;
      }
      RunPlaced(old(Phys()), phyBits, PageCount(newSize));
      PageIndex(start);
      var vir := PhyToVir(phy);
      var reserved := VirAddrReserve(vir, newSize);
      if reserved && mapOk {
        table := Mapped(table, vir + PAGE, phy + PAGE, RoundUp(bytes));
        return vir + PAGE;
      }
      if reserved {
        var undone := VirFreeReserve(vir, newSize);
        TakeGiveIff(old(Virt()), start, PageCount(newSize));
      }
      var freed := PhyAddrFree(phy, newSize);
      TakeGiveIff(old(Phys()), start, PageCount(newSize));
      sp := 0;
    }

    /** free_kernel_stack, for a stack that is mapped. */
    method FreeKernelStack(sp: nat, bytes: nat)
      requires Valid() && bytes <= W / 2 - 2 * PAGE
      requires sp in table && PAGE <= sp && PAGE <= table[sp]
      requires VirInRange(sp - PAGE) ==> (sp - PAGE - virStart) / PAGE + PageCount(bytes) + 1 <= 32 * virBmap.Length
      requires PhyInRange(table[sp] - PAGE) ==>
                 (table[sp] - PAGE - physStart) / PAGE + PageCount(bytes) + 1 <= 32 * phyBmap.Length
      modifies this`numPhyFree, this`numVirFree, this`table, phyBmap, virBmap
      ensures Valid() && table == Unmapped(old(table), sp, RoundUp(bytes))
      ensures Virt() == if VirInRange(sp - PAGE)
                        then Give(old(Virt()), (sp - PAGE - virStart) / PAGE, PageCount(bytes) + 1) else old(Virt())
      ensures Phys() == var phy := old(table)[sp] - PAGE;
                        if PhyInRange(phy) then Give(old(Phys()), (phy - physStart) / PAGE, PageCount(bytes) + 1)
                        else old(Phys())
    {
      hide Give, Pages, PageCount, RoundUp, Unmapped;
      StackSize(bytes);
      var newSize := RoundUp(bytes) + PAGE;
      var phy := table[sp] - PAGE;
      table := Unmapped(table, sp, RoundUp(bytes));
      var virFreed := VirFreeReserve(sp - PAGE, newSize);
      var phyFreed := PhyAddrFree(phy, newSize);
    }

    /** free_kernel_stack undoes alloc_kernel_stack. */
    method AllocThenFree(bytes: nat, mapOk: bool) returns (sp: nat)
      requires Valid() && 0 < bytes <= W / 2 - 2 * PAGE
      requires PageCount(bytes) + 1 <= numPhyFree ==> PageCount(bytes) + 1 <= phyBits
      modifies this`numPhyFree, this`numVirFree, this`table, phyBmap, virBmap
      ensures Valid()
      ensures sp != 0 ==> Phys() == old(Phys()) && Virt() == old(Virt())
      ensures sp != 0 && (forall v :: v in old(table) ==> !PageOf(v, sp, RoundUp(bytes))) ==> table == old(table)
    {
      hide Take, Give, Pages, PageCount, RoundUp, FreeRun, Unmapped, Mapped, PageOf;
      ghost var n := PageCount(bytes) + 1;
      ghost var start := PageAlloc(Phys(), phyBits, n).1;
      sp := AllocKernelStack(bytes, mapOk);
      if sp != 0 {
        PageIndex(start);
        RunPlaced(old(Phys()), phyBits, n);
        RoundedPositive(bytes);
        MappedFirst(old(table), sp, physStart + start * PAGE + PAGE, RoundUp(bytes));
        FreeKernelStack(sp, bytes);
        TakeGiveIff(old(Phys()), start, n);
        TakeGiveIff(old(Virt()), start, n);
        if forall v :: v in old(table) ==> !PageOf(v, sp, RoundUp(bytes)) {
          MapUnmap(old(table), sp, physStart + start * PAGE + PAGE, RoundUp(bytes));
        }
      }
    }

    /** sw_vir_addr_free undoes a sw_vir_page_alloc whose pages were mapped exactly if both of its range
        checks let the run pass; if one does not, pages stay marked. */
    method VirAllocThenFree(bytes: nat) returns (addr: nat)
      requires Valid() && 0 < bytes <= W / 2 - 2 * PAGE
      requires PageCount(bytes) <= numPhyFree ==> PageCount(bytes) <= phyBits
      requires PageCount(bytes) <= numVirFree ==> PageCount(bytes) <= virBits
      modifies this`numPhyFree, this`numVirFree, this`table, phyBmap, virBmap
      ensures Valid()
      ensures addr == 0 ==> Phys() == old(Phys()) && Virt() == old(Virt())
      ensures addr != 0 ==> ((Phys() == old(Phys()) && Virt() == old(Virt()))
                             <==> addr <= VirFreeBound() &&
                                  PageAlloc(old(Phys()), phyBits, PageCount(bytes)).1 * PAGE <= size)
      ensures addr != 0 && addr <= VirFreeBound() ==>
                Phys() == RoundTrip(old(Phys()), PhyRegion(), PageCount(bytes)) && Virt() == old(Virt())
    {
      hide Take, Give, Pages, PageCount, RoundUp, FreeRun, Unmapped, Mapped, PageAlloc;
      ghost var n := PageCount(bytes);
      ghost var vstart := PageAlloc(Virt(), virBits, n).1;
      ghost var pstart := PageAlloc(Phys(), phyBits, n).1;
      StartInPages(pstart, size);
      RunPlaced(Phys(), phyBits, n);
      RunPlaced(Virt(), virBits, n);
      addr := VirPageAlloc(bytes, true);
      if addr != 0 {
        PageIndex(pstart);
        PageIndex(vstart);
        RoundedPositive(bytes);
        MappedFirst(old(table), addr, physStart + pstart * PAGE, RoundUp(bytes));
        var ok := VirAddrFree(addr, bytes);
        TakeGiveIff(old(Phys()), pstart, n);
        TakeGiveIff(old(Virt()), vstart, n);
        TakeChanges(old(Phys()), pstart, n);
        TakeChanges(old(Virt()), vstart, n);
      }
    }
  }

  /** A free run of pages that is taken changes the map. */
  lemma TakeChanges(m: Map, start: nat, n: nat)
    requires FreeRun(m.used, start, n) && 0 < n
    ensures Take(m, start, n) != m
  {
    assert start in Take(m, start, n).used;
  }

  /** What a successful search found. */
  lemma RunPlaced(m: Map, bits: nat, n: nat)
    ensures var r := PageAlloc(m, bits, n);
            r.1 != -1 ==> 0 <= r.1 && r.1 + n < bits && FreeRun(m.used, r.1, n) && r.0 == Take(m, r.1, n)
  {
  }

  lemma StartInPages(start: int, size: nat)
    ensures start <= size / PAGE <==> start * PAGE <= size
  {
  }

  lemma PageIndex(start: int)
    ensures start * PAGE / PAGE == start
  {
  }

  lemma StackSize(bytes: nat)
    requires bytes <= W / 2 - 2 * PAGE
    ensures RoundUp(bytes) + PAGE <= W / 2 - PAGE && PageCount(RoundUp(bytes) + PAGE) == PageCount(bytes) + 1
  {
  }

  lemma RoundedPositive(bytes: nat)
    requires 0 < bytes <= W - PAGE
    ensures 0 < RoundUp(bytes) && 0 < PageCount(bytes)
  {
  }

  lemma RoundedCount(bytes: nat)
    requires bytes < W
    ensures PageCount(RoundUp(bytes)) == PageCount(bytes)
  {
  }
}
