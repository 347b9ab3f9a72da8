/** What sw_buddy_free joins: the free lists after it, bin by bin, from the free lists before it. */
module BuddyMerge {
  import opened Options
  import opened SwMath
  import opened BuddySpec
  import opened BuddyTheory

  /** Block a of bin k is the lowest of the list l, and its right neighbour is in l too. */
  ghost predicate JoinAt(c: Config, l: set<nat>, k: nat, a: nat) {
    k < c.maxBin && IsLowest(l, a) && a + Size(c, k) in l
  }

  ghost predicate Joins(c: Config, l: set<nat>, k: nat) {
    exists a: nat :: JoinAt(c, l, k, a)
  }

  /** The block that leaves for the next bin, or none. */
  ghost function Carried(c: Config, l: set<nat>, k: nat): set<nat> {
    set a | a in l && JoinAt(c, l, k, a)
  }

  /** The two blocks that are no longer in the bin, or none. */
  ghost function Joined(c: Config, l: set<nat>, k: nat): set<nat> {
    set b | b in l && exists a: nat :: JoinAt(c, l, k, a) && (b == a || b == a + Size(c, k))
  }

  /** The freed block, or what it has become the left half of, is the right half of a join. */
  ghost predicate Absorbs(c: Config, l: set<nat>, k: nat, ptr: nat) {
    exists a: nat :: JoinAt(c, l, k, a) && a + Size(c, k) == ptr
  }

  /** From bin first on, the address still recorded in the descriptor of the freed block at bin k; 0 once the
      descriptor is given up. */
  ghost function Recorded(c: Config, lists: seq<set<nat>>, first: nat, k: nat, ptr: nat): nat
    requires k <= |lists|
  {
    if exists j: nat :: first <= j < k && Absorbs(c, lists[j], j, ptr) then 0 else ptr
  }

  /** The free goes on to the bin after k: after a join below the top, or where nothing is joined and the
      lowest block is not the freed one. */
  ghost predicate GoesOn(c: Config, l: set<nat>, k: nat, recorded: nat) {
    l != {} && k < c.maxBin && if Joins(c, l, k) then k + 1 < c.maxBin else !IsLowest(l, recorded)
  }

  /** free' is what the free of ptr makes of the lists free, in which ptr has entered bin first already.  It
      goes through the bins first to last; lists[k] is bin k when it gets there: what was in it and the
      block carried up from the bin below. */
  ghost predicate Coalesced(c: Config, free: seq<set<nat>>, first: nat, ptr: nat, lists: seq<set<nat>>, last: nat,
                            free': seq<set<nat>>) {
    && |free| == |free'| == |lists| == c.maxBin + 1 && first <= last <= c.maxBin
    && lists[first] == free[first]
    && (forall k {:trigger lists[k]} :: first < k <= last ==> lists[k] == free[k] + Carried(c, lists[k - 1], k - 1))
    && (forall k :: 0 <= k < first ==> free'[k] == free[k])
    && (forall k :: first <= k <= last ==> free'[k] == lists[k] - Joined(c, lists[k], k))
    && (last < c.maxBin ==> free'[last + 1] == free[last + 1] + Carried(c, lists[last], last))
    && (forall k :: last + 1 < k <= c.maxBin ==> free'[k] == free[k])
    && (forall k :: first <= k < last ==> GoesOn(c, lists[k], k, Recorded(c, lists, first, k, ptr)))
    && !GoesOn(c, lists[last], last, Recorded(c, lists, first, last, ptr))
  }

  /** The bins in which two blocks were joined. */
  ghost function JoinBins(c: Config, lists: seq<set<nat>>, first: nat, last: nat): set<nat>
    requires last < |lists|
  {
    set k: nat | first <= k <= last && Joins(c, lists[k], k)
  }

  lemma LowestOnly(l: set<nat>, a: nat, b: nat)
    requires IsLowest(l, a) && IsLowest(l, b)
    ensures a == b
  {
  }

  lemma JoinKnown(c: Config, l: set<nat>, k: nat, a: nat)
    requires IsLowest(l, a) && k < c.maxBin
    ensures Joins(c, l, k) <==> a + Size(c, k) in l
    ensures Carried(c, l, k) == if a + Size(c, k) in l then {a} else {}
    ensures Joined(c, l, k) == if a + Size(c, k) in l then {a, a + Size(c, k)} else {}
    ensures forall ptr :: Absorbs(c, l, k, ptr) <==> a + Size(c, k) in l && a + Size(c, k) == ptr
    ensures forall b :: IsLowest(l, b) <==> b == a
  {
    hide Size;
    assert a + Size(c, k) in l ==> JoinAt(c, l, k, a);
    forall b | JoinAt(c, l, k, b)
      ensures b == a
    {
      LowestOnly(l, a, b);
    }
  }

  lemma NoJoin(c: Config, l: set<nat>, k: nat)
    requires l == {} || c.maxBin <= k
    ensures !Joins(c, l, k) && Carried(c, l, k) == {} && Joined(c, l, k) == {}
    ensures forall ptr :: !Absorbs(c, l, k, ptr)
  {
  }

  /** The loop ends in the bin it starts in. */
  lemma OneBin(c: Config, s: State, idx: nat, tracked: nat) returns (lists: seq<set<nat>>)
    requires |s.free| == c.maxBin + 1 && idx <= c.maxBin && !GoesOn(c, s.free[idx], idx, tracked)
    requires !Joins(c, s.free[idx], idx)
    ensures idx < |lists|
    ensures Coalesced(c, s.free, idx, tracked, lists, idx, s.free) && JoinBins(c, lists, idx, idx) == {}
  {
    lists := s.free;
    var l := s.free[idx];
    assert Carried(c, l, idx) == {} && Joined(c, l, idx) == {};
    assert l - {} == l;
    assert idx < c.maxBin ==> s.free[idx + 1] + {} == s.free[idx + 1];
  }

  lemma RecordedStep(c: Config, lists: seq<set<nat>>, lists2: seq<set<nat>>, first: nat, k: nat, ptr: nat)
    requires first < k <= |lists| == |lists2| && forall j :: first < j < k ==> lists[j] == lists2[j]
    ensures Recorded(c, lists, first, k, ptr) ==
            Recorded(c, lists2, first + 1, k, if Absorbs(c, lists[first], first, ptr) then 0 else ptr)
  {
    hide Absorbs;
    if j: nat :| first < j < k && Absorbs(c, lists[j], j, ptr) {
      assert Absorbs(c, lists2[j], j, ptr);
    }
  }

  /** A bin before those of a shorter loop. */
  lemma Prepend(c: Config, free: seq<set<nat>>, free1: seq<set<nat>>, idx: nat, tracked: nat, tracked1: nat,
                lists2: seq<set<nat>>, last: nat, free': seq<set<nat>>) returns (lists: seq<set<nat>>)
    requires |free| == |free1| == c.maxBin + 1 && idx < c.maxBin && GoesOn(c, free[idx], idx, tracked)
    requires free1[idx] == free[idx] - Joined(c, free[idx], idx)
    requires free1[idx + 1] == free[idx + 1] + Carried(c, free[idx], idx)
    requires forall k :: 0 <= k <= c.maxBin && k != idx && k != idx + 1 ==> free1[k] == free[k]
    requires tracked1 == if Absorbs(c, free[idx], idx, tracked) then 0 else tracked
    requires Coalesced(c, free1, idx + 1, tracked1, lists2, last, free')
    ensures idx < last < |lists| == |lists2|
    ensures Coalesced(c, free, idx, tracked, lists, last, free')
    ensures JoinBins(c, lists, idx, last) ==
            JoinBins(c, lists2, idx + 1, last) + if Joins(c, free[idx], idx) then {idx} else {}
  {
    hide GoesOn, Recorded, Absorbs, Joins, Carried, Joined;
    lists := lists2[idx := free[idx]];
    forall k | idx < k <= last
      ensures Recorded(c, lists, idx, k, tracked) == Recorded(c, lists2, idx + 1, k, tracked1)
    {
      RecordedStep(c, lists, lists2, idx, k, tracked);
    }
    RecordedFirst(c, lists, idx, tracked);
  }

  lemma RecordedFirst(c: Config, lists: seq<set<nat>>, first: nat, ptr: nat)
    requires first <= |lists|
    ensures Recorded(c, lists, first, first, ptr) == ptr
  {
  }

  /** The loop joins in its first bin, and ends there. */
  lemma TopJoin(c: Config, s: State, idx: nat, tracked: nat, addr: nat) returns (lists: seq<set<nat>>)
    requires |s.free| == c.maxBin + 1 && idx + 1 == c.maxBin && 0 < Size(c, idx) && JoinAt(c, s.free[idx], idx, addr)
    ensures idx < |lists|
    ensures Coalesced(c, s.free, idx, tracked, lists, idx, MergeOnce(c, s, idx, addr).free)
    ensures JoinBins(c, lists, idx, idx) == {idx}
  {
    hide Size;
    lists := s.free;
    JoinKnown(c, s.free[idx], idx, addr);
    RecordedFirst(c, lists, idx, tracked);
    JoinedLists(c, s, idx, addr);
  }

  /** The lists after one join. */
  lemma JoinedLists(c: Config, s: State, idx: nat, addr: nat)
    requires |s.free| == c.maxBin + 1 && idx < c.maxBin && JoinAt(c, s.free[idx], idx, addr) && 0 < Size(c, idx)
    ensures var free := MergeOnce(c, s, idx, addr).free;
            && |free| == |s.free|
            && free[idx] == s.free[idx] - Joined(c, s.free[idx], idx)
            && free[idx + 1] == s.free[idx + 1] + Carried(c, s.free[idx], idx)
            && forall k :: 0 <= k <= c.maxBin && k != idx && k != idx + 1 ==> free[k] == s.free[k]
  {
    hide Size, Joined, Carried;
    JoinKnown(c, s.free[idx], idx, addr);
    assert s.free[idx] - {addr} - {addr + Size(c, idx)} == s.free[idx] - {addr, addr + Size(c, idx)};
  }

  lemma MergeJoin(c: Config, s: State, idx: nat, tracked: nat, addr: nat)
    requires |s.free| == c.maxBin + 1 && idx < c.maxBin && JoinAt(c, s.free[idx], idx, addr)
    ensures var m := MergeOnce(c, s, idx, addr);
            Merge(c, s, idx, tracked) ==
            if idx + 1 == c.maxBin then m
            else Merge(c, m, idx + 1, if Absorbs(c, s.free[idx], idx, tracked) then 0 else tracked)
  {
    hide Size;
    LowestOnly(s.free[idx], addr, Lowest(s.free[idx]));
    JoinKnown(c, s.free[idx], idx, addr);
  }

  lemma MergeOn(c: Config, s: State, idx: nat, tracked: nat)
    requires |s.free| == c.maxBin + 1 && idx <= c.maxBin && !Joins(c, s.free[idx], idx)
    ensures Merge(c, s, idx, tracked) ==
            if GoesOn(c, s.free[idx], idx, tracked) then Merge(c, s, idx + 1, tracked) else s
  {
    hide Size;
    if s.free[idx] != {} {
      var addr := Lowest(s.free[idx]);
      assert JoinAt(c, s.free[idx], idx, addr) <==> addr + Size(c, idx) in s.free[idx] && idx < c.maxBin;
      if IsLowest(s.free[idx], tracked) {
        LowestOnly(s.free[idx], addr, tracked);
      }
    }
  }

  lemma {:induction false} MergeCoalesces(c: Config, s: State, idx: nat, tracked: nat)
    returns (lists: seq<set<nat>>, last: nat)
    requires |s.free| == c.maxBin + 1 && idx <= c.maxBin && 0 < c.minSize
    ensures idx <= last < |lists|
    ensures var s' := Merge(c, s, idx, tracked);
            && Coalesced(c, s.free, idx, tracked, lists, last, s'.free)
            && s'.spare == s.spare + |JoinBins(c, lists, idx, last)|
    decreases c.maxBin - idx
  {
    hide Size, Merge, Coalesced, JoinBins, MergeOnce;
    SizePositive(c, idx);
    if Joins(c, s.free[idx], idx) {
      var addr: nat :| JoinAt(c, s.free[idx], idx, addr);
      var m := MergeOnce(c, s, idx, addr);
      MergeJoin(c, s, idx, tracked, addr);
      OneMoreSpare(c, s, idx, addr);
      JoinedLists(c, s, idx, addr);
      if idx + 1 == c.maxBin {
        lists := TopJoin(c, s, idx, tracked, addr);
        last := idx;
      } else {
        var tracked1 := if Absorbs(c, s.free[idx], idx, tracked) then 0 else tracked;
        lists, last := MergeCoalesces(c, m, idx + 1, tracked1);
        var lists2 := lists;
        lists := Prepend(c, s.free, m.free, idx, tracked, tracked1, lists2, last, Merge(c, s, idx, tracked).free);
        OneMoreBin(c, lists2, idx + 1, last, idx);
      }
    } else {
      MergeOn(c, s, idx, tracked);
      if GoesOn(c, s.free[idx], idx, tracked) {
        NothingJoined(c, s.free, idx);
        lists, last := MergeCoalesces(c, s, idx + 1, tracked);
        lists := Prepend(c, s.free, s.free, idx, tracked, tracked, lists, last, Merge(c, s, idx, tracked).free);
      } else {
        lists := OneBin(c, s, idx, tracked);
        last := idx;
      }
    }
  }

  lemma OneMoreSpare(c: Config, s: State, idx: nat, addr: nat)
    requires idx + 1 < |s.free|
    ensures MergeOnce(c, s, idx, addr).spare == s.spare + 1
  {
  }

  lemma OneMoreBin(c: Config, lists: seq<set<nat>>, first: nat, last: nat, idx: nat)
    requires last < |lists| && idx < first
    ensures |JoinBins(c, lists, first, last) + {idx}| == |JoinBins(c, lists, first, last)| + 1
  {
  }

  lemma NothingJoined(c: Config, free: seq<set<nat>>, idx: nat)
    requires idx + 1 < |free| && !Joins(c, free[idx], idx)
    ensures free[idx] == free[idx] - Joined(c, free[idx], idx)
    ensures free[idx + 1] == free[idx + 1] + Carried(c, free[idx], idx)
    ensures forall ptr :: !Absorbs(c, free[idx], idx, ptr)
  {
    hide Size;
    assert forall a: nat :: !JoinAt(c, free[idx], idx, a);
  }

  // ---- sw_buddy_free ----

  /** What a free of a live block joins, in every state: bin by bin, the lowest block with its right neighbour,
      and a descriptor comes back for each. */
  lemma ReleaseCoalesces(c: Config, s: State, ptr: Pointer) returns (lists: seq<set<nat>>, last: nat)
    requires Inv(c, s) && ptr in s.live
    ensures s.live[ptr] <= last < |lists|
    ensures var bin, s' := s.live[ptr], Release(c, s, ptr);
            && bin <= c.maxBin
            && Coalesced(c, s.free[bin := s.free[bin] + {ptr}], bin, ptr, lists, last, s'.free)
            && s'.spare == s.spare + |JoinBins(c, lists, bin, last)|
  {
    hide Size, Merge, Coalesced, JoinBins, Tiles, Pieces, Bytes, LivePieces;
    TakeLive(c, s, ptr);
    var bin := s.live[ptr];
    var t := AddFree(s.(live := s.live - {ptr}, heap := (s.heap + Size(c, bin)) % WORD), bin, ptr);
    if bin == c.maxBin {
      TopAlone(c, t, ptr);
      lists := OneBin(c, t, bin, ptr);
      last := bin;
    } else {
      lists, last := MergeCoalesces(c, t, bin, ptr);
    }
  }

  lemma TopAlone(c: Config, s: State, ptr: nat)
    requires |s.free| == c.maxBin + 1
    ensures !GoesOn(c, s.free[c.maxBin], c.maxBin, ptr) && !Joins(c, s.free[c.maxBin], c.maxBin)
  {
  }

  /** In the bin of the freed block: if the lowest free block has a free right neighbour, both leave the bin and
      a descriptor comes back; else the bin has gained the block. */
  lemma ReleaseJoins(c: Config, s: State, ptr: Pointer, a: nat)
    requires Inv(c, s) && ptr in s.live && s.live[ptr] < c.maxBin
    requires IsLowest(s.free[s.live[ptr]] + {ptr}, a)
    ensures var bin, s' := s.live[ptr], Release(c, s, ptr);
            var l, buddy := s.free[bin] + {ptr}, a + Size(c, bin);
            && s'.free[bin] == (if buddy in l then l - {a, buddy} else l)
            && (buddy in l ==> s.spare < s'.spare)
            && (a == ptr && buddy !in l ==> s' == s.(free := s.free[bin := l], live := s'.live, heap := s'.heap))
  {
    hide Size, Inv, Release, Coalesced, JoinBins;
    InvLists(c, s);
    var bin := s.live[ptr];
    var l := s.free[bin] + {ptr};
    var lists, last := ReleaseCoalesces(c, s, ptr);
    ReleaseKeeps(c, s, ptr);
    CoalescedFirst(c, s.free[bin := l], bin, ptr, lists, last, Release(c, s, ptr).free, a);
  }

  lemma InvLists(c: Config, s: State)
    requires Inv(c, s)
    ensures |s.free| == c.maxBin + 1
  {
  }

  /** What happens in the first bin. */
  lemma CoalescedFirst(c: Config, free: seq<set<nat>>, first: nat, ptr: nat, lists: seq<set<nat>>, last: nat,
                       free': seq<set<nat>>, a: nat)
    requires Coalesced(c, free, first, ptr, lists, last, free') && first < c.maxBin && IsLowest(free[first], a)
    ensures var l, buddy := free[first], a + Size(c, first);
            && free'[first] == (if buddy in l then l - {a, buddy} else l)
            && (buddy in l ==> 0 < |JoinBins(c, lists, first, last)|)
            && (a == ptr && buddy !in l ==> free' == free && JoinBins(c, lists, first, last) == {})
  {
    hide Size, Carried, Joined, Joins, Recorded;
    var l := free[first];
    JoinKnown(c, l, first, a);
    RecordedFirst(c, lists, first, ptr);
    assert l - {} == l;
    if a + Size(c, first) in l {
      assert first in JoinBins(c, lists, first, last);
    } else if a == ptr {
      assert last == first;
      assert free[first + 1] + {} == free[first + 1];
      assert JoinBins(c, lists, first, last) == {};
      assert free' == free;
    }
  }

  // ---- two allocations and their frees, in either order ----

  /** The loop of return_to_free_area, which is not entered for the top bin. */
  ghost function MergeBelow(c: Config, s: State, idx: nat, tracked: nat): State
    requires |s.free| == c.maxBin + 1 && idx <= c.maxBin
  {
    if idx == c.maxBin then s else Merge(c, s, idx, tracked)
  }

  ghost function Emptied(s: State, j: nat, m: nat): State {
    s.(free := seq(|s.free|, i requires 0 <= i < |s.free| => if j <= i < m then {} else s.free[i]))
  }

  /** Block addr climbs from bin j to bin m, where the bins between hold just its right neighbours. */
  lemma {:induction false} Climb(c: Config, s: State, addr: nat, j: nat, m: nat, tracked: nat)
    requires |s.free| == c.maxBin + 1 && j <= m <= c.maxBin && 0 < c.minSize
    requires forall k :: j <= k < m ==> s.free[k] == {addr + Size(c, k)} && tracked != addr + Size(c, k)
    ensures MergeBelow(c, AddFree(s, j, addr), j, tracked) ==
            MergeBelow(c, AddFree(Emptied(s, j, m), m, addr).(spare := s.spare + (m - j)), m, tracked)
    decreases m - j
  {
    hide Size, Merge;
    if j == m {
      assert Emptied(s, j, m).free == s.free;
    } else {
      SizePositive(c, j);
      var s1 := AddFree(s, j, addr);
      assert s1.free[j] == {addr, addr + Size(c, j)};
      MergeJoin(c, s1, j, tracked, addr);
      JoinKnown(c, s1.free[j], j, addr);
      var s2 := s.(free := s.free[j := {}], spare := s.spare + 1);
      ClimbOnce(c, s, addr, j);
      Climb(c, s2, addr, j + 1, m, tracked);
      assert Emptied(s2, j + 1, m).free == Emptied(s, j, m).free;
    }
  }

  lemma ClimbOnce(c: Config, s: State, addr: nat, j: nat)
    requires |s.free| == c.maxBin + 1 && j < c.maxBin && s.free[j] == {addr + Size(c, j)} && 0 < Size(c, j)
    ensures MergeOnce(c, AddFree(s, j, addr), j, addr) ==
            AddFree(s.(free := s.free[j := {}], spare := s.spare + 1), j + 1, addr)
  {
    hide Size;
    var m := MergeOnce(c, AddFree(s, j, addr), j, addr);
    assert m.free[j] == {};
    assert m.free == s.free[j := {}][j + 1 := s.free[j + 1] + {addr}];
  }

  /** The lists after a first request: one right neighbour of the block at addr in each bin from k up. */
  ghost function Stack(c: Config, addr: nat, k: nat): (free: seq<set<nat>>)
    ensures |free| == c.maxBin + 1
    ensures forall j :: 0 <= j <= c.maxBin ==> free[j] == if k <= j < c.maxBin then {addr + Size(c, j)} else {}
  {
    seq(c.maxBin + 1, j => if k <= j < c.maxBin then {addr + Size(c, j)} else {})
  }

  /** The first request. */
  lemma FirstServed(c: Config, size: bv32)
    requires ValidConfig(c) && Alloc(c, Initial(c), size).1.Some?
    ensures var (s, r) := Alloc(c, Initial(c), size);
            var k := BinOf(c, Val(NextPow(size)));
            && k < c.maxBin && Inv(c, s) && r.value == c.start && c.maxBin - k < c.total
            && s == State(Stack(c, c.start, k), map[c.start := k], {}, c.total - 1 - (c.maxBin - k),
                          HeapLess(c.memSize, Size(c, k)))
            && FirstBin(Initial(c).free, k) == c.maxBin
  {
    hide Size, NextPow, Val, BinOf, Alloc, Inv, SplitFree, Admitted, HeapLess;
    InitialSound(c);
    var s0 := Initial(c);
    AllocKeeps(c, s0, size);
    var k, idx := AllocSome(c, s0, size);
    assert idx == c.maxBin;
    FirstLists(c, s0, k);
  }

  lemma FirstLists(c: Config, s: State, k: nat)
    requires k < c.maxBin && |s.free| == c.maxBin + 1 && s.free[c.maxBin] == {c.start}
    requires forall j :: 0 <= j < c.maxBin ==> s.free[j] == {}
    ensures SplitFree(c, s.free[c.maxBin := s.free[c.maxBin] - {c.start}], c.start, c.maxBin, k) == Stack(c, c.start, k)
  {
    hide Size;
    var split := SplitFree(c, s.free[c.maxBin := s.free[c.maxBin] - {c.start}], c.start, c.maxBin, k);
    forall j | 0 <= j <= c.maxBin
      ensures split[j] == Stack(c, c.start, k)[j]
    {
      assert k <= j < c.maxBin ==> split[j] == {} + {c.start + Size(c, j)};
    }
  }

  /** The bin that serves a second request of bin k after a first one of bin first. */
  function Serving(first: nat, k: nat): nat { if first <= k then k else first }

  /** The lists after the second request. */
  ghost function Stacks(c: Config, first: nat, k: nat): (free: seq<set<nat>>)
    ensures |free| == c.maxBin + 1
    ensures var idx := Serving(first, k);
            forall j :: 0 <= j <= c.maxBin ==>
              free[j] == if k <= j < idx then {c.start + Size(c, idx) + Size(c, j)}
                         else if first <= j < c.maxBin && j != idx then {c.start + Size(c, j)} else {}
  {
    var idx := Serving(first, k);
    seq(c.maxBin + 1, j requires 0 <= j <= c.maxBin =>
      if k <= j < idx then {c.start + Size(c, idx) + Size(c, j)}
      else if first <= j < c.maxBin && j != idx then {c.start + Size(c, j)} else {})
  }

  lemma SecondServed(c: Config, s: State, size: bv32, first: nat)
    requires Inv(c, s) && Alloc(c, s, size).1.Some? && first < c.maxBin && s.free == Stack(c, c.start, first)
    ensures var (s', r) := Alloc(c, s, size);
            var k := BinOf(c, Val(NextPow(size)));
            var idx := Serving(first, k);
            && k < c.maxBin && Inv(c, s') && idx < c.maxBin && r.value == c.start + Size(c, idx) && r.value !in s.live
            && idx - k <= s.spare && FirstBin(s.free, k) == idx
            && s' == State(Stacks(c, first, k), s.live[r.value := k], s.lost, s.spare - (idx - k),
                           HeapLess(s.heap, Size(c, k)))
  {
    hide Size, NextPow, Val, BinOf, Alloc, Inv, SplitFree, Admitted, HeapLess;
    AllocKeeps(c, s, size);
    var k, idx := AllocSome(c, s, size);
    assert idx < c.maxBin && s.free[idx] == {c.start + Size(c, idx)};
    assert idx == Serving(first, k);
    SecondLists(c, s, first, k);
  }

  lemma SecondLists(c: Config, s: State, first: nat, k: nat)
    requires k < c.maxBin && first < c.maxBin && s.free == Stack(c, c.start, first)
    ensures var idx := Serving(first, k);
            var q := c.start + Size(c, idx);
            SplitFree(c, s.free[idx := s.free[idx] - {q}], q, idx, k) == Stacks(c, first, k)
  {
    hide Size;
    var idx := Serving(first, k);
    var q := c.start + Size(c, idx);
    var split := SplitFree(c, s.free[idx := s.free[idx] - {q}], q, idx, k);
    forall j | 0 <= j <= c.maxBin
      ensures split[j] == Stacks(c, first, k)[j]
    {
      assert k <= j < idx ==> split[j] == {} + {q + Size(c, j)};
    }
  }

  /** The lower part of the extent is free in one block of bin idx, and a right neighbour of it in each bin above. */
  ghost predicate Ladder(c: Config, free: seq<set<nat>>, idx: nat) {
    && |free| == c.maxBin + 1 && idx < c.maxBin
    && forall j :: 0 <= j <= c.maxBin ==>
         free[j] == if idx < j < c.maxBin then {c.start + Size(c, j)} else if j == idx then {c.start} else {}
  }

  /** The last missing block comes back, and everything is joined. */
  lemma LadderMerges(c: Config, s: State, idx: nat)
    requires Ladder(c, s.free, idx) && 0 < c.minSize && 0 < c.start
    ensures var q := c.start + Size(c, idx);
            MergeBelow(c, AddFree(s, idx, q), idx, q) ==
            s.(free := Initial(c).free, spare := s.spare + (c.maxBin - idx))
  {
    hide Size, Merge;
    SizePositive(c, idx);
    var q := c.start + Size(c, idx);
    var t := AddFree(s, idx, q);
    assert t.free[idx] == {c.start, q};
    MergeJoin(c, t, idx, q, c.start);
    JoinKnown(c, t.free[idx], idx, c.start);
    var u := s.(free := s.free[idx := {}], spare := s.spare + 1);
    var m := MergeOnce(c, t, idx, c.start);
    assert m.free[idx] == {};
    assert m.free == AddFree(u, idx + 1, c.start).free;
    Climb(c, u, c.start, idx + 1, c.maxBin, 0);
    TopList(c, Emptied(u, idx + 1, c.maxBin).free);
  }

  lemma TopList(c: Config, free: seq<set<nat>>)
    requires |free| == c.maxBin + 1 && forall j :: 0 <= j <= c.maxBin ==> free[j] == {}
    ensures free[c.maxBin := free[c.maxBin] + {c.start}] == Initial(c).free
  {
    var free' := free[c.maxBin := free[c.maxBin] + {c.start}];
    forall j | 0 <= j <= c.maxBin
      ensures free'[j] == Initial(c).free[j]
    {
    }
  }

  lemma ReleaseIs(c: Config, s: State, ptr: nat)
    requires |s.free| == c.maxBin + 1 && ptr in s.live && s.live[ptr] < c.maxBin
    ensures var k := s.live[ptr];
            var t := s.(live := s.live - {ptr}, heap := (s.heap + Size(c, k)) % WORD);
            Release(c, s, ptr) == MergeBelow(c, AddFree(t, k, ptr), k, ptr)
  {
    hide Size, Merge;
  }

  lemma Stays(c: Config, s: State, idx: nat, ptr: nat)
    requires |s.free| == c.maxBin + 1 && idx < c.maxBin && s.free[idx] == {ptr} && 0 < Size(c, idx)
    ensures MergeBelow(c, s, idx, ptr) == s
  {
    hide Size, Merge;
    JoinKnown(c, s.free[idx], idx, ptr);
    MergeOn(c, s, idx, ptr);
  }

  /** The free of the first of two blocks: what is free below the other one is one block. */
  lemma FirstFreed(c: Config, s: State, first: nat, k: nat)
    requires first < c.maxBin && k < c.maxBin && 0 < c.minSize && s.free == Stacks(c, first, k)
    ensures var idx := Serving(first, k);
            var s' := MergeBelow(c, AddFree(s, first, c.start), first, c.start);
            && s' == s.(free := s'.free, spare := s.spare + (idx - first)) && |s'.free| == c.maxBin + 1
            && forall j :: 0 <= j <= c.maxBin ==>
                 s'.free[j] == if k <= j < idx then {c.start + Size(c, idx) + Size(c, j)}
                               else if idx < j < c.maxBin then {c.start + Size(c, j)}
                               else if j == idx then {c.start} else {}
  {
    hide Size, Merge;
    var idx := Serving(first, k);
    SizePositive(c, idx);
    forall j | first <= j < idx
      ensures c.start != c.start + Size(c, j)
    {
      SizePositive(c, j);
    }
    Climb(c, s, c.start, first, idx, c.start);
    var t := AddFree(Emptied(s, first, idx), idx, c.start).(spare := s.spare + (idx - first));
    assert t.free[idx] == {c.start};
    Stays(c, t, idx, c.start);
  }

  /** The free of the second block after that of the first. */
  lemma SecondFreed(c: Config, s: State, first: nat, k: nat)
    requires first < c.maxBin && k < c.maxBin && 0 < c.minSize && 0 < c.start && |s.free| == c.maxBin + 1
    requires var idx := Serving(first, k);
             forall j :: 0 <= j <= c.maxBin ==>
               s.free[j] == if k <= j < idx then {c.start + Size(c, idx) + Size(c, j)}
                            else if idx < j < c.maxBin then {c.start + Size(c, j)}
                            else if j == idx then {c.start} else {}
    ensures var idx := Serving(first, k);
            var q := c.start + Size(c, idx);
            MergeBelow(c, AddFree(s, k, q), k, q) == s.(free := Initial(c).free, spare := s.spare + (c.maxBin - k))
  {
    hide Size, Merge;
    var idx := Serving(first, k);
    var q := c.start + Size(c, idx);
    forall j | k <= j < idx
      ensures q != q + Size(c, j)
    {
      SizePositive(c, j);
    }
    Climb(c, s, q, k, idx, q);
    LadderMerges(c, Emptied(s, k, idx).(spare := s.spare + (idx - k)), idx);
  }

  lemma WordLess(heap: nat, size: nat)
    requires heap < WORD && size < WORD
    ensures HeapLess(heap, size) == if size <= heap then heap - size else heap + WORD - size
  {
  }

  lemma WordSum(a: nat, b: nat)
    requires a < WORD && b < WORD
    ensures (a + b) % WORD == if a + b < WORD then a + b else a + b - WORD
  {
  }

  lemma HeapBoth(heap: nat, x: nat, y: nat)
    requires heap < WORD && x < WORD && y < WORD
    ensures ((HeapLess(HeapLess(heap, x), y) + x) % WORD + y) % WORD == heap
  {
    hide HeapLess;
    WordLess(heap, x);
    WordLess(HeapLess(heap, x), y);
    var h := HeapLess(HeapLess(heap, x), y);
    WordSum(h, x);
    WordSum((h + x) % WORD, y);
  }

  /** Of a new pool: two requests that succeed, whatever their sizes, and the frees of their blocks in either
      order, restore the state after sw_buddy_init. */
  lemma PairRestores(c: Config, size1: bv32, size2: bv32)
    requires ValidConfig(c) && Alloc(c, Initial(c), size1).1.Some?
    requires Alloc(c, Alloc(c, Initial(c), size1).0, size2).1.Some?
    ensures var (s1, p) := Alloc(c, Initial(c), size1);
            var (s2, q) := Alloc(c, s1, size2);
            && Release(c, Release(c, s2, q.value), p.value) == Initial(c)
            && Release(c, Release(c, s2, p.value), q.value) == Initial(c)
  {
    hide Alloc, NextPow, Val, BinOf, Size, Release, Inv, Merge, HeapLess, Initial, FirstBin, Stack, Stacks;
    FirstServed(c, size1);
    var (s1, p) := Alloc(c, Initial(c), size1);
    var first, k := BinOf(c, Val(NextPow(size1))), BinOf(c, Val(NextPow(size2)));
    SecondServed(c, s1, size2, first);
    BackwardRestores(c, size1, size2, first, k);
    ForwardRestores(c, s1, Alloc(c, s1, size2).0, first, k);
  }

  lemma BackwardRestores(c: Config, size1: bv32, size2: bv32, first: nat, k: nat)
    requires ValidConfig(c) && Alloc(c, Initial(c), size1).1.Some? && Inv(c, Alloc(c, Initial(c), size1).0)
    requires Alloc(c, Alloc(c, Initial(c), size1).0, size2).1.Some?
    requires first == BinOf(c, Val(NextPow(size1))) < c.maxBin && k == BinOf(c, Val(NextPow(size2))) < c.maxBin
    requires FirstBin(Initial(c).free, first) == c.maxBin
    requires var (s1, p) := Alloc(c, Initial(c), size1);
             var idx := Serving(first, k);
             && s1.free == Stack(c, c.start, first) && FirstBin(s1.free, k) == idx && p.value == c.start
             && Alloc(c, s1, size2).1.value == c.start + Size(c, idx)
    ensures var (s1, p) := Alloc(c, Initial(c), size1);
            var (s2, q) := Alloc(c, s1, size2);
            Release(c, Release(c, s2, q.value), p.value) == Initial(c)
  {
    hide Alloc, NextPow, Val, BinOf, Size, Release, Inv, FirstBin, ValidConfig;
    var s1 := Alloc(c, Initial(c), size1).0;
    InitialSound(c);
    MinimumPositive(c);
    SizePositive(c, c.maxBin);
    SizePositive(c, Serving(first, k));
    AllocThenReleaseIff(c, Initial(c), size1);
    AllocThenReleaseIff(c, s1, size2);
  }

  lemma MinimumPositive(c: Config)
    requires ValidConfig(c)
    ensures 0 < c.minSize && 0 < c.start && c.memSize < WORD && 1 <= c.maxBin && 0 < c.total
  {
  }

  lemma ForwardRestores(c: Config, s1: State, s2: State, first: nat, k: nat)
    requires ValidConfig(c) && first < c.maxBin && k < c.maxBin && c.maxBin - first < c.total
    requires s1 == State(Stack(c, c.start, first), map[c.start := first], {}, c.total - 1 - (c.maxBin - first),
                         HeapLess(c.memSize, Size(c, first)))
    requires var idx := Serving(first, k);
             && c.start + Size(c, idx) !in s1.live && idx - k <= s1.spare
             && s2 == State(Stacks(c, first, k), s1.live[c.start + Size(c, idx) := k], s1.lost, s1.spare - (idx - k),
                            HeapLess(s1.heap, Size(c, k)))
    ensures Release(c, Release(c, s2, c.start), c.start + Size(c, Serving(first, k))) == Initial(c)
  {
    hide Size, Release, HeapLess, ValidConfig, MergeBelow, Stack, Stacks;
    MinimumPositive(c);
    var idx := Serving(first, k);
    var q := c.start + Size(c, idx);
    SizeWord(c, first);
    SizeWord(c, k);
    HeapBoth(c.memSize, Size(c, first), Size(c, k));
    ReleaseIs(c, s2, c.start);
    var t := s2.(live := s2.live - {c.start}, heap := (s2.heap + Size(c, first)) % WORD);
    FirstFreed(c, t, first, k);
    var s3 := Release(c, s2, c.start);
    assert s3.live == map[q := k];
    ReleaseIs(c, s3, q);
    SecondFreed(c, s3.(live := s3.live - {q}, heap := (s3.heap + Size(c, k)) % WORD), first, k);
    assert s3.live - {q} == map[];
  }
}
