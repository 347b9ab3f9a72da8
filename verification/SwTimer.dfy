/** sw_timer.c: the queue of running timer events, ordered by expiry. */
module SwTimer {
  import opened TimeVal
  import opened SwLink

  const TIMEVAL_MAX: int := 0x7FFF_FFFF_0000_0000

  datatype State = Inactive | Active | Pending | Executing

  /** struct timer_event; the handler is told apart only by being there or not. */
  class TimerEvent {
    const node: Link
    const hasHandler: bool
    var timelen: int
    var state: State

    /** timer_event_create */
    constructor (handler: bool)
      ensures timelen == TIMEVAL_MAX && state == Inactive && hasHandler == handler && fresh(node)
    {
      node := new Link();
      hasHandler := handler;
      timelen := TIMEVAL_MAX;
      state := Inactive;
      new;
      LinkInit(node);
    }
  }

  /** The expiry times, in queue order. */
  function Times(q: seq<TimerEvent>): (ts: seq<int>)
    reads q`timelen
    ensures |ts| == |q| && forall i :: 0 <= i < |q| ==> ts[i] == q[i].timelen
  {
    if q == [] then [] else [q[0].timelen] + Times(q[1..])
  }

  /** Ascending in time, and at equal times in the order of the starts, which nos numbers. */
  ghost predicate Ordered(ts: seq<int>, nos: seq<nat>) {
    && |nos| == |ts|
    && forall i, j :: 0 <= i < j < |ts| ==> ts[i] < ts[j] || (ts[i] == ts[j] && nos[i] < nos[j])
  }

  ghost predicate Below(nos: seq<nat>, n: nat) {
    forall i :: 0 <= i < |nos| ==> nos[i] < n
  }

  /** The first element that is later than t. */
  function Slot(ts: seq<int>, t: int): (i: nat)
    ensures i <= |ts| && (forall j :: 0 <= j < i ==> ts[j] <= t) && (i < |ts| ==> t < ts[i])
  {
    if ts == [] || t < ts[0] then 0 else 1 + Slot(ts[1..], t)
  }

  /** An event that starts goes behind every event that is due no later, so the order is kept and
      equal times are served first come first served. */
  lemma SlotKeepsOrder(ts: seq<int>, nos: seq<nat>, t: int, n: nat)
    requires Ordered(ts, nos) && Below(nos, n)
    ensures var i := Slot(ts, t);
            Ordered(With(ts, i, t), With(nos, i, n)) && Below(With(nos, i, n), n + 1)
  {
    hide Slot;
    var i := Slot(ts, t);
    assert forall j :: i <= j < |ts| ==> t < ts[j] by {
      assert i < |ts| ==> t < ts[i];
    }
  }

  lemma WithoutKeepsOrder(ts: seq<int>, nos: seq<nat>, i: nat, n: nat)
    requires Ordered(ts, nos) && Below(nos, n) && i < |ts|
    ensures Ordered(Without(ts, i), Without(nos, i)) && Below(Without(nos, i), n)
  {
  }

  /** The test of timer_interrupt: not more than 1000 ns ahead. */
  predicate Due(expire: int, now: int) {
    var diff := SubtractTime(expire, now);
    !(Sec(diff) > 0 || (Sec(diff) == 0 && Nsec(diff) > 1000))
  }

  lemma DueTest(expire: int, now: int)
    ensures var diff := SubtractTime(expire, now);
            !Due(expire, now) <==> Sec(diff) > 0 || (Sec(diff) == 0 && Nsec(diff) > 1000)
  {
  }

  /** In nanoseconds, for proper times whose difference fits. */
  lemma DueIff(expire: int, now: int)
    requires Normal(expire) && Normal(now) && FitsWord(DiffSec(expire, now))
    ensures Due(expire, now) <==> Nanos(expire) - Nanos(now) <= 1000
  {
    SubtractExactIff(expire, now);
    hide SubtractTime, Signed32, Sec, DiffSec;
    assert 0 <= Nsec(SubtractTime(expire, now)) < NANO;
  }

  // ---- timer_queue_add, timer_queue_del, timer_queue_getnext, over the ring and the events it carries ----

  /** The ring is the sentinel and the nodes of the events, each leading back to its event. */
  ghost predicate Carries(ring: seq<Link>, head: Link, q: seq<TimerEvent>)
    reads ring
  {
    Ring(ring) && Labelled(ring, head, q)
  }

  ghost predicate Labelled(ring: seq<Link>, head: Link, q: seq<TimerEvent>)
    reads ring`data
  {
    && |ring| == |q| + 1 && ring[0] == head
    && forall i :: 0 <= i < |q| ==> ring[i + 1] == q[i].node && ring[i + 1].data == q[i]
  }

  lemma EventsDiffer(ring: seq<Link>, head: Link, q: seq<TimerEvent>)
    requires Carries(ring, head, q)
    ensures |ring| == |q| + 1 && forall i, j :: 0 <= i < j < |q| ==> q[i] != q[j]
  {
    forall i, j | 0 <= i < j < |q|
      ensures q[i] != q[j]
    {
      assert ring[i + 1] != ring[j + 1];
    }
  }

  lemma LabelledWith(ring: seq<Link>, head: Link, q: seq<TimerEvent>, k: nat, event: TimerEvent)
    requires Labelled(ring, head, q) && k <= |q| && event.node.data == event
    ensures Labelled(With(ring, k + 1, event.node), head, With(q, k, event))
  {
  }

  /** The links around the i-th event. */
  lemma RingAt(ring: seq<Link>, head: Link, q: seq<TimerEvent>, i: nat)
    requires Carries(ring, head, q) && i < |q|
    ensures |ring| == |q| + 1 && ring[i + 1] == q[i].node && q[i].node.data == q[i]
    ensures q[i].node == ring[1] <==> i == 0
    ensures q[i].node.next == if i + 1 < |q| then ring[i + 2] else head
    ensures i + 1 < |q| ==> ring[i + 2] != head && ring[i + 2].data == q[i + 1]
  {
  }

  lemma RingStart(ring: seq<Link>, head: Link, q: seq<TimerEvent>)
    requires Carries(ring, head, q)
    ensures |ring| == |q| + 1 && head.next == (if q == [] then head else ring[1]) && (q != [] ==> ring[1] != head)
  {
  }

  lemma SlotStep(ts: seq<int>, t: int, k: nat)
    requires k <= |ts|
    ensures k == |ts| ==> Slot(ts[k..], t) == 0
    ensures k < |ts| ==> Slot(ts[k..], t) == if t < ts[k] then 0 else 1 + Slot(ts[k + 1..], t)
    ensures Slot(ts[0..], t) == Slot(ts, t)
  {
    assert ts[0..] == ts;
    if k < |ts| {
      assert ts[k..][1..] == ts[k + 1..];
    }
  }

  lemma WithParts<T>(s: seq<T>, k: nat, x: T)
    requires k <= |s|
    ensures |With(s, k, x)| == |s| + 1 && forall y :: y in With(s, k, x) <==> y in s || y == x
  {
    var t := With(s, k, x);
    assert s == s[..k] + s[k..];
    assert t[k] == x;
  }

  lemma TimesWith(q: seq<TimerEvent>, k: nat, event: TimerEvent)
    requires k <= |q|
    ensures |Times(q)| == |q| && Times(With(q, k, event)) == With(Times(q), k, event.timelen)
  {
    hide Times;
    var ts, more := Times(q), Times(With(q, k, event));
    var with := With(ts, k, event.timelen);
    forall j | 0 <= j <= |q|
      ensures more[j] == with[j]
    {
    }
    assert more == with;
  }

  /** The queue of a timer after an insertion. */
  lemma InsertKeeps(ring: seq<Link>, head: Link, q: seq<TimerEvent>, nos: seq<nat>, starts: nat, k: nat, event: TimerEvent)
    requires |ring| == |q| + 1 && |nos| == |q| && Ordered(Times(q), nos) && Below(nos, starts)
    requires k == Slot(Times(q), event.timelen) <= |q|
    ensures |With(ring, k + 1, event.node)| == |With(q, k, event)| + 1 && |With(nos, k, starts)| == |With(q, k, event)|
    ensures Ordered(Times(With(q, k, event)), With(nos, k, starts)) && Below(With(nos, k, starts), starts + 1)
  {
    hide Ordered, Below, Times, Slot, With;
    SlotKeepsOrder(Times(q), nos, event.timelen, starts);
    TimesWith(q, k, event);
  }

  /** The walk of timer_queue_add: the node in front of which a time belongs. */
  method FindSlot(head: Link, timelen: int, ghost ring: seq<Link>, ghost q: seq<TimerEvent>)
    returns (l: Link, ghost k: nat)
    requires Carries(ring, head, q)
    ensures k == Slot(Times(q), timelen) <= |q| && |ring| == |q| + 1
    ensures l == if k < |q| then ring[k + 1] else head
  {
    hide Carries, Slot, Times;
    RingStart(ring, head, q);
    ghost var ts := Times(q);
    SlotStep(ts, timelen, 0);
    l := head.next;
    k := 0;
    while l != head
      invariant 0 <= k <= |q| && l == (if k < |q| then ring[k + 1] else head) && (k < |q| ==> l != head)
      invariant Slot(ts, timelen) == k + Slot(ts[k..], timelen)
      decreases |q| - k
    {
      RingAt(ring, head, q, k);
      SlotStep(ts, timelen, k);
      var temp := l.data as TimerEvent;
      if timelen < temp.timelen {
        break;
      }
      l := l.next;
      k := k + 1;
    }
    SlotStep(ts, timelen, k);
  }

  /** The node of the event enters the ring in front of the first later one. */
  method Enqueue(head: Link, event: TimerEvent, ghost ring: seq<Link>, ghost q: seq<TimerEvent>)
    returns (ghost k: nat)
    requires Carries(ring, head, q) && event.node !in ring
    modifies ring`next, ring`prev, event.node
    ensures k == Slot(Times(q), event.timelen) <= |q| && k < |ring|
    ensures Carries(With(ring, k + 1, event.node), head, With(q, k, event))
  {
    hide Slot, Times, Ring;
    var l;
    l, k := FindSlot(head, event.timelen, ring, q);
    event.node.data := event;
    AddLink(l, event.node, Tail, ring, if k < |q| then k + 1 else 0);
    LabelledWith(ring, head, q, k, event);
    assert Ring(With(ring, k + 1, event.node));
  }

  /** The node of the i-th event leaves the ring. */
  method Dequeue(head: Link, node: Link, ghost ring: seq<Link>, ghost q: seq<TimerEvent>, ghost i: nat)
    requires Carries(ring, head, q) && i < |q| && node == q[i].node
    modifies ring`next, ring`prev
    ensures Carries(Without(ring, i + 1), head, Without(q, i))
  {
    hide Ring;
    RemoveLink(node, ring, i + 1);
  }

  /** timer_queue_getnext */
  method QueueGetNext(head: Link, ghost ring: seq<Link>, ghost q: seq<TimerEvent>) returns (next: Link?)
    requires Carries(ring, head, q)
    ensures |ring| == |q| + 1 && next == if q == [] then null else ring[1]
  {
    var empty := LinkEmpty(head, ring);
    if empty {
      next := null;
    } else {
      next := head.next;
    }
  }

  /** idx are the positions below k in q of the events that have a handler, in order, each once. */
  ghost predicate WithHandler(q: seq<TimerEvent>, k: nat, idx: seq<nat>)
    requires k <= |q|
  {
    && (forall i, j :: 0 <= i < j < |idx| ==> idx[i] < idx[j])
    && (forall i :: 0 <= i < |idx| ==> idx[i] < k && q[idx[i]].hasHandler)
    && (forall n: nat :: n < k && q[n].hasHandler ==> n in idx)
  }

  /** The events at the positions idx were added to those called before. */
  ghost predicate CalledAt(before: seq<TimerEvent>, q: seq<TimerEvent>, idx: seq<nat>, called: seq<TimerEvent>) {
    && |called| == |before| + |idx| && before <= called
    && forall i :: 0 <= i < |idx| ==> idx[i] < |q| && called[|before| + i] == q[idx[i]]
  }

  lemma NoneFired(called: seq<TimerEvent>, q: seq<TimerEvent>)
    ensures WithHandler(q, 0, []) && CalledAt(called, q, [], called)
  {
  }

  /** One more event has fired. */
  lemma FiredStep(before: seq<TimerEvent>, q: seq<TimerEvent>, k: nat, idx: seq<nat>, called: seq<TimerEvent>)
    requires k < |q| && WithHandler(q, k, idx) && CalledAt(before, q, idx, called)
    ensures q[k].hasHandler ==> WithHandler(q, k + 1, idx + [k]) && CalledAt(before, q, idx + [k], called + [q[k]])
    ensures !q[k].hasHandler ==> WithHandler(q, k + 1, idx)
  {
    if q[k].hasHandler {
      var more := idx + [k];
      assert more[|idx|] == k;
      forall n: nat | n < k + 1 && q[n].hasHandler
        ensures n in more
      {
        assert n < k ==> n in idx;
      }
    }
  }

  /** The tick timer: global_val.timer_cpu_info and clock_info[SW_TICKTIMER].  clock(k) is the k-th
      reading of read_timestamp; armedFor is the time the tick hardware was last programmed for. */
  class TickTimer {
    const active: Link
    const clock: nat -> int
    var readings: nat
    var nextTimelen: int
    var numEvents: nat
    var armedFor: int
    /** The events whose handler was called, in order. */
    var called: seq<TimerEvent>
    /** The events of the queue, the nodes of the sentinel and of the queue, the number each event
        of the queue got when it was started, and the number of starts. */
    ghost var queue: seq<TimerEvent>
    ghost var ring: seq<Link>
    ghost var nos: seq<nat>
    ghost var starts: nat

    /** init_sw_timer */
    constructor (clock: nat -> int)
      ensures Valid() && queue == [] && called == [] && nextTimelen == TIMEVAL_MAX && fresh(active)
    {
      active := new Link();
      this.clock := clock;
      readings, numEvents, armedFor := 0, 0, TIMEVAL_MAX;
      nextTimelen := TIMEVAL_MAX;
      called, queue, nos, starts := [], [], [], 0;
      new;
      LinkInit(active);
      ring := [active];
    }

    /** The queue is held by an intact ring and ordered by expiry, then by start. */
    ghost predicate Intact()
      reads this`queue, this`ring, this`nos, this`starts, ring, queue`timelen
    {
      && Carries(ring, active, queue)
      && |ring| == |queue| + 1 && |nos| == |queue|
      && Ordered(Times(queue), nos) && Below(nos, starts)
    }

    /** The invariant. */
    ghost predicate Valid()
      reads this`queue, this`ring, this`nos, this`starts, ring, queue
    {
      Intact() && forall e :: e in queue ==> e.state == Active
    }

    lemma Differ()
      requires Valid()
      ensures forall i, j :: 0 <= i < j < |queue| ==> queue[i] != queue[j]
    {
      EventsDiffer(ring, active, queue);
    }

    /** read_timestamp */
    method ReadTimestamp() returns (now: int)
      modifies this`readings
      ensures now == clock(old(readings)) && readings == old(readings) + 1
    {
      now := clock(readings);
      readings := readings + 1;
    }

    /** program_tick_for_event */
    method ProgramTick(timelen: int)
      modifies this`readings, this`nextTimelen, this`armedFor
      ensures nextTimelen == armedFor == timelen && readings == old(readings) + 1
    {
      var now := ReadTimestamp();
      nextTimelen := timelen;
      armedFor := timelen;
    }

    /** timer_queue_add */
    method QueueAdd(event: TimerEvent)
      requires Valid() && event !in queue && event.node !in ring
      modifies this`queue, this`ring, this`nos, this`starts, event`state, event.node, ring`next, ring`prev
      ensures Valid() && event.state == Active && ring == With(old(ring), 1 + Slot(old(Times(queue)), event.timelen), event.node)
      ensures queue == With(old(queue), Slot(old(Times(queue)), event.timelen), event)
      ensures starts == old(starts) + 1
    {
      hide Carries, Slot, Times, Ordered, Below, With;
      assert |ring| == |queue| + 1;
      var k := Enqueue(active, event, ring, queue);
      event.state := Active;
      assert forall e :: e in queue ==> e.state == Active;
      Record(event, k);
    }

    /** The event that is linked at place k counts as queued. */
    ghost method Record(event: TimerEvent, k: nat)
      requires |ring| == |queue| + 1 && |nos| == |queue| && Ordered(Times(queue), nos) && Below(nos, starts)
      requires k == Slot(Times(queue), event.timelen) <= |queue|
      requires Carries(With(ring, k + 1, event.node), active, With(queue, k, event))
      requires event.state == Active && forall e :: e in queue ==> e.state == Active
      modifies this`queue, this`ring, this`nos, this`starts
      ensures Valid() && queue == With(old(queue), k, event) && ring == With(old(ring), k + 1, event.node)
      ensures starts == old(starts) + 1
    {
      hide Carries, Slot, Times, Ordered, Below, With;
      InsertKeeps(ring, active, queue, nos, starts, k, event);
      WithParts(queue, k, event);
      ring := With(ring, k + 1, event.node);
      queue := With(queue, k, event);
      nos := With(nos, k, starts);
      starts := starts + 1;
    }

    /** timer_queue_del */
    method QueueDel(event: TimerEvent, ghost i: nat)
      requires Intact() && i < |queue| && queue[i] == event
      modifies this`queue, this`ring, this`nos, event`state, ring`next, ring`prev
      ensures Intact() && event.state == Inactive && event !in queue
      ensures queue == Without(old(queue), i) && ring == Without(old(ring), i + 1)
    {
      hide Carries, Times, Ordered, Below;
      EventsDiffer(ring, active, queue);
      Dequeue(active, event.node, ring, queue, i);
      event.state := Inactive;
      WithoutKeepsOrder(Times(queue), nos, i, starts);
      ghost var before := Times(queue);
      ring := Without(ring, i + 1);
      queue := Without(queue, i);
      nos := Without(nos, i);
      assert Times(queue) == Without(before, i);
    }

    /** timer_event_start, for an event that is not in a queue; the caller's time is overwritten. */
    method Start(event: TimerEvent, time: int) returns (time': int)
      requires Valid() && event.state == Inactive && event.node !in ring
      modifies this, event`state, event`timelen, event.node, ring`next, ring`prev
      ensures Valid() && event.state == Active && called == old(called)
      ensures time' == event.timelen == AddTime(clock(old(readings)), time)
      ensures queue == With(old(queue), Slot(old(Times(queue)), time'), event)
      ensures nextTimelen == if time' < old(nextTimelen) then time' else old(nextTimelen)
      ensures armedFor == if time' < old(nextTimelen) then time' else old(armedFor)
    {
      hide Carries, Slot, Times, Ordered, Below, AddTime;
      var now := ReadTimestamp();
      time' := AddTime(now, time);
      event.timelen := time';
      QueueAdd(event);
      if nextTimelen > event.timelen {
        ProgramTick(event.timelen);
      }
    }

    /** The part of timer_event_stop that comes before the removal: if the tick is set for the event
        at the head, it is set for the next one. */
    method RearmPast(event: TimerEvent, ghost i: nat)
      requires Valid() && i < |queue| && queue[i] == event
      modifies this`readings, this`nextTimelen, this`armedFor
      ensures Valid()
      ensures nextTimelen ==
              if i == 0 && event.timelen == old(nextTimelen) then
                (if |queue| == 1 then TIMEVAL_MAX else queue[1].timelen)
              else old(nextTimelen)
      ensures armedFor == if nextTimelen == old(nextTimelen) then old(armedFor) else nextTimelen
    {
      hide Ordered, Below;
      var first := QueueGetNext(active, ring, queue);
      RingAt(ring, active, queue, i);
      if event.node == first {
        if event.timelen == nextTimelen {
          var next;
          if event.node.next == active {
            next := TIMEVAL_MAX;
          } else {
            next := (event.node.next.data as TimerEvent).timelen;
          }
          if next != nextTimelen {
            ProgramTick(next);
          }
        }
      }
    }

    /** timer_event_stop */
    method Stop(event: TimerEvent, ghost i: nat)
      requires Valid() && (event.state == Active ==> i < |queue| && queue[i] == event)
      modifies this, event`state, ring`next, ring`prev
      ensures Valid() && called == old(called)
      ensures old(event.state) == Active ==> event.state == Inactive && queue == Without(old(queue), i)
      ensures old(event.state) == Active ==>
                nextTimelen ==
                if i == 0 && event.timelen == old(nextTimelen) then
                  (if queue == [] then TIMEVAL_MAX else queue[0].timelen)
                else old(nextTimelen)
      ensures old(event.state) != Active ==>
                event.state == old(event.state) && queue == old(queue) && nextTimelen == old(nextTimelen)
      ensures armedFor == if nextTimelen == old(nextTimelen) then old(armedFor) else nextTimelen
    {
      hide Carries, Times, Ordered, Below;
      if event.state == Pending {
        return;
      }
      if event.state == Active {
        RearmPast(event, i);
        QueueDel(event, i);
      }
    }

    /** exec_timer_handler, for a handler that leaves the timers alone: the head leaves the queue and
        its handler, if any, is called. */
    method ExecHandler(event: TimerEvent)
      requires Intact() && queue != [] && queue[0] == event
      modifies this`numEvents, this`called, this`queue, this`ring, this`nos, event`state, ring`next, ring`prev
      ensures Intact() && event.state == Inactive && event !in queue && numEvents == old(numEvents) + 1
      ensures queue == old(queue)[1..] && ring == Without(old(ring), 1)
      ensures called == if event.hasHandler then old(called) + [event] else old(called)
    {
      hide Carries, Times, Ordered, Below;
      numEvents := numEvents + 1;
      QueueDel(event, 0);
      if event.hasHandler {
        called := called + [event];
      }
    }

    /** timer_queue_getnext, and the event that the node leads to. */
    method First() returns (event: TimerEvent?)
      requires Valid()
      ensures event == (if queue == [] then null else queue[0])
    {
      var node := QueueGetNext(active, ring, queue);
      if node == null {
        return null;
      }
      RingAt(ring, active, queue, 0);
      return node.data as TimerEvent;
    }

    /** The first k events of q have become inactive. */
    ghost predicate AllInactive(q: seq<TimerEvent>, k: nat)
      requires k <= |q|
      reads q`state
    {
      forall i :: 0 <= i < k ==> q[i].state == Inactive
    }

    /** The first k events of q were due at as many readings of the clock. */
    ghost predicate AllDue(q: seq<TimerEvent>, k: nat, first: nat)
      requires k <= |q|
      reads q`timelen
    {
      forall i :: 0 <= i < k ==> Due(q[i].timelen, clock(first + i))
    }

    lemma NoneYet(q: seq<TimerEvent>, first: nat)
      ensures AllDue(q, 0, first) && AllInactive(q, 0)
    {
    }

    lemma DueStep(q: seq<TimerEvent>, k: nat, first: nat)
      requires k < |q| && AllDue(q, k, first) && Due(q[k].timelen, clock(first + k))
      ensures AllDue(q, k + 1, first)
    {
      hide Due;
    }

    /** A round of timer_interrupt, for the head of the queue: it fires, or the tick is set for it. */
    method FireOrArm(event: TimerEvent, next: int, ghost nodes: set<Link>, ghost q: seq<TimerEvent>, ghost k: nat)
      returns (fired: bool)
      requires k < |q| && q[k] == event && AllInactive(q, k) && forall i, j :: 0 <= i < j < |q| ==> q[i] != q[j]
      requires Valid() && queue != [] && queue[0] == event && forall l :: l in ring ==> l in nodes
      modifies this, event`state, nodes`next, nodes`prev
      ensures Valid() && forall l :: l in ring ==> l in nodes
      ensures fired <==> Due(event.timelen, clock(old(readings)))
      ensures AllInactive(q, if fired then k + 1 else k)
      ensures fired ==> queue == old(queue)[1..] && event.state == Inactive
      ensures fired ==> readings == old(readings) + 1 && armedFor == old(armedFor)
      ensures fired ==> numEvents == old(numEvents) + 1
      ensures fired ==> called == if event.hasHandler then old(called) + [event] else old(called)
      ensures !fired ==> queue == old(queue) && event.state == old(event.state)
      ensures !fired ==> numEvents == old(numEvents) && called == old(called)
      ensures !fired ==> armedFor == if event.timelen < next then event.timelen else next
    {
      hide Carries, Times, Ordered, Below, Due, SubtractTime, Sec, Nsec;
      var now := ReadTimestamp();
      var diff := SubtractTime(event.timelen, now);
      DueTest(event.timelen, now);
      if Sec(diff) > 0 || (Sec(diff) == 0 && Nsec(diff) > 1000) {
        ProgramTick(if event.timelen < next then event.timelen else next);
        return false;
      }
      event.state := Executing;
      ExecHandler(event);
      return true;
    }

    /** The interrupt has come as far as event k of the queue q it found; first, count, armed and before are
        what readings, numEvents, armedFor and called were then. */
    ghost predicate Progress(q: seq<TimerEvent>, k: nat, idx: seq<nat>, first: nat, count: nat, armed: int,
                             before: seq<TimerEvent>)
      requires k <= |q|
      reads this, ring, queue, q
    {
      && Valid() && queue == q[k..] && numEvents == count + k && readings == first + k && armedFor == armed
      && WithHandler(q, k, idx) && CalledAt(before, q, idx, called)
      && AllDue(q, k, first) && AllInactive(q, k)
    }

    lemma ProgressStarts()
      requires Valid()
      ensures Progress(queue, 0, [], readings, numEvents, armedFor, called)
    {
      hide Valid, WithHandler, CalledAt;
      NoneYet(queue, readings);
      NoneFired(called, queue);
    }

    /** Event k fires, or the interrupt ends with it. */
    method Round(event: TimerEvent, ghost nodes: set<Link>, ghost q: seq<TimerEvent>, ghost k: nat, ghost idx: seq<nat>,
                 ghost first: nat, ghost count: nat, ghost armed: int, ghost before: seq<TimerEvent>)
      returns (fired: bool, ghost idx': seq<nat>)
      requires k < |q| && q[k] == event && forall i, j :: 0 <= i < j < |q| ==> q[i] != q[j]
      requires Progress(q, k, idx, first, count, armed, before) && forall l :: l in ring ==> l in nodes
      modifies this, event`state, nodes`next, nodes`prev
      ensures forall l :: l in ring ==> l in nodes
      ensures fired ==> Progress(q, k + 1, idx', first, count, armed, before)
      ensures !fired ==>
                && Valid() && queue == q[k..] && numEvents == count + k && idx' == idx
                && WithHandler(q, k, idx) && CalledAt(before, q, idx, called) && AllDue(q, k, first) && AllInactive(q, k)
                && !Due(event.timelen, clock(first + k))
                && armedFor == if event.timelen < TIMEVAL_MAX then event.timelen else TIMEVAL_MAX
    {
      hide Valid, Due, WithHandler, CalledAt, AllDue, AllInactive;
      assert q[k..][1..] == q[k + 1..] && q[k..][0] == q[k];
      idx' := idx;
      FiredStep(before, q, k, idx, called);
      fired := FireOrArm(event, TIMEVAL_MAX, nodes, q, k);
      if fired {
        DueStep(q, k, first);
        if q[k].hasHandler {
          idx' := idx + [k];
        }
      }
    }

    /** timer_interrupt: a prefix of the queue fires, in queue order, as far as events are due when the
        clock is read for them, and those of them that have a handler, at the positions idx, are called; if
        an event is left, the tick was programmed for it last. */
    method Interrupt() returns (ghost k: nat, ghost idx: seq<nat>)
      requires Valid()
      modifies this, queue`state, ring`next, ring`prev
      ensures Valid() && k <= |old(queue)| && queue == old(queue)[k..] && numEvents == old(numEvents) + k
      ensures WithHandler(old(queue), k, idx) && CalledAt(old(called), old(queue), idx, called)
      ensures AllDue(old(queue), k, old(readings)) && AllInactive(old(queue), k)
      ensures queue != [] ==> !Due(queue[0].timelen, clock(old(readings) + k))
      ensures queue != [] ==> armedFor == if queue[0].timelen < TIMEVAL_MAX then queue[0].timelen else TIMEVAL_MAX
      ensures queue == [] ==> armedFor == old(armedFor)
      ensures nextTimelen == TIMEVAL_MAX
    {
      hide Valid, Due, WithHandler, CalledAt, AllDue, AllInactive;
      ghost var q, nodes: set<Link> := queue, set l | l in ring;
      Differ();
      k, idx := 0, [];
      ProgressStarts();
      var event := First();
      while event != null
        invariant k <= |q| && Progress(q, k, idx, old(readings), old(numEvents), old(armedFor), old(called))
        invariant event == if queue == [] then null else queue[0]
        invariant forall l :: l in ring ==> l in nodes
        decreases |q| - k
      {
        var fired;
        fired, idx := Round(event, nodes, q, k, idx, old(readings), old(numEvents), old(armedFor), old(called));
        if !fired {
          break;
        }
        k := k + 1;
        event := First();
      }
      nextTimelen := TIMEVAL_MAX;
    }
  }
}
