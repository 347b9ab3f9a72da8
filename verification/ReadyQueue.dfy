/** The round-robin ready queue of global.c, scheduler.c and task.c, on task ids: what each operation
    does to the queue, the current task and the task states, and what holds over every run. */
module ReadyQueue {

  datatype Run = Suspend | Wait | Ready | Running

  /** tasks is the task list with the state of each task; current may name a task that is gone. */
  datatype Sys = Sys(ready: seq<int>, current: int, tasks: map<int, Run>)

  datatype Pick = None | Some(id: int)

  /** The current task, if it is in the task list, may go on running. */
  predicate Runnable(s: Sys) {
    s.current in s.tasks && s.tasks[s.current] != Wait && s.tasks[s.current] != Suspend
  }

  /** schedule_task */
  function Enqueue(ready: seq<int>, id: int): seq<int> {
    if id in ready then ready else ready + [id]
  }

  /** get_next_task, CONFIG_MULTI_GUESTS_SUPPORT being off: the pick and the new queue. */
  function GetNext(s: Sys): (Pick, seq<int>) {
    if s.ready == [] then
      (if Runnable(s) then Some(s.current) else None, [])
    else
      (Some(s.ready[0]), if Runnable(s) then Enqueue(s.ready[1..], s.current) else s.ready[1..])
  }

  /** The current task is listed as ready or running. */
  predicate Listed(s: Sys) {
    s.current in s.tasks && s.tasks[s.current] in {Ready, Running}
  }

  /** What get_next_task returns and leaves: the head of the queue, or the current task if it is ready or
      running; and only such a current task goes to the end of the queue, where it was not queued. */
  lemma NextIs(s: Sys)
    ensures var (pick, ready) := GetNext(s);
            && (s.ready == [] ==> ready == [] && pick == if Listed(s) then Some(s.current) else None)
            && (s.ready != [] ==> pick == Some(s.ready[0]) && s.ready[1..] <= ready)
            && (s.ready != [] ==> (ready == s.ready[1..] <==> !Listed(s) || s.current in s.ready[1..]))
            && (forall id :: id in ready ==> id in s.ready || (id == s.current && Listed(s)))
            && (s.ready != [] && ready != s.ready[1..] ==> ready == s.ready[1..] + [s.current])
  {
  }

  /** Drops the first id from the queue. */
  function Drop(ready: seq<int>, id: int): seq<int> {
    if ready == [] then [] else if ready[0] == id then ready[1..] else [ready[0]] + Drop(ready[1..], id)
  }

  /** One occurrence of the id goes, the first, and the others stay in order. */
  lemma {:induction false} DropsFirst(ready: seq<int>, id: int) returns (i: nat)
    ensures i <= |ready| && id !in ready[..i] && (i < |ready| ==> ready[i] == id)
    ensures Drop(ready, id) == if i < |ready| then ready[..i] + ready[i + 1..] else ready
  {
    if ready == [] || ready[0] == id {
      i := 0;
    } else {
      i := DropsFirst(ready[1..], id);
      i := i + 1;
      assert ready[..i] == [ready[0]] + ready[1..][..i - 1];
    }
  }

  datatype Event =
    | ScheduleId(id: int)                 // schedule_task_id
    | Start(id: int)                      // start_task
    | ScheduleNext(id: int)               // schedule_task_next
    | Halt(id: int, state: Run)           // suspend_task
    | Create(id: int)                     // create_task
    | Destroy(id: int)                    // destroy_task
    | Switch                              // scheduler

  /** The callers of suspend_task pass only these states; a task is created under an unused id;
      schedule_task_next, which does not look for duplicates, breaks the ring of a task that is queued
      (Scheduler), and is for tasks that are not. */
  predicate Allowed(s: Sys, e: Event) {
    match e
    case Halt(_, state) => state == Suspend || state == Wait
    case Create(id) => id !in s.tasks && id != -1
    case ScheduleNext(id) => id in s.tasks && id !in s.ready
    case _ => true
  }

  function Step(s: Sys, e: Event): Sys {
    match e
    case ScheduleId(id) =>
      if id in s.tasks then s.(tasks := s.tasks[id := Ready], ready := Enqueue(s.ready, id)) else s
    case Start(id) => if id in s.tasks then s.(ready := Enqueue(s.ready, id)) else s
    case ScheduleNext(id) => s.(ready := [id] + s.ready)
    case Halt(id, state) => SuspendTask(s, id, state)
    case Create(id) => s.(tasks := s.tasks[id := Suspend])
    case Destroy(id) =>
      if id in s.tasks then s.(ready := Drop(s.ready, id), tasks := s.tasks - {id}) else s
    case Switch => Scheduler(s)
  }

  /** suspend_task */
  function SuspendTask(s: Sys, id: int, state: Run): Sys {
    if id !in s.tasks then s
    else Sys(s.ready, if s.current == id && state == Suspend then -1 else s.current, s.tasks[id := state])
  }

  /** scheduler: only a change of task marks the new one as running. */
  function Scheduler(s: Sys): Sys {
    var (next, ready) := GetNext(s);
    if next.None? || (next.id == s.current && s.current in s.tasks) then s.(ready := ready)
    else Sys(ready, next.id, s.tasks[next.id := Running])
  }

  // ---- the tasks after an event ----

  /** The task that a scheduler call takes up: not the current one, which goes on as it is. */
  predicate TakenUp(s: Sys, e: Event, id: int) {
    e == Switch && GetNext(s).0 == Some(id) && !(id == s.current && id in s.tasks)
  }

  /** Which tasks are listed after an event, and in which state: a task is ready after it was scheduled by id,
      running when the scheduler takes it up, halted as asked, suspended when created; no other changes. */
  lemma StateAfter(s: Sys, e: Event, id: int)
    ensures var s' := Step(s, e);
            && (id in s'.tasks <==> (id in s.tasks && e != Destroy(id)) || e == Create(id) || TakenUp(s, e, id))
            && (id in s.tasks && e == ScheduleId(id) ==> s'.tasks[id] == Ready)
            && (id in s.tasks && e.Halt? && e.id == id ==> s'.tasks[id] == e.state)
            && (e == Create(id) ==> s'.tasks[id] == Suspend)
            && (TakenUp(s, e, id) ==> s'.tasks[id] == Running && s'.current == id)
            && (id in s.tasks && !Touches(s, e, id) ==> s'.tasks[id] == s.tasks[id])
  {
  }

  /** The events that may change the state of a task. */
  predicate Touches(s: Sys, e: Event, id: int) {
    match e
    case ScheduleId(x) => x == id
    case Halt(x, _) => x == id
    case Create(x) => x == id
    case Destroy(x) => x == id
    case Switch => TakenUp(s, e, id)
    case _ => false
  }

  /** The current task changes when the scheduler takes up another, and is none when it is suspended. */
  lemma CurrentAfter(s: Sys, e: Event)
    ensures var s' := Step(s, e);
            && (e == Halt(s.current, Suspend) && s.current in s.tasks ==> s'.current == -1)
            && (s'.current != s.current ==> e == Halt(s.current, Suspend) || TakenUp(s, e, s'.current))
            && (e == Switch && GetNext(s).0.Some? ==> s'.current == GetNext(s).0.id)
  {
  }

  ghost predicate Distinct(q: seq<int>) {
    forall i, j :: 0 <= i < j < |q| ==> q[i] != q[j]
  }

  /** No id is queued twice, queued tasks exist, and every task that is ready or running is either
      queued or current: none is lost. */
  ghost predicate Inv(s: Sys) {
    && Distinct(s.ready)
    && (forall id :: id in s.ready ==> id in s.tasks)
    && -1 !in s.tasks
    && forall id :: id in s.tasks && (s.tasks[id] == Ready || s.tasks[id] == Running) ==>
         id in s.ready || id == s.current
  }

  lemma EnqueueMembers(ready: seq<int>, id: int)
    requires Distinct(ready)
    ensures Distinct(Enqueue(ready, id))
    ensures forall x :: x in Enqueue(ready, id) <==> x in ready || x == id
  {
  }

  lemma {:induction false} DropMembers(ready: seq<int>, id: int)
    requires Distinct(ready)
    ensures Distinct(Drop(ready, id))
    ensures forall x :: x in Drop(ready, id) <==> x in ready && x != id
  {
    if ready != [] {
      DropMembers(ready[1..], id);
      assert forall x :: x in ready <==> x == ready[0] || x in ready[1..];
      assert ready[0] !in ready[1..];
    }
  }

  lemma StepKeeps(s: Sys, e: Event)
    requires Inv(s) && Allowed(s, e)
    ensures Inv(Step(s, e))
  {
    match e
    case ScheduleId(id) => EnqueueMembers(s.ready, id);
    case Start(id) => EnqueueMembers(s.ready, id);
    case ScheduleNext(id) =>
    case Halt(id, state) =>
    case Create(id) =>
    case Destroy(id) => DropMembers(s.ready, id);
    case Switch => SchedulerKeeps(s);
  }

  lemma SchedulerKeeps(s: Sys)
    requires Inv(s)
    ensures Inv(Scheduler(s))
  {
    if s.ready != [] {
      assert forall x :: x in s.ready <==> x == s.ready[0] || x in s.ready[1..];
      EnqueueMembers(s.ready[1..], s.current);
    }
  }

  ghost predicate AllowedRun(s: Sys, es: seq<Event>)
    decreases es
  {
    es == [] || (Allowed(s, es[0]) && AllowedRun(Step(s, es[0]), es[1..]))
  }

  function Exec(s: Sys, es: seq<Event>): Sys
    decreases es
  {
    if es == [] then s else Exec(Step(s, es[0]), es[1..])
  }

  /** From the boot state on, over every run: no id queued twice, no runnable task lost. */
  lemma {:induction false} RunKeeps(s: Sys, es: seq<Event>)
    requires Inv(s) && AllowedRun(s, es)
    ensures Inv(Exec(s, es))
    decreases es
  {
    if es != [] {
      StepKeeps(s, es[0]);
      RunKeeps(Step(s, es[0]), es[1..]);
    }
  }

  // ---- bounded waiting ----

  /** What the calls of get_next_task in a run returned. */
  function Picks(s: Sys, es: seq<Event>): seq<Pick>
    decreases es
  {
    if es == [] then [] else
      (if es[0] == Switch then [GetNext(s).0] else []) + Picks(Step(s, es[0]), es[1..])
  }

  predicate Overtakes(e: Event) {
    e.ScheduleNext? || e.Destroy?
  }

  function Switches(es: seq<Event>): nat {
    if es == [] then 0 else (if es[0] == Switch then 1 else 0) + Switches(es[1..])
  }

  function Picked(q: seq<int>): seq<Pick> {
    seq(|q|, i requires 0 <= i < |q| => Some(q[i]))
  }

  /** Without schedule_task_next and destroy_task, the queue is served in order: it is a prefix of
      what is returned followed by what is still queued. */
  lemma {:induction false} ServedInOrder(s: Sys, es: seq<Event>)
    requires forall e :: e in es ==> !Overtakes(e)
    ensures Picked(s.ready) <= Picks(s, es) + Picked(Exec(s, es).ready)
    ensures |Picks(s, es)| == Switches(es)
    decreases es
  {
    if es != [] {
      var t := Step(s, es[0]);
      assert es[0] in es && !Overtakes(es[0]);
      ServedInOrder(t, es[1..]);
      if es[0] == Switch {
        QueueAfterSwitch(s);
      } else {
        assert s.ready == t.ready[..|s.ready|];
        assert Picked(s.ready) == Picked(t.ready)[..|s.ready|];
      }
    }
  }

  lemma QueueAfterSwitch(s: Sys)
    ensures Picked(s.ready) <= [GetNext(s).0] + Picked(Scheduler(s).ready)
  {
  }

  /** Bounded waiting: a task at position i of the ready queue is what the (i + 1)-th call of
      get_next_task returns, whatever is scheduled, started or suspended in between. */
  lemma BoundedWaiting(s: Sys, es: seq<Event>, i: nat)
    requires i < |s.ready| && forall e :: e in es ==> !Overtakes(e)
    requires i < Switches(es)
    ensures i < |Picks(s, es)| && Picks(s, es)[i] == Some(s.ready[i])
  {
    ServedInOrder(s, es);
    var all := Picks(s, es) + Picked(Exec(s, es).ready);
    assert all[..|s.ready|][i] == all[i];
  }

  /** A task put first by schedule_task_next is the next one picked, before all that were queued. */
  lemma PutFirst(s: Sys, id: int)
    ensures var s' := Step(s, ScheduleNext(id));
            GetNext(s').0 == Some(id) && s'.ready[1..] == s.ready && s'.current == s.current
  {
  }

  // ---- waiting tasks stay out ----

  /** The task is not queued, and if it is listed it waits or is suspended. */
  predicate Out(s: Sys, id: int) {
    id !in s.ready && (id in s.tasks ==> s.tasks[id] in {Wait, Suspend})
  }

  predicate Wakes(e: Event, id: int) {
    e == ScheduleId(id) || e == Start(id) || e == ScheduleNext(id)
  }

  lemma OutStays(s: Sys, e: Event, id: int)
    requires Out(s, id) && Allowed(s, e) && !Wakes(e, id)
    ensures Out(Step(s, e), id) && (e == Switch ==> GetNext(s).0 != Some(id))
  {
    match e
    case Destroy(x) =>
      var i := DropsFirst(s.ready, x);
    case Switch =>
      NextIs(s);
    case _ =>
  }

  /** After a suspend_task that makes an unqueued task wait, the task is neither queued nor picked, whatever
      else happens, until it is scheduled or started. */
  lemma WaitingStaysOut(s: Sys, id: int, state: Run, es: seq<Event>)
    requires id in s.tasks && id !in s.ready && (state == Wait || state == Suspend)
    requires AllowedRun(Step(s, Halt(id, state)), es) && forall e :: e in es ==> !Wakes(e, id)
    ensures var s' := Step(s, Halt(id, state));
            && id !in Exec(s', es).ready && Some(id) !in Picks(s', es)
            && (id in Exec(s', es).tasks ==> Exec(s', es).tasks[id] in {Wait, Suspend})
  {
    StaysOut(Step(s, Halt(id, state)), id, es);
  }

  lemma {:induction false} StaysOut(s: Sys, id: int, es: seq<Event>)
    requires Out(s, id) && AllowedRun(s, es) && forall e :: e in es ==> !Wakes(e, id)
    ensures Out(Exec(s, es), id) && Some(id) !in Picks(s, es)
    decreases es
  {
    if es != [] {
      assert es[0] in es;
      OutStays(s, es[0], id);
      StaysOut(Step(s, es[0]), id, es[1..]);
    }
  }
}
