/** global.c, scheduler.c and the list steps of task.c: tasks on two intrusive rings, the task list
    and the ready list. */
module Scheduler {
  import opened SwLink
  import opened ReadyQueue

  /** The fields of struct sw_task that scheduling uses; the links are embedded. */
  class Task {
    const taskId: int
    const head: Link
    const readyHead: Link
    var state: Run

    constructor (id: int)
      ensures taskId == id && state == Suspend && fresh(head) && fresh(readyHead) && head != readyHead
      ensures Ring([head]) && Ring([readyHead])
    {
      taskId := id;
      head := new Link();
      readyHead := new Link();
      state := Suspend;
      new;
      LinkInit(head);
      LinkInit(readyHead);
    }
  }

  // ---- a sentinel ring and the tasks its nodes lead to ----

  /** The ring is the sentinel and one node for each task of q, leading to it. */
  ghost predicate Carries(ring: seq<Link>, sentinel: Link, q: seq<Task>)
    reads ring
  {
    Ring(ring) && Labelled(ring, sentinel, q)
  }

  ghost predicate Labelled(ring: seq<Link>, sentinel: Link, q: seq<Task>)
    reads ring`data
  {
    && |ring| == |q| + 1 && ring[0] == sentinel
    && forall i :: 0 <= i < |q| ==> ring[i + 1].data == q[i]
  }

  function Ids(q: seq<Task>): (r: seq<int>)
    ensures |r| == |q| && forall i :: 0 <= i < |q| ==> r[i] == q[i].taskId
  {
    seq(|q|, i requires 0 <= i < |q| => q[i].taskId)
  }

  /** The position of the first task with an id, or the length. */
  function Find(q: seq<Task>, id: int): (k: nat)
    ensures k <= |q| && (forall i :: 0 <= i < k ==> q[i].taskId != id)
    ensures k < |q| ==> q[k].taskId == id
  {
    if q == [] || q[0].taskId == id then 0 else 1 + Find(q[1..], id)
  }

  /** The walk every operation makes: the first task with an id, and its node; null if there is none. */
  method FindTask(sentinel: Link, id: int, ghost ring: seq<Link>, ghost q: seq<Task>)
    returns (task: Task?, l: Link, ghost k: nat)
    requires Carries(ring, sentinel, q)
    ensures k == Find(q, id) && |ring| == |q| + 1
    ensures if k < |q| then task == q[k] && l == ring[k + 1] else task == null && l == sentinel
    ensures if task == null then l == sentinel && id !in Ids(q) else task in q && task.taskId == id
  {
    l := sentinel.next;
    k := 0;
    while l != sentinel
      invariant 0 <= k <= |q| && l == (if k < |q| then ring[k + 1] else sentinel)
      invariant Find(q, id) == k + Find(q[k..], id)
      decreases |q| - k
    {
      task := l.data as Task;
      if task.taskId == id {
        return;
      }
      l := l.next;
      k := k + 1;
    }
    task := null;
  }

  method IsEmpty(sentinel: Link, ghost ring: seq<Link>, ghost q: seq<Task>) returns (empty: bool)
    requires Carries(ring, sentinel, q)
    ensures empty <==> q == []
  {
    empty := LinkEmpty(sentinel, ring);
  }

  /** The first node of a list that is not empty, and its task. */
  method FirstNode(sentinel: Link, ghost ring: seq<Link>, ghost q: seq<Task>) returns (l: Link, task: Task)
    requires Carries(ring, sentinel, q) && q != []
    ensures |ring| == |q| + 1 && l == ring[1] && task == q[0]
  {
    l := sentinel.next;
    assert l == ring[1] && ring[0 + 1].data == q[0];
    task := l.data as Task;
  }

  /** A node that leads to a task is added at either end of the list; if it is in the list already,
      the sentinel heads no ring after an addition in front. */
  method AddEnd(sentinel: Link, node: Link, task: Task, pos: Pos, ghost ring: seq<Link>, ghost q: seq<Task>)
    requires Carries(ring, sentinel, q) && node != sentinel
    modifies ring`next, ring`prev, node
    ensures node !in ring && pos == Tail ==> Carries(ring + [node], sentinel, q + [task])
    ensures node !in ring && pos == Head ==> Carries([sentinel, node] + ring[1..], sentinel, [task] + q)
    ensures pos == Head ==> ((exists r: seq<Link> :: r != [] && r[0] == sentinel && Ring(r)) <==> node !in ring)
  {
    hide Ring, Labelled, With, Circles;
    HeadOf(ring, sentinel, q);
    node.data := task;
    if node !in ring {
      LabelledAdd(ring, sentinel, q, node, task);
    }
    AddLink(sentinel, node, pos, ring, 0);
    WithEnds(ring, node);
  }

  lemma WithEnds(ring: seq<Link>, node: Link)
    requires ring != []
    ensures With(ring, |ring|, node) == ring + [node] && With(ring, 1, node) == [ring[0], node] + ring[1..]
  {
  }

  lemma LabelledAdd(ring: seq<Link>, sentinel: Link, q: seq<Task>, node: Link, task: Task)
    requires Labelled(ring, sentinel, q) && node.data == task
    ensures Labelled(ring + [node], sentinel, q + [task])
    ensures Labelled([sentinel, node] + ring[1..], sentinel, [task] + q)
  {
  }

  /** The node of the k-th task leaves the list. */
  method Unlink(sentinel: Link, node: Link, ghost ring: seq<Link>, ghost q: seq<Task>, ghost k: nat)
    requires Carries(ring, sentinel, q) && k < |q| && ring[k + 1] == node
    modifies ring`next, ring`prev
    ensures Carries(Without(ring, k + 1), sentinel, Without(q, k))
  {
    hide Ring;
    RemoveLink(node, ring, k + 1);
  }

  function Index(ids: seq<int>, id: int): (k: nat)
    requires id in ids
    ensures k < |ids| && ids[k] == id
  {
    if ids[0] == id then 0 else 1 + Index(ids[1..], id)
  }

  function Zip(ids: seq<int>, states: seq<Run>): (m: map<int, Run>)
    requires |ids| == |states|
  {
    map id | id in ids :: states[Index(ids, id)]
  }

  /** The state of each task of the list. */
  function States(q: seq<Task>): map<int, Run>
    reads q`state
  {
    Zip(Ids(q), StateSeq(q))
  }

  lemma ZipAt(ids: seq<int>, states: seq<Run>, i: nat)
    requires |ids| == |states| && Distinct(ids) && i < |ids|
    ensures ids[i] in Zip(ids, states) && Zip(ids, states)[ids[i]] == states[i]
  {
  }

  lemma StateOf(q: seq<Task>, task: Task)
    requires Distinct(Ids(q)) && task in q
    ensures task.taskId in States(q) && States(q)[task.taskId] == task.state
  {
    var i :| 0 <= i < |q| && q[i] == task;
    ZipAt(Ids(q), StateSeq(q), i);
  }

  lemma ZipUpdate(ids: seq<int>, states: seq<Run>, i: nat, state: Run)
    requires |ids| == |states| && Distinct(ids) && i < |ids|
    ensures Zip(ids, states[i := state]) == Zip(ids, states)[ids[i] := state]
  {
    ZipAt(ids, states[i := state], i);
  }

  lemma TailIds(q: seq<Task>)
    requires q != []
    ensures Ids(q[1..]) == Ids(q)[1..]
  {
  }

  lemma SameTask(q: seq<Task>, t: Task, u: Task)
    requires Distinct(Ids(q)) && t in q && u in q
    ensures t == u <==> t.taskId == u.taskId
  {
    var i :| 0 <= i < |q| && q[i] == t;
    var j :| 0 <= j < |q| && q[j] == u;
    assert Ids(q)[i] == t.taskId && Ids(q)[j] == u.taskId;
  }

  lemma {:induction false} StateSeqNew(q: seq<Task>, task: Task)
    ensures StateSeq(q + [task]) == StateSeq(q) + [task.state]
  {
  }

  lemma ZipNew(ids: seq<int>, states: seq<Run>, id: int, state: Run)
    requires |ids| == |states| && Distinct(ids) && id !in ids
    ensures Zip(ids + [id], states + [state]) == Zip(ids, states)[id := state]
  {
    forall i | 0 <= i < |ids|
      ensures Zip(ids + [id], states + [state])[ids[i]] == states[i]
    {
      assert (ids + [id])[i] == ids[i];
      ZipAt(ids + [id], states + [state], i);
    }
    assert (ids + [id])[|ids|] == id;
    ZipAt(ids + [id], states + [state], |ids|);
  }

  lemma StatesNew(q: seq<Task>, task: Task)
    requires Distinct(Ids(q)) && task.taskId !in Ids(q)
    ensures States(q + [task]) == States(q)[task.taskId := task.state]
  {
    hide Zip;
    StateSeqNew(q, task);
    ZipNew(Ids(q), StateSeq(q), task.taskId, task.state);
    assert Ids(q + [task]) == Ids(q) + [task.taskId];
  }

  lemma StatesKeys(q: seq<Task>, id: int)
    ensures id in States(q) <==> id in Ids(q)
  {
  }

  lemma {:induction false} StateSeqGone(q: seq<Task>, k: nat)
    requires k < |q|
    ensures StateSeq(Without(q, k)) == Without(StateSeq(q), k)
  {
  }

  lemma WithoutMembers(ids: seq<int>, k: nat)
    requires Distinct(ids) && k < |ids|
    ensures forall id :: id in Without(ids, k) <==> id in ids && id != ids[k]
    ensures Distinct(Without(ids, k))
  {
    forall id | id in ids && id != ids[k]
      ensures id in Without(ids, k)
    {
      var i :| 0 <= i < |ids| && ids[i] == id;
      assert Without(ids, k)[if i < k then i else i - 1] == id;
    }
  }

  lemma ZipKeys(ids: seq<int>, states: seq<Run>)
    requires |ids| == |states|
    ensures Zip(ids, states).Keys == set id | id in ids
  {
  }

  lemma ZipGone(ids: seq<int>, states: seq<Run>, k: nat)
    requires |ids| == |states| && Distinct(ids) && k < |ids|
    ensures Zip(Without(ids, k), Without(states, k)) == Zip(ids, states) - {ids[k]}
  {
    hide Distinct, Zip;
    var ids', states' := Without(ids, k), Without(states, k);
    WithoutMembers(ids, k);
    ZipKeys(ids', states');
    ZipKeys(ids, states);
    forall id | id in ids'
      ensures Zip(ids', states')[id] == Zip(ids, states)[id]
    {
      var i := Index(ids', id);
      var j := if i < k then i else i + 1;
      assert ids'[i] == ids[j] && states'[i] == states[j];
      ZipAt(ids', states', i);
      ZipAt(ids, states, j);
    }
    assert (set id | id in ids') == (set id | id in ids) - {ids[k]};
    assert Zip(ids', states').Keys == (Zip(ids, states) - {ids[k]}).Keys;
  }

  lemma IdsGone(q: seq<Task>, k: nat)
    requires k < |q|
    ensures Ids(Without(q, k)) == Without(Ids(q), k)
  {
  }

  lemma StatesGone(q: seq<Task>, k: nat)
    requires Distinct(Ids(q)) && k < |q|
    ensures States(Without(q, k)) == States(q) - {q[k].taskId}
  {
    hide Zip, Ids, Without;
    StateSeqGone(q, k);
    ZipGone(Ids(q), StateSeq(q), k);
    IdsGone(q, k);
  }

  lemma WithoutTail(s: seq<int>, k: nat)
    requires k + 1 < |s|
    ensures Without(s, k + 1) == [s[0]] + Without(s[1..], k)
  {
  }

  lemma {:induction false} DropAt(ids: seq<int>, id: int)
    ensures Drop(ids, id) == if id in ids then Without(ids, Index(ids, id)) else ids
  {
    hide Without;
    if ids == [] {
    } else if ids[0] == id {
      assert Without(ids, 0) == ids[1..];
    } else {
      DropAt(ids[1..], id);
      assert ids == [ids[0]] + ids[1..];
      if id in ids {
        WithoutTail(ids, Index(ids[1..], id));
      }
    }
  }

  lemma {:induction false} FindIndex(q: seq<Task>, id: int)
    requires id in Ids(q)
    ensures Find(q, id) == Index(Ids(q), id)
  {
    if q[0].taskId != id {
      TailIds(q);
      FindIndex(q[1..], id);
    }
  }

  lemma DropIds(q: seq<Task>, id: int)
    ensures var k := Find(q, id);
            Drop(Ids(q), id) == if k < |q| then Ids(Without(q, k)) else Ids(q)
  {
    hide Ids, Without, Drop;
    FindIff(q, id);
    DropAt(Ids(q), id);
    if id in Ids(q) {
      FindIndex(q, id);
      IdsGone(q, Find(q, id));
    }
  }

  lemma FindIff(q: seq<Task>, id: int)
    ensures Find(q, id) < |q| <==> id in Ids(q)
  {
    var k := Find(q, id);
    if k < |q| {
      assert Ids(q)[k] == id;
    }
  }

  function StateSeq(q: seq<Task>): (r: seq<Run>)
    reads q`state
    ensures |r| == |q| && forall i :: 0 <= i < |q| ==> r[i] == q[i].state
  {
    if q == [] then [] else [q[0].state] + StateSeq(q[1..])
  }

  /** A task's state field changes; the states of the others do not. */
  method SetState(task: Task, state: Run, ghost q: seq<Task>)
    requires Distinct(Ids(q)) && task in q
    modifies task`state
    ensures task.state == state && States(q) == old(States(q))[task.taskId := state]
  {
    hide StateSeq, Zip;
    ghost var i :| 0 <= i < |q| && q[i] == task;
    ghost var before := StateSeq(q);
    assert forall j :: 0 <= j < |q| && j != i ==> Ids(q)[j] != Ids(q)[i];
    task.state := state;
    ZipUpdate(Ids(q), before, i, state);
    assert StateSeq(q) == before[i := state];
  }

  /** What the two rings have to do with each other: the links of a task are its own, and a task on
      the ready list is on the task list. */
  ghost predicate Shape(readyRing: seq<Link>, ready: seq<Task>, listRing: seq<Link>, tasks: seq<Task>) {
    && |readyRing| == |ready| + 1 && |listRing| == |tasks| + 1
    && (forall i :: 0 <= i < |ready| ==> readyRing[i + 1] == ready[i].readyHead && ready[i] in tasks)
    && (forall i :: 0 <= i < |tasks| ==> listRing[i + 1] == tasks[i].head)
    && (forall l :: l in readyRing ==> l !in listRing)
    && (forall t :: t in tasks ==> t.readyHead !in listRing && t.readyHead != readyRing[0])
    && (forall t, u :: t in tasks && u in tasks && t.readyHead == u.readyHead ==> t == u)
    && Distinct(Ids(tasks)) && Distinct(Ids(ready))
  }

  lemma OwnLink(readyRing: seq<Link>, ready: seq<Task>, listRing: seq<Link>, tasks: seq<Task>, task: Task)
    requires Shape(readyRing, ready, listRing, tasks) && task in tasks && task.taskId !in Ids(ready)
    ensures task.readyHead !in readyRing && task.readyHead !in listRing
    ensures forall l :: l in readyRing ==> l !in listRing
  {
    forall j | 0 < j < |readyRing|
      ensures readyRing[j] != task.readyHead
    {
      assert readyRing[j] == ready[j - 1].readyHead && ready[j - 1].taskId == Ids(ready)[j - 1];
    }
  }

  lemma WithoutFewer(ring: seq<Link>)
    ensures forall i {:trigger Without(ring, i)} | 0 <= i < |ring| :: forall l :: l in Without(ring, i) ==> l in ring
  {
  }

  lemma HeadOf(ring: seq<Link>, sentinel: Link, q: seq<Task>)
    requires Carries(ring, sentinel, q)
    ensures |ring| == |q| + 1 && ring[0] == sentinel
  {
  }

  lemma CarriesRing(ring: seq<Link>, sentinel: Link, q: seq<Task>)
    requires Carries(ring, sentinel, q)
    ensures Ring(ring) && ring != [] && ring[0] == sentinel
  {
  }

  /** A task of the list that is not queued enters the ready list at either end. */
  lemma ShapeAppend(readyRing: seq<Link>, ready: seq<Task>, listRing: seq<Link>, tasks: seq<Task>, task: Task)
    requires Shape(readyRing, ready, listRing, tasks) && task in tasks && task.taskId !in Ids(ready)
    ensures Shape(readyRing + [task.readyHead], ready + [task], listRing, tasks)
    ensures Ids(ready + [task]) == Ids(ready) + [task.taskId]
  {
  }

  lemma ShapePush(readyRing: seq<Link>, ready: seq<Task>, listRing: seq<Link>, tasks: seq<Task>, task: Task)
    requires Shape(readyRing, ready, listRing, tasks) && task in tasks && task.taskId !in Ids(ready)
    ensures |readyRing| > 0 && Shape([readyRing[0], task.readyHead] + readyRing[1..], [task] + ready, listRing, tasks)
    ensures Ids([task] + ready) == [task.taskId] + Ids(ready)
  {
  }

  lemma ShapeDrop(readyRing: seq<Link>, ready: seq<Task>, listRing: seq<Link>, tasks: seq<Task>, k: nat)
    requires Shape(readyRing, ready, listRing, tasks) && k < |ready|
    ensures |readyRing| == |ready| + 1 && Shape(Without(readyRing, k + 1), Without(ready, k), listRing, tasks)
    ensures forall l :: l in readyRing ==> l !in listRing
  {
  }

  lemma RingDiffers(ring: seq<Link>, sentinel: Link, q: seq<Task>, i: nat)
    requires Carries(ring, sentinel, q) && i < |ring|
    ensures ring[i] !in Without(ring, i)
  {
  }

  /** A new task, whose links are in neither ring, enters the task list. */
  lemma ShapeNew(readyRing: seq<Link>, ready: seq<Task>, listRing: seq<Link>, tasks: seq<Task>, task: Task)
    requires Shape(readyRing, ready, listRing, tasks) && task.taskId !in Ids(tasks)
    requires task.head !in readyRing && task.readyHead !in readyRing + listRing && task.head != task.readyHead
    requires forall t :: t in tasks ==> t.readyHead != task.readyHead && t.readyHead != task.head
    ensures Shape(readyRing, ready, listRing + [task.head], tasks + [task])
  {
  }

  /** A task that is not queued leaves the task list. */
  lemma ShapeGone(readyRing: seq<Link>, ready: seq<Task>, listRing: seq<Link>, tasks: seq<Task>, k: nat)
    requires Shape(readyRing, ready, listRing, tasks) && k < |tasks| && tasks[k].taskId !in Ids(ready)
    ensures |listRing| == |tasks| + 1 && listRing[k + 1] == tasks[k].head
    ensures Shape(readyRing, ready, Without(listRing, k + 1), Without(tasks, k))
    ensures Distinct(Ids(tasks)) && forall l :: l in readyRing ==> l !in listRing
  {
    forall t | t in ready
      ensures t in Without(tasks, k)
    {
      var i :| 0 <= i < |ready| && ready[i] == t;
      assert t.taskId == Ids(ready)[i];
      var j :| 0 <= j < |tasks| && tasks[j] == t;
      assert j != k;
      assert t == Without(tasks, k)[if j < k then j else j - 1];
    }
  }

  /** The node of a queued task is its own. */
  lemma QueuedLink(readyRing: seq<Link>, ready: seq<Task>, listRing: seq<Link>, tasks: seq<Task>, task: Task, k: nat)
    requires Shape(readyRing, ready, listRing, tasks) && k < |ready| && ready[k].taskId == task.taskId && task in tasks
    ensures |readyRing| == |ready| + 1 && ready[k] == task && readyRing[k + 1] == task.readyHead
    ensures task.readyHead !in listRing && forall l :: l in readyRing ==> l !in listRing
  {
    SameTask(tasks, ready[k], task);
  }

  /** A task of the list is queued exactly if its own node is in the ready ring. */
  lemma QueuedIff(readyRing: seq<Link>, ready: seq<Task>, listRing: seq<Link>, tasks: seq<Task>, task: Task)
    requires Shape(readyRing, ready, listRing, tasks) && task in tasks
    ensures |readyRing| > 0 && task.readyHead != readyRing[0] && task.readyHead !in listRing
    ensures forall l :: l in readyRing ==> l !in listRing
    ensures task.taskId in Ids(ready) <==> task.readyHead in readyRing
  {
    FindIff(ready, task.taskId);
    if task.taskId in Ids(ready) {
      QueuedLink(readyRing, ready, listRing, tasks, task, Find(ready, task.taskId));
    } else {
      OwnLink(readyRing, ready, listRing, tasks, task);
    }
  }

  lemma ShapeIds(readyRing: seq<Link>, ready: seq<Task>, listRing: seq<Link>, tasks: seq<Task>)
    requires Shape(readyRing, ready, listRing, tasks)
    ensures Distinct(Ids(tasks)) && Distinct(Ids(ready))
    ensures forall t :: t in ready ==> t in tasks
  {
  }

  /** The part of global_val that scheduling uses. */
  class Global {
    const readyList: Link
    const taskList: Link
    var currentTaskId: int
    ghost var ready: seq<Task>
    ghost var tasks: seq<Task>
    ghost var readyRing: seq<Link>
    ghost var listRing: seq<Link>

    constructor ()
      ensures Valid() && Abs() == Sys([], 0, map[]) && Inv(Abs())
      ensures fresh(readyList) && fresh(taskList) && readyRing == [readyList] && listRing == [taskList] && tasks == []
    {
      hide Ring;
      readyList := new Link();
      taskList := new Link();
      currentTaskId := 0;
      ready, tasks := [], [];
      new;
      LinkInit(readyList);
      LinkInit(taskList);
      readyRing, listRing := [readyList], [taskList];
    }

    ghost predicate Valid()
      reads this`ready, this`tasks, this`readyRing, this`listRing, readyRing, listRing
    {
      && Carries(readyRing, readyList, ready) && Carries(listRing, taskList, tasks)
      && Shape(readyRing, ready, listRing, tasks)
    }

    /** The state the operations are specified on. */
    ghost function Abs(): Sys
      requires Distinct(Ids(tasks))
      reads this`ready, this`tasks, this`currentTaskId, tasks`state
    {
      Sys(Ids(ready), currentTaskId, States(tasks))
    }

    /** schedule_task */
    method ScheduleTask(task: Task)
      requires Valid() && task in tasks
      modifies this`ready, this`readyRing, readyRing`next, readyRing`prev, task.readyHead
      ensures Valid() && Abs() == old(Abs()).(ready := Enqueue(old(Abs()).ready, task.taskId))
      ensures forall l :: l in readyRing ==> l in old(readyRing) || l == task.readyHead
    {
      hide Carries, Shape, Ids, States;
      var t, l;
      ghost var k;
      t, l, k := FindTask(readyList, task.taskId, readyRing, ready);
      FindIff(ready, task.taskId);
      if t != null {
        return;
      }
      HeadOf(readyRing, readyList, ready);
      QueuedIff(readyRing, ready, listRing, tasks, task);
      ShapeAppend(readyRing, ready, listRing, tasks, task);
      AddEnd(readyList, task.readyHead, task, Tail, readyRing, ready);
      assert forall l :: l in listRing ==> l.next == old(l.next) && l.prev == old(l.prev) && l.data == old(l.data);
      assert Carries(listRing, taskList, tasks);
      ready := ready + [task];
      readyRing := readyRing + [task.readyHead];
    }

    /** schedule_task_next.  The structures stay intact exactly if the task was not queued; if it was,
        its own node is linked again and no ring is left at the sentinel. */
    method ScheduleTaskNext(task: Task)
      requires Valid() && task in tasks
      modifies this`ready, this`readyRing, readyRing`next, readyRing`prev, task.readyHead
      ensures Valid() <==> task.taskId !in old(Abs()).ready
      ensures (exists r: seq<Link> :: r != [] && r[0] == readyList && Ring(r)) <==> task.taskId !in old(Abs()).ready
      ensures task.taskId !in old(Abs()).ready ==> Abs() == Step(old(Abs()), ScheduleNext(task.taskId))
    {
      hide Carries, Shape, Ids, States;
      HeadOf(readyRing, readyList, ready);
      QueuedIff(readyRing, ready, listRing, tasks, task);
      AddEnd(readyList, task.readyHead, task, Head, readyRing, ready);
      assert forall l :: l in listRing ==> l.next == old(l.next) && l.prev == old(l.prev) && l.data == old(l.data);
      assert Carries(listRing, taskList, tasks);
      if task.taskId !in Ids(ready) {
        ShapePush(readyRing, ready, listRing, tasks, task);
        ready := [task] + ready;
        readyRing := [readyList, task.readyHead] + readyRing[1..];
      } else if Carries(readyRing, readyList, ready) {
        CarriesRing(readyRing, readyList, ready);
      }
    }

    /** get_task: the task of the list with an id; null if there is none. */
    method GetTask(id: int) returns (task: Task?)
      requires Valid()
      ensures if id in Abs().tasks then task != null && task in tasks && task.taskId == id else task == null
    {
      hide Shape, Ids, Carries;
      var l;
      ghost var k;
      task, l, k := FindTask(taskList, id, listRing, tasks);
      FindIff(tasks, id);
    }

    /** get_current_task */
    method GetCurrentTask() returns (task: Task?)
      requires Valid()
      ensures if currentTaskId in Abs().tasks then task != null && task in tasks && task.taskId == currentTaskId
              else task == null
    {
      task := GetTask(currentTaskId);
    }

    /** suspend_task */
    method SuspendTask(id: int, state: Run)
      requires Valid()
      modifies this`currentTaskId, tasks`state
      ensures Valid() && Abs() == ReadyQueue.SuspendTask(old(Abs()), id, state)
    {
      hide Shape, Ids, Carries, States;
      ShapeIds(readyRing, ready, listRing, tasks);
      var task := GetTask(id);
      if task != null {
        SetState(task, state, tasks);
        if currentTaskId == id && task.state == Suspend {
          currentTaskId := -1;
        }
      }
    }

    /** schedule_task_id */
    method ScheduleTaskId(id: int)
      requires Valid()
      modifies this`ready, this`readyRing, readyRing`next, readyRing`prev, tasks`state,
        set t | t in tasks :: t.readyHead
      ensures Valid() && Abs() == Step(old(Abs()), ScheduleId(id))
    {
      hide Shape, Ids, Carries, States;
      ShapeIds(readyRing, ready, listRing, tasks);
      var task := GetTask(id);
      if task != null {
        SetState(task, Ready, tasks);
        ScheduleTask(task);
      }
    }

    /** start_task: whether the task was found. */
    method StartTask(id: int) returns (ok: bool)
      requires Valid()
      modifies this`ready, this`readyRing, readyRing`next, readyRing`prev,
        set t | t in tasks :: t.readyHead
      ensures Valid() && Abs() == Step(old(Abs()), Start(id)) && ok == (id in Abs().tasks)
      ensures forall l :: l in readyRing ==> l in old(readyRing) || exists t :: t in tasks && l == t.readyHead
    {
      hide Shape, Ids, Carries, States;
      var task := GetTask(id);
      if task == null {
        return false;
      }
      ScheduleTask(task);
      return true;
    }

    /** The k-th node leaves the ready list. */
    method Unqueue(node: Link, ghost k: nat)
      requires Valid() && k < |ready| && |readyRing| == |ready| + 1 && readyRing[k + 1] == node
      modifies this`ready, this`readyRing, readyRing`next, readyRing`prev
      ensures Valid() && ready == Without(old(ready), k) && readyRing == Without(old(readyRing), k + 1) && node !in readyRing
    {
      hide Carries, Shape, Ids;
      ShapeDrop(readyRing, ready, listRing, tasks, k);
      RingDiffers(readyRing, readyList, ready, k + 1);
      Unlink(readyList, node, readyRing, ready, k);
      assert forall l :: l in listRing ==> l.next == old(l.next) && l.prev == old(l.prev) && l.data == old(l.data);
      assert Carries(listRing, taskList, tasks);
      readyRing := Without(readyRing, k + 1);
      ready := Without(ready, k);
    }

    /** The first task leaves the ready list. */
    method PopFirst() returns (first: Task)
      requires Valid() && ready != []
      modifies this`ready, this`readyRing, readyRing`next, readyRing`prev
      ensures Valid() && first == old(ready)[0] && ready == old(ready)[1..]
      ensures forall l :: l in readyRing ==> l in old(readyRing)
    {
      hide Carries, Shape, Ids;
      var l;
      l, first := FirstNode(readyList, readyRing, ready);
      Unqueue(l, 0);
    }

    /** The end of get_next_task: the current task goes to the back of the queue, unless it waits, is
        suspended or is queued already. */
    method Requeue(current: Task, ghost nodes: set<Link>)
      requires Valid() && current in tasks && forall l :: l in readyRing ==> l in nodes
      modifies this`ready, this`readyRing, nodes`next, nodes`prev, current.readyHead
      ensures Valid()
      ensures Abs() == if current.state != Wait && current.state != Suspend
                       then old(Abs()).(ready := Enqueue(old(Abs()).ready, current.taskId)) else old(Abs())
    {
      hide Shape, Ids, Carries, States;
      var t, l;
      ghost var k;
      t, l, k := FindTask(readyList, current.taskId, readyRing, ready);
      FindIff(ready, current.taskId);
      if t != null {
        return;
      }
      if current.state != Wait && current.state != Suspend {
        ScheduleTask(current);
      }
    }

    /** get_next_task */
    method GetNextTask() returns (next: Task?)
      requires Valid()
      modifies this`ready, this`readyRing, readyRing`next, readyRing`prev,
        set t | t in tasks :: t.readyHead
      ensures Valid() && Abs() == old(Abs()).(ready := GetNext(old(Abs())).1)
      ensures match GetNext(old(Abs())).0
              case None => next == null
              case Some(id) => next != null && next in tasks && next.taskId == id
    {
      hide Shape, Ids, Carries, States, Distinct;
      ShapeIds(readyRing, ready, listRing, tasks);
      ghost var nodes := set l | l in readyRing;
      var current := GetCurrentTask();
      if current != null {
        StateOf(tasks, current);
      }
      var empty := IsEmpty(readyList, readyRing, ready);
      if empty {
        if current != null && current.state != Wait && current.state != Suspend {
          return current;
        } else {
          return null;
        }
      }
      next := PopFirst();
      TailIds(old(ready));
      if current != null {
        Requeue(current, nodes);
      }
    }

    /** scheduler, up to the switch of contexts. */
    method Schedule()
      requires Valid()
      modifies this`ready, this`readyRing, this`currentTaskId, readyRing`next, readyRing`prev, tasks`state,
        set t | t in tasks :: t.readyHead
      ensures Valid() && Abs() == Step(old(Abs()), Switch)
    {
      hide Shape, Ids, Carries, States, Distinct;
      ShapeIds(readyRing, ready, listRing, tasks);
      var current := GetCurrentTask();
      var next := GetNextTask();
      if current != null && next != null {
        SameTask(tasks, current, next);
      }
      if current != next {
        if next != null {
          SetState(next, Running, tasks);
          currentTaskId := next.taskId;
        }
      }
    }

    /** The list steps of create_task, for an unused id. */
    method CreateTask(id: int) returns (task: Task)
      requires Valid() && id !in Ids(tasks)
      modifies this`tasks, this`listRing, listRing`next, listRing`prev
      ensures Valid() && fresh(task) && task.taskId == id && tasks == old(tasks) + [task]
      ensures fresh(task.head) && fresh(task.readyHead) && listRing == old(listRing) + [task.head]
      ensures Abs() == Step(old(Abs()), Create(id))
    {
      hide Shape, Ids, Carries, States, Distinct;
      ShapeIds(readyRing, ready, listRing, tasks);
      task := new Task(id);
      ShapeNew(readyRing, ready, listRing, tasks, task);
      AddEnd(taskList, task.head, task, Tail, listRing, tasks);
      assert forall l :: l in readyRing ==> l.next == old(l.next) && l.prev == old(l.prev) && l.data == old(l.data);
      assert Carries(readyRing, readyList, ready);
      StatesNew(tasks, task);
      tasks := tasks + [task];
      listRing := listRing + [task.head];
    }

    /** The ready-list part of destroy_task. */
    method DropReady(task: Task)
      requires Valid() && task in tasks
      modifies this`ready, this`readyRing, readyRing`next, readyRing`prev, task.readyHead
      ensures Valid() && Abs() == old(Abs()).(ready := Drop(old(Abs()).ready, task.taskId))
      ensures task.taskId !in Ids(ready) && forall l :: l in readyRing ==> l in old(readyRing)
    {
      hide Shape, Ids, Carries, States, Drop, Without, Distinct;
      var t, l;
      ghost var k;
      t, l, k := FindTask(readyList, task.taskId, readyRing, ready);
      FindIff(ready, task.taskId);
      DropIds(ready, task.taskId);
      DropMembers(Ids(ready), task.taskId) by {
        ShapeIds(readyRing, ready, listRing, tasks);
      }
      WithoutFewer(readyRing);
      if t != null {
        QueuedLink(readyRing, ready, listRing, tasks, task, k);
        Unqueue(t.readyHead, k);
        t.readyHead.data := null;
        assert forall l :: l in listRing ==> l.next == old(l.next) && l.prev == old(l.prev) && l.data == old(l.data);
        assert Carries(listRing, taskList, tasks);
      }
    }

    /** The task-list part of destroy_task, for a task that is not queued. */
    method Unlist(task: Task, ghost k: nat)
      requires Valid() && k < |tasks| && tasks[k] == task && task.taskId !in Ids(ready)
      modifies this`tasks, this`listRing, listRing`next, listRing`prev
      ensures Valid() && Abs() == old(Abs()).(tasks := old(Abs()).tasks - {task.taskId})
    {
      hide Shape, Ids, Carries, States;
      ShapeGone(readyRing, ready, listRing, tasks, k);
      Unlink(taskList, task.head, listRing, tasks, k);
      assert forall l :: l in readyRing ==> l.next == old(l.next) && l.prev == old(l.prev) && l.data == old(l.data);
      assert Carries(readyRing, readyList, ready);
      StatesGone(tasks, k);
      tasks := Without(tasks, k);
      listRing := Without(listRing, k + 1);
    }

    /** The list steps of destroy_task: whether the task was found; it leaves both lists. */
    method DestroyTask(id: int) returns (ok: bool)
      requires Valid()
      modifies this`ready, this`readyRing, this`tasks, this`listRing, readyRing`next, readyRing`prev,
        listRing`next, listRing`prev, set t | t in tasks :: t.readyHead
      ensures Valid() && ok == (id in old(Abs()).tasks)
      ensures Abs() == Step(old(Abs()), Destroy(id))
    {
      hide Shape, Ids, Carries, States, Distinct;
      var task, l;
      ghost var k;
      task, l, k := FindTask(taskList, id, listRing, tasks);
      FindIff(tasks, id);
      StatesKeys(tasks, id);
      if task == null {
        return false;
      }
      DropReady(task);
      Unlist(task, k);
      return true;
    }
  }

  /** From boot: a task is created, started, and scheduled next while it is still queued.  No ready ring
      is left. */
  method ScheduledTwice() returns (g: Global)
    ensures fresh(g) && !g.Valid() && !exists r: seq<Link> :: r != [] && r[0] == g.readyList && Ring(r)
  {
    hide Carries, Shape, Ids, States, Ring;
    g := new Global();
    NoIds();
    var task := g.CreateTask(1);
    assert g.tasks == [task];
    assert g.Abs().tasks == map[1 := Suspend];
    ghost var before := g.readyRing;
    assert before == [g.readyList];
    var ok := g.StartTask(1);
    assert g.tasks == [task];
    forall l | l in g.readyRing
      ensures l == g.readyList || l == task.readyHead
    {
      assert l in before || exists t :: t in g.tasks && l == t.readyHead;
    }
    assert forall i :: 0 <= i < |g.readyRing| ==> g.readyRing[i] in g.readyRing && fresh(g.readyRing[i]);
    g.ScheduleTaskNext(task);
  }

  lemma NoIds()
    ensures Ids([]) == []
  {
  }
}
