/** Over every sequence of spawn, block, wake, join, exit, timer and reschedule, each live task is in
    exactly one place, and the right task runs. */
module SchedulerRuns {
  import opened Basics
  import opened PrioQueue
  import opened TaskLists
  import opened Scheduler

  // ---------- spawn ----------

  lemma SpawnPlaced(status: map<int, Status>, ready: seq<Handle>, blocked: seq<Node>, h: Handle, after: map<int,
        Status>, list: seq<Handle>)
    requires AllPlaced(status, ready, blocked) && h.id !in status
    requires after == status[h.id := Status.Ready] && list == Insert(ready, h)
    ensures AllPlaced(after, list, blocked)
  {
    forall id: int
      ensures Placed(after, list, blocked, id)
    {
      assert Placed(status, ready, blocked, id);
      CountInsert(ready, h, id);
    }
  }

  lemma InsertHandles(prio: map<int, nat>, l: seq<Handle>, h: Handle)
    requires Handles(prio, l) && h.id in prio && prio[h.id] == h.prio < NO_PRIORITIES
    ensures Handles(prio, Insert(l, h))
  {
    InsertContents(l, h);
    forall x | x in Insert(l, h)
      ensures x.id in prio && prio[x.id] == x.prio < NO_PRIORITIES
    {
      assert x in multiset(Insert(l, h));
    }
  }

  lemma SpawnKeeps(c: Core, id: int, prio: nat)
    requires Inv(c) && id !in c.status && prio < NO_PRIORITIES
    ensures Inv(Spawn(c, id, prio))
  {
    var n := Spawn(c, id, prio);
    SpawnPlaced(c.status, c.ready, c.blocked, Handle(id, prio), n.status, n.ready);
    assert Handles(n.prio, c.ready) && Handles(n.prio, Tasks(c.blocked));
    InsertHandles(n.prio, c.ready, Handle(id, prio));
    InsertDescending(c.ready, Handle(id, prio));
    assert Live(n.status) == Live(c.status) + {id};
  }

  // ---------- block and join ----------

  lemma BlockPlaced(status: map<int, Status>, ready: seq<Handle>, blocked: seq<Node>, n: Node, after: map<int,
        Status>, list: seq<Node>)
    requires AllPlaced(status, ready, blocked) && n.task.id in status && status[n.task.id] == Running
    requires after == status[n.task.id := Status.Blocked] && list == AddNode(blocked, n)
    ensures AllPlaced(after, ready, list)
  {
    forall id: int
      ensures Placed(after, ready, list, id)
    {
      assert Placed(status, ready, blocked, id);
      CountAddNode(blocked, n, id);
    }
  }

  lemma {:induction false} MemberOfTasks(l: seq<Node>, h: Handle)
    ensures h in Tasks(l) <==> exists x :: x in l && x.task == h
  {
    if l != [] {
      MemberOfTasks(l[1..], h);
      assert l == [l[0]] + l[1..];
    }
  }

  lemma AddNodeHandles(prio: map<int, nat>, l: seq<Node>, n: Node)
    requires Handles(prio, Tasks(l)) && n.task.id in prio && prio[n.task.id] == n.task.prio < NO_PRIORITIES
    ensures Handles(prio, Tasks(AddNode(l, n)))
  {
    forall h | h in Tasks(AddNode(l, n))
      ensures h.id in prio && prio[h.id] == h.prio < NO_PRIORITIES
    {
      MemberOfTasks(AddNode(l, n), h);
      var x :| x in AddNode(l, n) && x.task == h;
      AddNodeMembers(l, n, x);
      MemberOfTasks(l, h);
    }
  }

  lemma BlockKeeps(c: Core, wakeup: Option<nat>)
    requires Inv(c) && c.status[c.current] == Running
    ensures Inv(Block(c, wakeup))
  {
    var n := Block(c, wakeup);
    var node := Node(HandleOf(c, c.current), wakeup);
    BlockPlaced(c.status, c.ready, c.blocked, node, n.status, n.blocked);
    AddNodeHandles(c.prio, c.blocked, node);
    AddNodeInOrder(c.blocked, node);
    assert Live(n.status) == Live(c.status);
  }

  lemma JoinKeeps(c: Core, id: int)
    requires Inv(c) && c.status[c.current] == Running
    ensures Inv(Join(c, id))
  {
    if id in c.waiting {
      BlockKeeps(c.(waiting := c.waiting[id := c.waiting[id] + [HandleOf(c, c.current)]]), None);
    }
  }

  // ---------- wake ----------

  lemma WakeupPlaced(status: map<int, Status>, ready: seq<Handle>, blocked: seq<Node>, h: Handle, after: map<int,
        Status>, list: seq<Handle>, rest: seq<Node>)
    requires AllPlaced(status, ready, blocked) && h.id in status && status[h.id] == Status.Blocked
    requires after == status[h.id := Status.Ready] && list == Insert(ready, h) && rest == RemoveNode(blocked, h.id)
    ensures AllPlaced(after, list, rest)
  {
    forall id: int
      ensures Placed(after, list, rest, id)
    {
      assert Placed(status, ready, blocked, id) && Placed(status, ready, blocked, h.id);
      CountInsert(ready, h, id);
      CountRemoveNode(blocked, h.id, id);
    }
  }

  lemma RemoveNodeHandles(prio: map<int, nat>, l: seq<Node>, id: int)
    requires Handles(prio, Tasks(l))
    ensures Handles(prio, Tasks(RemoveNode(l, id)))
  {
    forall h | h in Tasks(RemoveNode(l, id))
      ensures h.id in prio && prio[h.id] == h.prio < NO_PRIORITIES
    {
      MemberOfTasks(RemoveNode(l, id), h);
      var x :| x in RemoveNode(l, id) && x.task == h;
      RemoveNodeMembers(l, id, x);
      MemberOfTasks(l, h);
    }
  }

  lemma WakeupKeeps(c: Core, id: int)
    requires Inv(c) && id in c.status && c.status[id] == Status.Blocked
    ensures Inv(Wakeup(c, id))
  {
    var n := Wakeup(c, id);
    var h := HandleOf(c, id);
    WakeupPlaced(c.status, c.ready, c.blocked, h, n.status, n.ready, n.blocked);
    InsertHandles(c.prio, c.ready, h);
    RemoveNodeHandles(c.prio, c.blocked, id);
    InsertDescending(c.ready, h);
    RemoveNodeInOrder(c.blocked, id);
    assert Live(n.status) == Live(c.status);
  }

  /** The search for a task's node in the blocked list succeeds exactly for blocked tasks. */
  lemma WakeupFindsExactlyBlocked(c: Core, id: int)
    requires Inv(c)
    ensures HasNode(c.blocked, id) <==> id in c.status && c.status[id] == Status.Blocked
  {
    assert Placed(c.status, c.ready, c.blocked, id);
    CountHasNode(c.blocked, id);
  }

  /** A row of wake-ups finds every task exactly when all of them are blocked and none comes twice. */
  lemma {:induction false} FoundExactlyWhen(c: Core, l: seq<Handle>)
    requires Inv(c)
    ensures AllFound(c.blocked, l) <==>
            (forall h :: h in l ==> h.id in c.status && c.status[h.id] == Status.Blocked) && Distinct(l)
    decreases |l|
  {
    if l != [] {
      var h, rest := l[0], l[1..];
      assert l == [h] + rest;
      WakeupFindsExactlyBlocked(c, h.id);
      if HasNode(c.blocked, h.id) {
        var n := Wakeup(c, h.id);
        WakeupKeeps(c, h.id);
        FoundExactlyWhen(n, rest);
        assert forall x :: x in rest && n.status.Keys == c.status.Keys ==>
                 (x.id in n.status && n.status[x.id] == Status.Blocked <==>
                  x.id in c.status && c.status[x.id] == Status.Blocked && x.id != h.id);
        DistinctCons(h, rest, l);
      }
    }
  }

  predicate Distinct(l: seq<Handle>) {
    forall i, j :: 0 <= i < j < |l| ==> l[i].id != l[j].id
  }

  lemma DistinctCons(h: Handle, rest: seq<Handle>, l: seq<Handle>)
    requires l == [h] + rest
    ensures Distinct(l) <==> Distinct(rest) && forall x :: x in rest ==> x.id != h.id
  {
    if Distinct(l) {
      forall i, j | 0 <= i < j < |rest|
        ensures rest[i].id != rest[j].id
      {
        assert l[i + 1].id != l[j + 1].id;
      }
      forall x | x in rest
        ensures x.id != h.id
      {
        var j :| 0 <= j < |rest| && rest[j] == x;
        assert l[0].id != l[j + 1].id;
      }
    }
  }

  // ---------- exit ----------

  lemma {:induction false} WakeupAllKeeps(c: Core, l: seq<Handle>)
    requires Inv(c) && forall h :: h in l ==> h.id in c.status
    ensures Inv(WakeupAll(c, l))
    ensures WakeupAll(c, l).current == c.current && WakeupAll(c, l).waiting == c.waiting
    ensures c.status[c.current] == Status.Finished ==> WakeupAll(c, l).status[c.current] == Status.Finished
    decreases |l|
  {
    if l != [] && HasNode(c.blocked, l[0].id) {
      WakeupFindsExactlyBlocked(c, l[0].id);
      WakeupKeeps(c, l[0].id);
      WakeupAllKeeps(Wakeup(c, l[0].id), l[1..]);
    }
  }

  lemma FinishKeeps(c: Core)
    requires Inv(c) && c.status[c.current] == Running
    ensures Inv(Finish(c))
  {
    var n := Finish(c);
    forall id: int
      ensures Placed(n.status, n.ready, n.blocked, id)
    {
      assert Placed(c.status, c.ready, c.blocked, id);
    }
    assert Live(n.status) == Live(c.status) - {c.current};
  }

  lemma ExitKeeps(c: Core)
    requires Inv(c) && c.status[c.current] == Running
    ensures Inv(Exit(c)) && Exit(c).current == c.current && Exit(c).status[c.current] == Status.Finished
  {
    FinishKeeps(c);
    WakeupAllKeeps(Finish(c), Joiners(c));
  }

  // ---------- the timer ----------

  lemma {:induction false} CountInsertAll(l: seq<Handle>, more: seq<Handle>, id: int)
    ensures Count(InsertAll(l, more), id) == Count(l, id) + Count(more, id)
    decreases |more|
  {
    if more != [] {
      CountInsert(l, more[0], id);
      CountInsertAll(Insert(l, more[0]), more[1..], id);
    }
  }

  lemma {:induction false} InsertAllKeeps(prio: map<int, nat>, l: seq<Handle>, more: seq<Handle>)
    requires Descending(l) && Handles(prio, l) && Handles(prio, more)
    ensures Descending(InsertAll(l, more)) && Handles(prio, InsertAll(l, more))
    decreases |more|
  {
    if more != [] {
      assert more[0] in more;
      InsertDescending(l, more[0]);
      InsertHandles(prio, l, more[0]);
      InsertAllKeeps(prio, Insert(l, more[0]), more[1..]);
    }
  }

  lemma {:induction false} MarkReadyAt(status: map<int, Status>, l: seq<Handle>, id: int)
    requires forall h :: h in l ==> h.id in status
    ensures MarkReady(status, l).Keys == status.Keys
    ensures id in status ==> MarkReady(status, l)[id] == if Count(l, id) > 0 then Status.Ready else status[id]
    decreases |l|
  {
    if l != [] {
      assert l[0] in l;
      MarkReadyAt(status[l[0].id := Status.Ready], l[1..], id);
    }
  }

  lemma TickPlaced(c: Core, now: nat, n: Core)
    requires Partition(c) && n == Tick(c, now)
    ensures AllPlaced(n.status, n.ready, n.blocked) && n.status.Keys == c.status.Keys
    ensures forall id :: id in c.status ==>
              n.status[id] == c.status[id] || (c.status[id] == Status.Blocked && n.status[id] == Status.Ready)
  {
    var due := Due(c.blocked, now);
    DueKnown(c, now);
    MarkReadyAt(c.status, due, c.current);
    forall id: int
      ensures Placed(n.status, n.ready, n.blocked, id)
      ensures id in c.status ==>
                n.status[id] == c.status[id] || (c.status[id] == Status.Blocked && n.status[id] == Status.Ready)
    {
      assert Placed(c.status, c.ready, c.blocked, id);
      CountDue(c.blocked, now, id);
      CountInsertAll(c.ready, due, id);
      MarkReadyAt(c.status, due, id);
    }
  }

  lemma DueKnown(c: Core, now: nat)
    requires Partition(c)
    ensures Handles(c.prio, Due(c.blocked, now)) && forall h :: h in Due(c.blocked, now) ==> h.id in c.status
  {
    forall h | h in Due(c.blocked, now)
      ensures h.id in c.prio && c.prio[h.id] == h.prio < NO_PRIORITIES
    {
      DueAreTasks(c.blocked, now, h);
    }
  }

  lemma NotDueHandles(prio: map<int, nat>, l: seq<Node>, now: nat)
    requires Handles(prio, Tasks(l))
    ensures Handles(prio, Tasks(NotDue(l, now)))
  {
    forall h | h in Tasks(NotDue(l, now))
      ensures h.id in prio && prio[h.id] == h.prio < NO_PRIORITIES
    {
      MemberOfTasks(NotDue(l, now), h);
      var x :| x in NotDue(l, now) && x.task == h;
      NotDueMembers(l, now, x);
      MemberOfTasks(l, h);
    }
  }

  lemma TickKeeps(c: Core, now: nat)
    requires Inv(c)
    ensures Inv(Tick(c, now))
  {
    var n := Tick(c, now);
    TickPlaced(c, now, n);
    DueKnown(c, now);
    InsertAllKeeps(c.prio, c.ready, Due(c.blocked, now));
    NotDueHandles(c.prio, c.blocked, now);
    NotDueInOrder(c.blocked, now);
    SameLive(c.status, n.status);
  }

  lemma SameLive(status: map<int, Status>, after: map<int, Status>)
    requires after.Keys == status.Keys
    requires forall id :: id in status ==>
               after[id] == status[id] || (status[id] == Status.Blocked && after[id] == Status.Ready)
    ensures Live(after) == Live(status)
  {
    forall id
      ensures id in Live(after) <==> id in Live(status)
    {
      assert id in after <==> id in status;
    }
  }

  lemma {:induction false} MemberCounts(l: seq<Node>, x: Node)
    requires x in l
    ensures Count(Tasks(l), x.task.id) > 0
  {
    if l[0] != x {
      assert l == [l[0]] + l[1..];
      MemberCounts(l[1..], x);
    }
  }

  // ---------- reschedule ----------

  /** The first task of the ready list. */
  lemma FrontIsReady(c: Core, h: Handle, rest: seq<Handle>)
    requires Inv(c) && c.ready != [] && h == c.ready[0] && rest == c.ready[1..]
    ensures h.id in c.status && c.status[h.id] == Status.Ready && Count(rest, h.id) == 0
    ensures Handles(c.prio, rest) && Descending(rest) && h == HandleOf(c, h.id)
  {
    assert h in c.ready;
    assert Placed(c.status, c.ready, c.blocked, h.id);
  }

  lemma SwitchPlaced(c: Core, h: Handle, rest: seq<Handle>, n: Core)
    requires Inv(c) && c.ready != [] && h == c.ready[0] && rest == c.ready[1..] && c.status[c.current] != Finished
    requires n == SwitchTo(c, h)
    ensures AllPlaced(n.status, n.ready, n.blocked)
  {
    FrontIsReady(c, h, rest);
    forall id: int
      ensures Placed(n.status, n.ready, n.blocked, id)
    {
      assert Placed(c.status, c.ready, c.blocked, id);
      CountInsert(rest, HandleOf(c, c.current), id);
    }
  }

  lemma SwitchKeeps(c: Core, h: Handle, n: Core)
    requires Inv(c) && c.ready != [] && h == c.ready[0] && c.status[c.current] != Finished
    requires n == SwitchTo(c, h)
    ensures Inv(n) && n.status[n.current] == Running
  {
    var rest := c.ready[1..];
    FrontIsReady(c, h, rest);
    SwitchPlaced(c, h, rest, n);
    SwitchLists(c, h, rest, n.ready);
    SwitchStatus(c, h, n.status);
  }

  lemma SwitchLists(c: Core, h: Handle, rest: seq<Handle>, ready: seq<Handle>)
    requires Inv(c) && c.ready != [] && h == c.ready[0] && rest == c.ready[1..]
    requires ready == rest || ready == Insert(rest, HandleOf(c, c.current))
    ensures Handles(c.prio, ready) && Descending(ready)
  {
    FrontIsReady(c, h, rest);
    InsertHandles(c.prio, rest, HandleOf(c, c.current));
    InsertDescending(rest, HandleOf(c, c.current));
  }

  lemma SwitchStatus(c: Core, h: Handle, status: map<int, Status>)
    requires Inv(c) && h.id in c.status && c.status[h.id] == Status.Ready && c.status[c.current] != Finished
    requires var left := if c.status[c.current] == Running then c.status[c.current := Status.Ready] else c.status;
             status == left[h.id := Running]
    ensures OneRuns(status, h.id, c.idle) && Live(status) == Live(c.status) && status.Keys == c.status.Keys
  {
    forall id
      ensures id in Live(status) <==> id in Live(c.status)
    {
    }
  }

  /** A core whose finished current task was put aside, and that runs the idle task for the moment. */
  lemma RetireKeeps(c: Core, n: Core)
    requires Inv(c) && c.status[c.current] in {Finished, Status.Blocked, Status.Ready}
    requires n == Retire(c).(current := c.idle)
    ensures Inv(n)
  {
    forall id: int
      ensures Placed(n.status, n.ready, n.blocked, id)
    {
      assert Placed(c.status, c.ready, c.blocked, id);
    }
    assert Live(n.status) == Live(c.status);
  }

  lemma ScheduleKeeps(c: Core)
    requires Inv(c)
    ensures Inv(Schedule(c))
  {
    var status := c.status[c.current];
    if status == Running || status == Status.Idle {
      assert Inv(Retire(c));
      if Pick(c).Some? {
        SwitchKeeps(Retire(c), c.ready[0], Schedule(c));
      }
    } else {
      var m := Retire(c).(current := c.idle);
      RetireKeeps(c, m);
      if Pick(c).Some? {
        SwitchKeeps(m, c.ready[0], SwitchTo(m, c.ready[0]));
        assert SwitchTo(m, c.ready[0]) == SwitchTo(Retire(c), c.ready[0]);
      }
    }
  }

  lemma FrontIsMostUrgent(l: seq<Handle>, h: Handle)
    requires Descending(l) && h in l
    ensures h.prio <= l[0].prio
  {
    var i :| 0 <= i < |l| && l[i] == h;
  }

  lemma SwitchIsMostUrgent(c: Core, h: Handle, n: Core, x: Handle)
    requires Inv(c) && c.ready != [] && h == c.ready[0] && n == SwitchTo(c, h) && x in n.ready
    requires c.status[c.current] == Running ==> c.prio[c.current] <= h.prio
    ensures x.prio <= h.prio == n.prio[n.current]
  {
    FrontIsReady(c, h, c.ready[1..]);
    InsertContents(c.ready[1..], HandleOf(c, c.current));
    assert x in multiset(n.ready);
    if x in c.ready {
      FrontIsMostUrgent(c.ready, x);
    }
  }

  /** After a reschedule no ready task is more urgent than the one that runs. */
  lemma MostUrgentRuns(c: Core, x: Handle)
    requires Inv(c) && x in Schedule(c).ready
    ensures x.prio <= Schedule(c).prio[Schedule(c).current]
  {
    var status := c.status[c.current];
    if Pick(c).Some? {
      if status == Running || status == Status.Idle {
        SwitchIsMostUrgent(Retire(c), c.ready[0], Schedule(c), x);
      } else {
        RetireKeeps(c, Retire(c).(current := c.idle));
        SwitchIsMostUrgent(Retire(c).(current := c.idle), c.ready[0], Schedule(c), x);
      }
    } else {
      FrontIsMostUrgent(c.ready, x);
    }
  }

  /** After a reschedule a task runs, or the idle task because nothing is ready. */
  lemma IdleOnlyWithoutWork(c: Core)
    requires Inv(c)
    ensures var n := Schedule(c);
            && (n.status[n.current] == Running <==> n.current != n.idle)
            && (n.current == n.idle ==> n.ready == [])
  {
    ScheduleKeeps(c);
    if c.ready != [] {
      FrontIsReady(c, c.ready[0], c.ready[1..]);
    }
  }

  /** A task that blocked, was woken and is picked before it switched away runs on as if nothing
      had happened: it is the same task, and it is in neither list. */
  lemma WokenBeforeSwitch(c: Core)
    requires Inv(c) && c.status[c.current] == Status.Ready && c.ready != [] && c.ready[0].id == c.current
    ensures var n := Schedule(c);
            && n.current == c.current && n.status[n.current] == Running
            && Count(n.ready, n.current) == 0 && Count(Tasks(n.blocked), n.current) == 0
  {
    ScheduleKeeps(c);
    var n := Schedule(c);
    assert Placed(n.status, n.ready, n.blocked, n.current);
  }

  // ---------- whole runs ----------

  datatype Step =
    | Spawns(id: int, prio: nat)
    | Blocks(wakeup: Option<nat>)
    | Wakes(id: int)
    | Joins(id: int)
    | Exits
    | Ticks(now: nat)
    | Reschedules

  /** Ids are not used twice; the running task blocks, joins and exits; any blocked task can be woken.
      Where a task to be woken is not found, the kernel stops, so there is no next state. */
  predicate Enabled(c: Core, e: Step)
    requires Known(c)
  {
    match e
    case Spawns(id, prio) => id !in c.status && prio < NO_PRIORITIES
    case Blocks(_) => c.status[c.current] == Running
    case Wakes(id) => id in c.status && c.status[id] == Status.Blocked
    case Joins(_) => c.status[c.current] == Running
    case Exits => c.status[c.current] == Running && JoinersKnown(c) && AllFound(c.blocked, Joiners(c))
    case Ticks(_) => true
    case Reschedules => true
  }

  /** Those who wait for the end of the current task are tasks of this core. */
  predicate JoinersKnown(c: Core) {
    forall h :: h in Joiners(c) ==> h.id in c.status
  }

  function Next(c: Core, e: Step): Core
    requires Known(c) && Enabled(c, e)
  {
    match e
    case Spawns(id, prio) => Spawn(c, id, prio)
    case Blocks(wakeup) => Block(c, wakeup)
    case Wakes(id) => Wakeup(c, id)
    case Joins(id) => Join(c, id)
    case Exits => Exit(c)
    case Ticks(now) => Tick(c, now)
    case Reschedules => Schedule(c)
  }

  lemma NextKeeps(c: Core, e: Step)
    requires Inv(c) && Enabled(c, e)
    ensures Inv(Next(c, e))
  {
    match e
    case Spawns(id, prio) => SpawnKeeps(c, id, prio);
    case Blocks(wakeup) => BlockKeeps(c, wakeup);
    case Wakes(id) => WakeupKeeps(c, id);
    case Joins(id) => JoinKeeps(c, id);
    case Exits => ExitKeeps(c);
    case Ticks(now) => TickKeeps(c, now);
    case Reschedules => ScheduleKeeps(c);
  }

  /** A run: each step is enabled, in a state where the step makes sense at all. */
  predicate CanRun(c: Core, es: seq<Step>)
    decreases es
  {
    es == [] || (Known(c) && Enabled(c, es[0]) && CanRun(Next(c, es[0]), es[1..]))
  }

  function After(c: Core, es: seq<Step>): Core
    requires CanRun(c, es)
    decreases es
  {
    if es == [] then c else After(Next(c, es[0]), es[1..])
  }

  lemma {:induction false} RunKeeps(c: Core, es: seq<Step>)
    requires Inv(c) && CanRun(c, es)
    ensures Inv(After(c, es))
    decreases es
  {
    if es != [] {
      NextKeeps(c, es[0]);
      RunKeeps(Next(c, es[0]), es[1..]);
    }
  }

  /** One step more. */
  lemma {:induction false} RunExtends(c: Core, es: seq<Step>, e: Step)
    requires CanRun(c, es) && Known(After(c, es)) && Enabled(After(c, es), e)
    ensures CanRun(c, es + [e]) && After(c, es + [e]) == Next(After(c, es), e)
    decreases es
  {
    var more := es + [e];
    if es == [] {
      assert more[1..] == [];
    } else {
      assert more[0] == es[0] && more[1..] == es[1..] + [e];
      RunExtends(Next(c, es[0]), es[1..], e);
    }
  }

  lemma BootOk(idle: int)
    ensures Inv(Boot(idle))
  {
    assert Live(Boot(idle).status) == {};
  }

  /** Where a live task is, in every run: it runs, or it is in the ready list once, or in the list of
      blocked tasks once, and in no two of these. The counter of tasks is right. */
  lemma ExactlyOnePlace(idle: int, es: seq<Step>, id: int)
    requires CanRun(Boot(idle), es) && id in Live(After(Boot(idle), es).status)
    ensures var n := After(Boot(idle), es);
            || (n.status[id] == Running && n.current == id && Count(n.ready, id) == 0 && Count(Tasks(n.blocked),
                id) == 0)
            || (n.status[id] == Status.Ready && Count(n.ready, id) == 1 && Count(Tasks(n.blocked), id) == 0)
            || (n.status[id] == Status.Blocked && Count(n.ready, id) == 0 && Count(Tasks(n.blocked), id) == 1)
    ensures After(Boot(idle), es).noTasks == |Live(After(Boot(idle), es).status)|
  {
    BootOk(idle);
    RunKeeps(Boot(idle), es);
    var n := After(Boot(idle), es);
    assert Placed(n.status, n.ready, n.blocked, id);
  }

  /** No task is lost: a task that was live still is, unless it was current at an exit. */
  lemma {:induction false} NobodyLost(c: Core, es: seq<Step>, id: int)
    requires Inv(c) && CanRun(c, es) && id in Live(c.status) && !ExitsIn(c, es, id)
    ensures id in Live(After(c, es).status)
    decreases es
  {
    if es != [] {
      NextKeeps(c, es[0]);
      StaysLive(c, es[0], id);
      NobodyLost(Next(c, es[0]), es[1..], id);
    }
  }

  /** Some step of the run is an exit of `id`. */
  predicate ExitsIn(c: Core, es: seq<Step>, id: int)
    requires CanRun(c, es)
    decreases es
  {
    es != [] && ((es[0].Exits? && c.current == id) || ExitsIn(Next(c, es[0]), es[1..], id))
  }

  lemma StaysLive(c: Core, e: Step, id: int)
    requires Inv(c) && Enabled(c, e) && id in Live(c.status) && (e.Exits? ==> c.current != id)
    ensures id in Live(Next(c, e).status)
  {
    NextKeeps(c, e);
    match e
    case Exits =>
      ExitKeepsOthers(c, id);
    case Ticks(now) =>
      TickPlaced(c, now, Tick(c, now));
    case Reschedules =>
      RescheduleKeepsLive(c, id);
    case _ =>
  }

  lemma RescheduleKeepsLive(c: Core, id: int)
    requires Inv(c) && id in Live(c.status)
    ensures id in Live(Schedule(c).status)
  {
    if c.ready != [] {
      FrontIsReady(c, c.ready[0], c.ready[1..]);
    }
  }

  lemma ExitKeepsOthers(c: Core, id: int)
    requires Inv(c) && c.status[c.current] == Running && id in Live(c.status) && c.current != id
    requires JoinersKnown(c)
    ensures id in Live(Exit(c).status)
  {
    WakeupAllLive(Finish(c), Joiners(c), id);
  }

  lemma {:induction false} WakeupAllLive(c: Core, l: seq<Handle>, id: int)
    requires Known(c) && (forall h :: h in l ==> h.id in c.status) && id in Live(c.status)
    ensures id in Live(WakeupAll(c, l).status)
    decreases |l|
  {
    if l != [] && HasNode(c.blocked, l[0].id) {
      WakeupAllLive(Wakeup(c, l[0].id), l[1..], id);
    }
  }

  // ---------- the one-shot timer ----------

  /** The front of the list is the earliest. */
  lemma FrontIsEarliest(c: Core, n: Node)
    requires Inv(c) && n in c.blocked
    ensures NotLater(FirstTime(c.blocked), n.wakeup)
  {
    var i :| 0 <= i < |c.blocked| && c.blocked[i] == n;
  }

  /** After the timer's interrupt the timer is set for the earliest of those still blocked. */
  lemma TickArmsEarliest(c: Core, now: nat, n: Node)
    requires Inv(c) && n in Tick(c, now).blocked
    ensures NotLater(Tick(c, now).timer, n.wakeup)
  {
    TickKeeps(c, now);
    FrontIsEarliest(Tick(c, now), n);
  }

  /** Blocking a task with a time sets the timer for that task, whether or not another is earlier:
      with the timer right before, it is right afterwards exactly when the new task comes first or
      has no time at all. */
  lemma BlockArmsExactlyWhenFirst(c: Core, wakeup: Option<nat>)
    requires Inv(c) && c.status[c.current] == Running && c.timer == FirstTime(c.blocked)
    ensures var n := Block(c, wakeup);
            n.timer == FirstTime(n.blocked) <==> wakeup.None? || NotLater(wakeup, FirstTime(c.blocked))
  {
  }

  /** So a second, later sleeper moves the timer past the first one's time. */
  lemma LaterSleeperDelaysEarlier(c: Core, early: nat, late: nat)
    requires Inv(c) && c.status[c.current] == Running && early < late
    requires c.blocked != [] && c.blocked[0].wakeup == Some(early) && c.timer == Some(early)
    ensures var n := Block(c, Some(late));
            FirstTime(n.blocked) == Some(early) && n.timer == Some(late)
  {
  }

  /** When the current task does not run, the first ready one does next. */
  lemma FirstReadyRuns(c: Core, h: Handle, rest: seq<Handle>)
    requires Known(c) && c.ready == [h] + rest
    requires c.status[c.current] == Status.Idle || c.status[c.current] == Status.Blocked
    ensures Schedule(c) ==
            c.(finished := [], ready := rest, status := c.status[h.id := Status.Running], current := h.id)
  {
    assert c.ready[0] == h && c.ready[1..] == rest;
  }

  /** Two tasks are spawned; the first sleeps, then the second. */
  function Sleepers(a: int, b: int, early: nat, late: nat): seq<Step> {
    [Spawns(a, 1), Spawns(b, 1), Reschedules, Blocks(Some(early)), Reschedules, Blocks(Some(late))]
  }

  /** Two tasks of the same priority, spawned after boot, run in that order. */
  lemma SpawnTwo(idle: int, a: int, b: int)
    requires idle != a && idle != b && a != b
    ensures var n := Spawn(Spawn(Boot(idle), a, 1), b, 1);
            && n.ready == [Handle(a, 1), Handle(b, 1)]
            && CanRun(Boot(idle), [Spawns(a, 1), Spawns(b, 1)]) && After(Boot(idle), [Spawns(a, 1), Spawns(b, 1)]) == n
  {
    var c := Boot(idle);
    RunExtends(c, [], Spawns(a, 1));
    RunExtends(c, [Spawns(a, 1)], Spawns(b, 1));
    assert [Spawns(a, 1)] + [Spawns(b, 1)] == [Spawns(a, 1), Spawns(b, 1)] && [] + [Spawns(a, 1)] == [Spawns(a, 1)];
    assert Insert([Handle(a, 1)], Handle(b, 1)) == [Handle(a, 1)] + Insert([], Handle(b, 1));
  }

  /** That happens from boot. */
  lemma LaterSleeperRun(idle: int, a: int, b: int, early: nat, late: nat)
    requires idle != a && idle != b && a != b && early < late
    ensures CanRun(Boot(idle), Sleepers(a, b, early, late))
    ensures var n := After(Boot(idle), Sleepers(a, b, early, late));
            FirstTime(n.blocked) == Some(early) && n.timer == Some(late)
  {
    var es := [Spawns(a, 1), Spawns(b, 1)];
    SpawnTwo(idle, a, b);
    TwoSleep(Boot(idle), es, After(Boot(idle), es), a, b, early, late);
    assert es + [Reschedules] + [Blocks(Some(early))] + [Reschedules] + [Blocks(Some(late))] ==
           Sleepers(a, b, early, late);
  }

  lemma TwoSleep(c: Core, es: seq<Step>, n: Core, a: int, b: int, early: nat, late: nat)
    requires CanRun(c, es) && After(c, es) == n && Known(n) && a != b && n.status[n.current] == Status.Idle
    requires a in n.status && b in n.status && n.ready == [Handle(a, 1), Handle(b, 1)]
    requires n.blocked == [] && early < late
    ensures var all := es + [Reschedules] + [Blocks(Some(early))] + [Reschedules] + [Blocks(Some(late))];
            CanRun(c, all) && FirstTime(After(c, all).blocked) == Some(early) && After(c, all).timer == Some(late)
  {
    RunExtends(c, es, Reschedules);
    FirstReadyRuns(n, Handle(a, 1), [Handle(b, 1)]);
    var n3 := Schedule(n);
    RunExtends(c, es + [Reschedules], Blocks(Some(early)));
    var n4 := Block(n3, Some(early));
    FirstReadyRuns(n4, Handle(b, 1), []);
    RunExtends(c, es + [Reschedules] + [Blocks(Some(early))], Reschedules);
    RunExtends(c, es + [Reschedules] + [Blocks(Some(early))] + [Reschedules], Blocks(Some(late)));
  }
}
