/** One core's scheduler: which task runs, which are ready, blocked, finished, and who waits for whose
    end; each operation as a function of the whole state. */
module Scheduler {
  import opened Basics
  import opened PrioQueue
  import opened TaskLists

  datatype Status = Ready | Running | Blocked | Finished | Idle | Invalid

  datatype Core = Core(current: int, idle: int, status: map<int, Status>, prio: map<int, nat>,
                       ready: seq<Handle>, blocked: seq<Node>, finished: seq<int>,
                       waiting: map<int, seq<Handle>>, noTasks: int, timer: Option<nat>)

  /** Every task has a status and a priority. */
  predicate Known(c: Core) {
    c.status.Keys == c.prio.Keys && c.current in c.status && c.idle in c.status
  }

  function HandleOf(c: Core, id: int): Handle
    requires id in c.prio
  {
    Handle(id, c.prio[id])
  }

  function FirstTime(l: seq<Node>): Option<nat> {
    if l == [] then None else l[0].wakeup
  }

  /** The core after boot: only the idle task. */
  function Boot(idle: int): Core {
    Core(idle, idle, map[idle := Status.Idle], map[idle := 0], [], [], [], map[idle := []], 0, None)
  }

  /** `spawn` on this core, with a task id not used before. */
  function Spawn(c: Core, id: int, prio: nat): Core {
    c.(status := c.status[id := Ready], prio := c.prio[id := prio],
       ready := Insert(c.ready, Handle(id, prio)),
       waiting := c.waiting[id := []], noTasks := c.noTasks + 1)
  }

  /** `block_current_task` */
  function Block(c: Core, wakeup: Option<nat>): Core
    requires Known(c)
  {
    c.(status := c.status[c.current := Status.Blocked],
       blocked := AddNode(c.blocked, Node(HandleOf(c, c.current), wakeup)),
       timer := if wakeup.Some? then wakeup else c.timer)
  }

  /** `custom_wakeup` of a blocked task; for any other the kernel stops at `unreachable!()`. */
  function Wakeup(c: Core, id: int): Core
    requires Known(c) && id in c.status
  {
    var rest := RemoveNode(c.blocked, id);
    c.(status := c.status[id := Status.Ready], blocked := rest,
       ready := Insert(c.ready, HandleOf(c, id)),
       timer := if c.blocked != [] && c.blocked[0].task.id == id then FirstTime(rest) else c.timer)
  }

  /** Every one of the tasks is found in the list of blocked tasks when its turn comes. */
  predicate AllFound(blocked: seq<Node>, l: seq<Handle>)
    decreases |l|
  {
    l == [] || (HasNode(blocked, l[0].id) && AllFound(RemoveNode(blocked, l[0].id), l[1..]))
  }

  /** One wake-up after the other, up to the first task that is not found: there the kernel stops. */
  function WakeupAll(c: Core, l: seq<Handle>): Core
    requires Known(c) && forall h :: h in l ==> h.id in c.status
    decreases |l|
  {
    if l == [] || !HasNode(c.blocked, l[0].id) then c else WakeupAll(Wakeup(c, l[0].id), l[1..])
  }

  /** `join`: nothing to wait for once the task has ended. */
  function Join(c: Core, id: int): Core
    requires Known(c)
  {
    if id !in c.waiting then c
    else Block(c.(waiting := c.waiting[id := c.waiting[id] + [HandleOf(c, c.current)]]), None)
  }

  /** The tasks that wait for the end of the current one. */
  function Joiners(c: Core): seq<Handle> {
    if c.current in c.waiting then c.waiting[c.current] else []
  }

  /** The current task ends, before it wakes those who wait for that. */
  function Finish(c: Core): Core
    requires Known(c)
  {
    c.(status := c.status[c.current := Status.Finished], noTasks := c.noTasks - 1, waiting := c.waiting - {c.current})
  }

  /** `exit` up to the reschedule. */
  function Exit(c: Core): Core
    requires Known(c) && forall h :: h in Joiners(c) ==> h.id in c.status
  {
    WakeupAll(Finish(c), Joiners(c))
  }

  function MarkReady(status: map<int, Status>, l: seq<Handle>): map<int, Status>
    decreases |l|
  {
    if l == [] then status else MarkReady(status[l[0].id := Status.Ready], l[1..])
  }

  function InsertAll(l: seq<Handle>, more: seq<Handle>): seq<Handle>
    decreases |more|
  {
    if more == [] then l else InsertAll(Insert(l, more[0]), more[1..])
  }

  /** `handle_waiting_tasks` */
  function Tick(c: Core, now: nat): Core {
    var due, rest := Due(c.blocked, now), NotDue(c.blocked, now);
    c.(status := MarkReady(c.status, due), ready := InsertAll(c.ready, due), blocked := rest, timer := FirstTime(rest))
  }

  /** What the scheduler picks: the ready task to run next, if any. */
  function Pick(c: Core): Option<Handle>
    requires Known(c)
  {
    if c.ready == [] then None
    else if c.status[c.current] == Status.Running && c.ready[0].prio < c.prio[c.current] then None
    else Some(c.ready[0])
  }

  /** The scheduler takes `h` from the front of the ready list. */
  function SwitchTo(c: Core, h: Handle): Core
    requires Known(c) && c.ready != []
  {
    var again := c.status[c.current] == Status.Running;
    var left := if again then c.status[c.current := Status.Ready] else c.status;
    c.(ready := if again then Insert(c.ready[1..], HandleOf(c, c.current)) else c.ready[1..],
       status := left[h.id := Status.Running], current := h.id)
  }

  /** A finished current task is marked and put aside; the ones put aside before are dropped. */
  function Retire(c: Core): Core
    requires Known(c)
  {
    if c.status[c.current] == Status.Finished then
      c.(status := c.status[c.current := Status.Invalid], finished := [c.current])
    else c.(finished := [])
  }

  /** `scheduler` */
  function Schedule(c: Core): Core
    requires Known(c)
  {
    var status := c.status[c.current];
    var r := Retire(c);
    match Pick(c)
    case Some(h) => SwitchTo(r, h)
    case None => if status == Status.Running || status == Status.Idle then r else r.(current := c.idle)
  }

  // ---------- the invariant: every live task is in exactly one place ----------

  /** How often the lists must hold a task in this status. */
  function InReady(s: Status): nat {
    if s == Status.Ready then 1 else 0
  }

  function InBlocked(s: Status): nat {
    if s == Status.Blocked then 1 else 0
  }

  predicate Placed(status: map<int, Status>, ready: seq<Handle>, blocked: seq<Node>, id: int) {
    if id in status then
      Count(ready, id) == InReady(status[id]) && Count(Tasks(blocked), id) == InBlocked(status[id])
    else Count(ready, id) == 0 && Count(Tasks(blocked), id) == 0
  }

  ghost predicate AllPlaced(status: map<int, Status>, ready: seq<Handle>, blocked: seq<Node>) {
    forall id: int :: Placed(status, ready, blocked, id)
  }

  /** Only the current task can be running or just finished; only the idle task has status `Idle`. */
  predicate OneRuns(status: map<int, Status>, current: int, idle: int) {
    && current in status && status[current] != Invalid
    && idle in status && status[idle] == Status.Idle
    && forall id :: id in status ==>
         && (status[id] == Running || status[id] == Finished ==> id == current)
         && (status[id] == Status.Idle ==> id == idle)
  }

  /** The lists hold tasks with their own priorities, in order. */
  predicate Handles(prio: map<int, nat>, l: seq<Handle>) {
    forall h :: h in l ==> h.id in prio && prio[h.id] == h.prio < NO_PRIORITIES
  }

  function Live(status: map<int, Status>): set<int> {
    set id | id in status && status[id] != Status.Idle && status[id] != Finished && status[id] != Invalid
  }

  /** Whoever waits for a task's end is a task, and so is the one it waits for. */
  predicate JoinsOk(prio: map<int, nat>, waiting: map<int, seq<Handle>>) {
    && waiting.Keys <= prio.Keys
    && (forall id, h :: id in waiting && h in waiting[id] ==> h.id in prio && prio[h.id] == h.prio)
  }

  /** The part of the invariant that does not speak of joins. */
  ghost predicate Partition(c: Core) {
    && Known(c) && OneRuns(c.status, c.current, c.idle)
    && AllPlaced(c.status, c.ready, c.blocked)
    && Handles(c.prio, c.ready) && Handles(c.prio, Tasks(c.blocked))
    && (forall id :: id in c.prio ==> c.prio[id] < NO_PRIORITIES)
    && Descending(c.ready) && InTimeOrder(c.blocked)
    && c.noTasks == |Live(c.status)|
  }

  ghost predicate Inv(c: Core) {
    Partition(c) && JoinsOk(c.prio, c.waiting)
  }
}
