/** The scheduler's code: each method does what the function of the same operation says. */
module PerCoreScheduler {
  import opened Basics
  import opened PrioQueue
  import opened TaskLists
  import opened Scheduler

  /** `BlockedTaskQueue::add`: the scan for the place of a new node. */
  method AddBlocked(list: seq<Node>, node: Node) returns (r: seq<Node>)
    ensures r == AddNode(list, node)
  {
    var k := |list|;
    if node.wakeup.Some? {
      k := 0;
      while k < |list| && !(list[k].wakeup.None? || node.wakeup.value < list[k].wakeup.value)
        invariant k <= |list| && forall i :: 0 <= i < k ==> !GoesBefore(node, list[i])
      {
        k := k + 1;
      }
    }
    AddNodeSplits(list, node, k);
    r := list[..k] + [node] + list[k..];
  }

  /** `BlockedTaskQueue::custom_wakeup`: the search for a task's node. */
  method TakeBlocked(list: seq<Node>, id: int) returns (found: bool, first: bool, rest: seq<Node>)
    ensures found <==> HasNode(list, id)
    ensures found ==> rest == RemoveNode(list, id) && (first <==> list[0].task.id == id)
    ensures !found ==> rest == list
  {
    var k := 0;
    while k < |list|
      invariant k <= |list| && forall i :: 0 <= i < k ==> list[i].task.id != id
    {
      if list[k].task.id == id {
        RemoveNodeSplits(list, id, k);
        return true, k == 0, list[..k] + list[k + 1..];
      }
      k := k + 1;
    }
    return false, false, list;
  }

  lemma {:induction false} DueOneMore(list: seq<Node>, n: Node, now: nat)
    ensures Due(list + [n], now) == Due(list, now) + if Elapsed(n, now) then [n.task] else []
    ensures NotDue(list + [n], now) == NotDue(list, now) + if Elapsed(n, now) then [] else [n]
  {
    if list != [] {
      assert (list + [n])[1..] == list[1..] + [n];
      DueOneMore(list[1..], n, now);
    }
  }

  /** `extract_if` on the wake-up times. */
  method ExtractDue(list: seq<Node>, now: nat) returns (due: seq<Handle>, rest: seq<Node>)
    ensures due == Due(list, now) && rest == NotDue(list, now)
  {
    due, rest := [], [];
    var k := 0;
    while k < |list|
      invariant k <= |list| && due == Due(list[..k], now) && rest == NotDue(list[..k], now)
    {
      assert list[..k + 1] == list[..k] + [list[k]];
      DueOneMore(list[..k], list[k], now);
      if list[k].wakeup.Some? && list[k].wakeup.value < now {
        due := due + [list[k].task];
      } else {
        rest := rest + [list[k]];
      }
      k := k + 1;
    }
    assert list[..k] == list;
  }

  class PerCore {
    var current: int
    var idle: int
    var status: map<int, Status>
    var prio: map<int, nat>
    var ready: TaskHandlePriorityQueue
    var blocked: seq<Node>
    var finished: seq<int>
    var waiting: map<int, seq<Handle>>
    var noTasks: int
    var timer: Option<nat>

    ghost predicate Valid()
      reads this, ready
    {
      ready.Valid() && Known(State()) && forall id :: id in prio ==> prio[id] < NO_PRIORITIES
    }

    ghost function State(): Core
      reads this, ready
    {
      Core(current, idle, status, prio, ready.handles, blocked, finished, waiting, noTasks, timer)
    }

    /** A core that only has its idle task. */
    constructor (idleId: int)
      ensures Valid() && fresh(ready) && State() == Boot(idleId)
    {
      current, idle := idleId, idleId;
      status, prio := map[idleId := Status.Idle], map[idleId := 0];
      ready := new TaskHandlePriorityQueue();
      blocked, finished, waiting := [], [], map[idleId := []];
      noTasks, timer := 0, None;
    }

    method SpawnTask(id: int, p: nat)
      requires Valid() && id !in status && p < NO_PRIORITIES
      modifies this, ready
      ensures Valid() && ready == old(ready) && State() == Spawn(old(State()), id, p)
    {
      waiting := waiting[id := []];
      noTasks := noTasks + 1;
      status := status[id := Status.Ready];
      prio := prio[id := p];
      ready.Push(Handle(id, p));
    }

    method BlockCurrentTask(wakeup: Option<nat>)
      requires Valid() && status[current] == Running
      modifies this
      ensures Valid() && ready == old(ready) && State() == Block(old(State()), wakeup)
    {
      status := status[current := Status.Blocked];
      blocked := AddBlocked(blocked, Node(Handle(current, prio[current]), wakeup));
      if wakeup.Some? {
        timer := wakeup;
      }
    }

    /** `custom_wakeup`; `false` stands for the `unreachable!()` it runs into for a task that is not
        in the list of blocked tasks. */
    method CustomWakeup(id: int) returns (found: bool)
      requires Valid() && id in status
      modifies this, ready
      ensures Valid() && ready == old(ready)
      ensures found <==> HasNode(old(blocked), id)
      ensures State() == if found then Wakeup(old(State()), id) else old(State())
    {
      var first, rest;
      found, first, rest := TakeBlocked(blocked, id);
      if found {
        blocked := rest;
        if first {
          timer := if rest == [] then None else rest[0].wakeup;
        }
        status := status[id := Status.Ready];
        ready.Push(Handle(id, prio[id]));
      }
    }

    method HandleWaitingTasks(now: nat)
      requires Valid() && forall h :: h in Due(blocked, now) ==> h.id in status && h.prio < NO_PRIORITIES
      modifies this, ready
      ensures Valid() && ready == old(ready) && State() == Tick(old(State()), now)
    {
      var due, rest := ExtractDue(blocked, now);
      MakeReady(due);
      blocked := rest;
      timer := if rest == [] then None else rest[0].wakeup;
    }

    /** The loop over the tasks taken out. */
    method MakeReady(due: seq<Handle>)
      requires ready.Valid() && forall h :: h in due ==> h.id in status && h.prio < NO_PRIORITIES
      modifies this`status, ready
      ensures ready.Valid() && ready.handles == InsertAll(old(ready.handles), due)
      ensures status == MarkReady(old(status), due) && status.Keys == old(status.Keys)
    {
      var k := 0;
      while k < |due|
        invariant k <= |due| && ready.Valid() && status.Keys == old(status.Keys)
        invariant MarkReady(status, due[k..]) == MarkReady(old(status), due)
        invariant InsertAll(ready.handles, due[k..]) == InsertAll(old(ready.handles), due)
      {
        assert due[k] in due && due[k..][0] == due[k] && due[k..][1..] == due[k + 1..];
        status := status[due[k].id := Status.Ready];
        ready.Push(due[k]);
        k := k + 1;
      }
    }

    method JoinTask(id: int)
      requires Valid() && status[current] == Running
      modifies this
      ensures Valid() && ready == old(ready) && State() == Join(old(State()), id)
    {
      if id !in waiting {
        return;
      }
      waiting := waiting[id := waiting[id] + [Handle(current, prio[current])]];
      BlockCurrentTask(None);
    }

    /** The wake-ups of `exit`, up to the first task that is not found. */
    method WakeAll(l: seq<Handle>) returns (found: bool)
      requires Valid() && forall h :: h in l ==> h.id in status
      modifies this, ready
      ensures Valid() && ready == old(ready)
      ensures found <==> AllFound(old(blocked), l)
      ensures State() == WakeupAll(old(State()), l)
    {
      var k := 0;
      while k < |l|
        invariant k <= |l| && Valid() && ready == old(ready) && status.Keys == old(status.Keys)
        invariant AllFound(blocked, l[k..]) <==> AllFound(old(blocked), l)
        invariant WakeupAll(State(), l[k..]) == WakeupAll(old(State()), l)
      {
        assert l[k] in l && l[k..][0] == l[k] && l[k..][1..] == l[k + 1..];
        found := CustomWakeup(l[k].id);
        if !found {
          return;
        }
        k := k + 1;
      }
      return true;
    }

    /** `exit` up to the reschedule; `false` when a task that waits for this end is not found. */
    method ExitTask() returns (found: bool)
      requires Valid() && status[current] == Running
      requires forall h :: h in Joiners(State()) ==> h.id in status
      modifies this, ready
      ensures Valid() && ready == old(ready)
      ensures found <==> AllFound(old(blocked), Joiners(old(State())))
      ensures State() == Exit(old(State()))
    {
      status := status[current := Status.Finished];
      noTasks := noTasks - 1;
      found := true;
      if current in waiting {
        var queue := waiting[current];
        waiting := waiting - {current};
        found := WakeAll(queue);
      } else {
        assert waiting - {current} == waiting;
      }
    }

    /** The start of `scheduler`: finished tasks are dropped, a current one that finished is put aside. */
    method RetireCurrent()
      requires Valid()
      modifies this
      ensures Valid() && ready == old(ready) && State() == Retire(old(State()))
    {
      finished := [];
      if status[current] == Finished {
        status := status[current := Invalid];
        finished := finished + [current];
      }
    }

    /** The choice of the next task; `st` is the status the current task had on entry. */
    method PickTask(st: Status) returns (task: Option<Handle>)
      requires Valid()
      modifies ready
      ensures ready.Valid()
      ensures task == if old(ready.handles) == [] || (st == Running &&
              old(ready.handles)[0].prio < prio[current]) then None
                      else Some(old(ready.handles)[0])
      ensures ready.handles == if task == None then old(ready.handles) else old(ready.handles)[1..]
    {
      if st == Running {
        task := ready.PopWithPrio(prio[current]);
      } else {
        task := ready.Pop();
      }
    }

    /** The end of `scheduler`: the current task goes back if it was running, and `h` runs. */
    method SwitchToTask(h: Handle)
      requires Valid() && h.id in status && status[h.id] != Status.Idle
      modifies this, ready
      ensures Valid() && ready == old(ready)
      ensures old(status[current]) == Running ==>
                ready.handles == Insert(old(ready.handles), Handle(old(current), old(prio[current])))
      ensures old(status[current]) != Running ==> ready.handles == old(ready.handles)
      ensures var again := old(status[current]) == Running;
              var left := if again then old(status)[old(current) := Status.Ready] else old(status);
              State() == old(State()).(ready := ready.handles, status := left[h.id := Running], current := h.id)
    {
      var id := current;
      if status[current] == Running {
        status := status[current := Status.Ready];
        ready.Push(Handle(current, prio[current]));
      }
      if status[h.id] != Status.Idle {
        status := status[h.id := Running];
      }
      if id == h.id {
        return;
      }
      current := h.id;
    }

    /** `scheduler` */
    method Reschedule()
      requires Valid()
      requires forall h :: h in ready.handles ==> h.id in status && status[h.id] != Status.Idle
      modifies this, ready
      ensures Valid() && ready == old(ready) && State() == Schedule(old(State()))
    {
      var st := status[current];
      RetireCurrent();
      ghost var r := State();
      var task := PickTask(st);
      if task.None? {
        if st != Running && st != Status.Idle {
          current := idle;
        }
        return;
      }
      assert task.value in old(ready.handles);
      SwitchToTask(task.value);
      assert State() == SwitchTo(r, task.value);
    }
  }
}
