/** The lists a task can be in: the ready list, in order of priority, and the list of blocked tasks,
    in order of wake-up time. */
module TaskLists {
  import opened Basics
  import opened PrioQueue

  /** How many entries a task has in a list. */
  function Count(l: seq<Handle>, id: int): nat {
    if l == [] then 0 else (if l[0].id == id then 1 else 0) + Count(l[1..], id)
  }

  lemma {:induction false} CountInsert(l: seq<Handle>, h: Handle, id: int)
    ensures Count(Insert(l, h), id) == Count(l, id) + if h.id == id then 1 else 0
  {
    if l != [] {
      CountInsert(l[1..], h, id);
    }
  }

  lemma {:induction false} CountMember(l: seq<Handle>, h: Handle)
    requires h in l
    ensures Count(l, h.id) > 0
  {
    if l[0] != h {
      assert l == [l[0]] + l[1..];
      CountMember(l[1..], h);
    }
  }

  /** Most urgent first. */
  predicate Descending(l: seq<Handle>) {
    forall i, j :: 0 <= i < j < |l| ==> l[i].prio >= l[j].prio
  }

  lemma {:induction false} InsertDescending(l: seq<Handle>, h: Handle)
    requires Descending(l)
    ensures Descending(Insert(l, h))
  {
    if l != [] && l[0].prio >= h.prio {
      assert Descending(l[1..]);
      InsertDescending(l[1..], h);
      var r := Insert(l[1..], h);
      forall i | 0 <= i < |r|
        ensures l[0].prio >= r[i].prio
      {
        InsertContents(l[1..], h);
        assert r[i] in multiset(r);
        assert r[i] in l[1..] || r[i] == h;
      }
    }
  }

  // ---------- blocked tasks ----------

  datatype Node = Node(task: Handle, wakeup: Option<nat>)

  function Tasks(l: seq<Node>): (r: seq<Handle>)
    ensures |r| == |l|
  {
    if l == [] then [] else [l[0].task] + Tasks(l[1..])
  }

  /** Not later, where no time at all is later than any time. */
  predicate NotLater(a: Option<nat>, b: Option<nat>) {
    b.None? || (a.Some? && a.value <= b.value)
  }

  predicate InTimeOrder(l: seq<Node>) {
    forall i, j :: 0 <= i < j < |l| ==> NotLater(l[i].wakeup, l[j].wakeup)
  }

  /** The place of a new node: behind those not later than it; a node without a time at the end. */
  function AddNode(l: seq<Node>, n: Node): seq<Node> {
    if l == [] || (n.wakeup.Some? && (l[0].wakeup.None? || n.wakeup.value < l[0].wakeup.value)) then [n] + l
    else [l[0]] + AddNode(l[1..], n)
  }

  lemma {:induction false} AddNodeSplits(l: seq<Node>, n: Node, k: nat)
    requires k <= |l| && (forall i :: 0 <= i < k ==> !GoesBefore(n, l[i])) && (k < |l| ==> GoesBefore(n, l[k]))
    ensures AddNode(l, n) == l[..k] + [n] + l[k..]
  {
    if k > 0 {
      AddNodeSplits(l[1..], n, k - 1);
      assert l[..k] == [l[0]] + l[1..][..k - 1];
      assert l[1..][k - 1..] == l[k..];
      assert !GoesBefore(n, l[0]);
    }
  }

  predicate GoesBefore(n: Node, x: Node) {
    n.wakeup.Some? && (x.wakeup.None? || n.wakeup.value < x.wakeup.value)
  }

  lemma {:induction false} CountAddNode(l: seq<Node>, n: Node, id: int)
    ensures Count(Tasks(AddNode(l, n)), id) == Count(Tasks(l), id) + if n.task.id == id then 1 else 0
  {
    if l != [] && !GoesBefore(n, l[0]) {
      CountAddNode(l[1..], n, id);
    }
  }

  lemma {:induction false} AddNodeMembers(l: seq<Node>, n: Node, x: Node)
    ensures x in AddNode(l, n) <==> x in l || x == n
  {
    if l != [] && !GoesBefore(n, l[0]) {
      AddNodeMembers(l[1..], n, x);
      assert l == [l[0]] + l[1..];
    }
  }

  lemma {:induction false} AddNodeInOrder(l: seq<Node>, n: Node)
    requires InTimeOrder(l)
    ensures InTimeOrder(AddNode(l, n))
  {
    if l != [] && !GoesBefore(n, l[0]) {
      assert InTimeOrder(l[1..]);
      AddNodeInOrder(l[1..], n);
      var r := AddNode(l[1..], n);
      forall i | 0 <= i < |r|
        ensures NotLater(l[0].wakeup, r[i].wakeup)
      {
        AddNodeMembers(l[1..], n, r[i]);
        assert r[i] in r;
      }
    }
  }

  /** The list without the first node of a task. */
  function RemoveNode(l: seq<Node>, id: int): seq<Node> {
    if l == [] then [] else if l[0].task.id == id then l[1..] else [l[0]] + RemoveNode(l[1..], id)
  }

  predicate HasNode(l: seq<Node>, id: int) {
    exists i :: 0 <= i < |l| && l[i].task.id == id
  }

  lemma {:induction false} RemoveNodeSplits(l: seq<Node>, id: int, k: nat)
    requires k < |l| && l[k].task.id == id && forall i :: 0 <= i < k ==> l[i].task.id != id
    ensures RemoveNode(l, id) == l[..k] + l[k + 1..]
  {
    if k > 0 {
      RemoveNodeSplits(l[1..], id, k - 1);
      assert l[..k] == [l[0]] + l[1..][..k - 1];
      assert l[1..][k..] == l[k + 1..];
    }
  }

  lemma {:induction false} CountRemoveNode(l: seq<Node>, id: int, x: int)
    ensures Count(Tasks(RemoveNode(l, id)), x) ==
            Count(Tasks(l), x) - if x == id && Count(Tasks(l), id) > 0 then 1 else 0
  {
    if l != [] && l[0].task.id != id {
      CountRemoveNode(l[1..], id, x);
    }
  }

  lemma {:induction false} RemoveNodeMembers(l: seq<Node>, id: int, x: Node)
    ensures x in RemoveNode(l, id) ==> x in l
    ensures x in l && x.task.id != id ==> x in RemoveNode(l, id)
  {
    if l != [] {
      assert l == [l[0]] + l[1..];
      if l[0].task.id != id {
        RemoveNodeMembers(l[1..], id, x);
      }
    }
  }

  lemma {:induction false} RemoveNodeInOrder(l: seq<Node>, id: int)
    requires InTimeOrder(l)
    ensures InTimeOrder(RemoveNode(l, id))
  {
    if l != [] && l[0].task.id != id {
      assert InTimeOrder(l[1..]);
      RemoveNodeInOrder(l[1..], id);
      var r := RemoveNode(l[1..], id);
      forall i | 0 <= i < |r|
        ensures NotLater(l[0].wakeup, r[i].wakeup)
      {
        RemoveNodeMembers(l[1..], id, r[i]);
        assert r[i] in r;
      }
    }
  }

  lemma {:induction false} CountHasNode(l: seq<Node>, id: int)
    ensures Count(Tasks(l), id) > 0 <==> HasNode(l, id)
  {
    if l != [] {
      CountHasNode(l[1..], id);
      if HasNode(l[1..], id) {
        var i :| 0 <= i < |l[1..]| && l[1..][i].task.id == id;
        assert l[i + 1].task.id == id;
      }
      if HasNode(l, id) && l[0].task.id != id {
        var i :| 0 <= i < |l| && l[i].task.id == id;
        assert l[1..][i - 1].task.id == id;
      }
    }
  }

  // ---------- the timer ----------

  predicate Elapsed(n: Node, now: nat) {
    n.wakeup.Some? && n.wakeup.value < now
  }

  /** The tasks whose time has come, in the order of the list. */
  function Due(l: seq<Node>, now: nat): seq<Handle> {
    if l == [] then []
    else if Elapsed(l[0], now) then [l[0].task] + Due(l[1..], now)
    else Due(l[1..], now)
  }

  /** The others. */
  function NotDue(l: seq<Node>, now: nat): seq<Node> {
    if l == [] then []
    else if Elapsed(l[0], now) then NotDue(l[1..], now)
    else [l[0]] + NotDue(l[1..], now)
  }

  lemma {:induction false} CountDue(l: seq<Node>, now: nat, id: int)
    ensures Count(Due(l, now), id) + Count(Tasks(NotDue(l, now)), id) == Count(Tasks(l), id)
  {
    if l != [] {
      CountDue(l[1..], now, id);
    }
  }

  lemma {:induction false} NotDueMembers(l: seq<Node>, now: nat, x: Node)
    ensures x in NotDue(l, now) <==> x in l && !Elapsed(x, now)
  {
    if l != [] {
      NotDueMembers(l[1..], now, x);
      assert l == [l[0]] + l[1..];
    }
  }

  lemma {:induction false} NotDueInOrder(l: seq<Node>, now: nat)
    requires InTimeOrder(l)
    ensures InTimeOrder(NotDue(l, now))
  {
    if l != [] {
      assert InTimeOrder(l[1..]);
      NotDueInOrder(l[1..], now);
      var r := NotDue(l[1..], now);
      forall i | 0 <= i < |r|
        ensures NotLater(l[0].wakeup, r[i].wakeup)
      {
        NotDueMembers(l[1..], now, r[i]);
        assert r[i] in r;
      }
    }
  }

  lemma {:induction false} DueAreTasks(l: seq<Node>, now: nat, h: Handle)
    ensures h in Due(l, now) ==> h in Tasks(l)
  {
    if l != [] {
      DueAreTasks(l[1..], now, h);
    }
  }
}
