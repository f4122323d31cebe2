/** The priority queue of task handles: one queue per priority and a bitmap of the queues in use.
    It is a list kept in order of descending priority, first come first served within one. */
module PrioQueue {
  import opened Basics
  import opened Bitmap

  const NO_PRIORITIES: nat := 31

  datatype Handle = Handle(id: int, prio: nat)

  // ---------- the simple form: an ordered list ----------

  /** `h` after everything at least as urgent. */
  function Insert(l: seq<Handle>, h: Handle): (r: seq<Handle>)
    ensures |r| == |l| + 1
  {
    if l != [] && l[0].prio >= h.prio then [l[0]] + Insert(l[1..], h) else [h] + l
  }

  predicate Same(x: Handle, h: Handle) {
    x.id == h.id && x.prio == h.prio
  }

  /** Everything but the entries for `h`. */
  function Drop(l: seq<Handle>, h: Handle): (r: seq<Handle>)
    ensures |r| <= |l|
  {
    if l == [] then [] else (if Same(l[0], h) then [] else [l[0]]) + Drop(l[1..], h)
  }

  lemma {:induction false} DropConcat(l: seq<Handle>, r: seq<Handle>, h: Handle)
    ensures Drop(l + r, h) == Drop(l, h) + Drop(r, h)
  {
    if l == [] {
      assert l + r == r;
    } else {
      assert (l + r)[1..] == l[1..] + r;
      DropConcat(l[1..], r, h);
    }
  }

  lemma {:induction false} DropOthers(l: seq<Handle>, h: Handle)
    requires forall x :: x in l ==> !Same(x, h)
    ensures Drop(l, h) == l
  {
    if l != [] {
      DropOthers(l[1..], h);
    }
  }

  lemma {:induction false} DropContents(l: seq<Handle>, h: Handle, x: Handle)
    ensures x in Drop(l, h) <==> x in l && !Same(x, h)
  {
    if l != [] {
      DropContents(l[1..], h, x);
    }
  }

  lemma {:induction false} InsertContents(l: seq<Handle>, h: Handle)
    ensures multiset(Insert(l, h)) == multiset(l) + multiset{h}
  {
    if l != [] {
      assert l == [l[0]] + l[1..];
      InsertContents(l[1..], h);
    }
  }

  lemma {:induction false} InsertSkips(front: seq<Handle>, rest: seq<Handle>, h: Handle)
    requires forall x :: x in front ==> x.prio >= h.prio
    ensures Insert(front + rest, h) == front + Insert(rest, h)
  {
    if front == [] {
      assert front + rest == rest;
    } else {
      assert (front + rest)[1..] == front[1..] + rest;
      InsertSkips(front[1..], rest, h);
    }
  }

  // ---------- the fast form: an array of queues ----------

  type Queues = seq<seq<Handle>>

  /** The queues below priority `k`, most urgent first. */
  function Order(qs: Queues, k: nat): (l: seq<Handle>)
    requires k <= |qs|
  {
    if k == 0 then [] else qs[k - 1] + Order(qs, k - 1)
  }

  predicate Sorted(qs: Queues) {
    forall i, x :: 0 <= i < |qs| && x in qs[i] ==> x.prio == i
  }

  lemma {:induction false} OrderBelow(qs: Queues, k: nat, x: Handle)
    requires k <= |qs| && Sorted(qs)
    ensures x in Order(qs, k) <==> x.prio < k && x in qs[x.prio]
  {
    if k > 0 {
      OrderBelow(qs, k - 1, x);
    }
  }

  lemma {:induction false} OrderSame(qs: Queues, i: nat, q: seq<Handle>, k: nat)
    requires k <= i < |qs|
    ensures Order(qs[i := q], k) == Order(qs, k)
  {
    if k > 0 {
      OrderSame(qs, i, q, k - 1);
    }
  }

  /** Putting a handle at the end of its queue inserts it into the list. */
  lemma {:induction false} OrderOfPush(qs: Queues, h: Handle, k: nat)
    requires h.prio < k <= |qs| && Sorted(qs)
    ensures Order(qs[h.prio := qs[h.prio] + [h]], k) == Insert(Order(qs, k), h)
  {
    var i := h.prio;
    var rest := Order(qs, k - 1);
    InsertSkips(qs[k - 1], rest, h);
    if k - 1 == i {
      OrderSame(qs, i, qs[i] + [h], i);
      if rest != [] {
        OrderBelow(qs, i, rest[0]);
      }
      assert qs[i] + [h] + rest == qs[i] + ([h] + rest);
    } else {
      OrderOfPush(qs, h, k - 1);
    }
  }

  /** With no queue in use between `i` and `k`, the list starts with queue `i`. */
  lemma {:induction false} OrderFrom(qs: Queues, i: nat, k: nat)
    requires i < k <= |qs| && forall j :: i < j < k ==> qs[j] == []
    ensures Order(qs, k) == qs[i] + Order(qs, i)
  {
    if i < k - 1 {
      OrderFrom(qs, i, k - 1);
    }
  }

  lemma {:induction false} OrderOfNothing(qs: Queues, k: nat)
    requires k <= |qs|
    ensures Order(qs, k) == [] <==> forall j :: 0 <= j < k ==> qs[j] == []
  {
    if k > 0 {
      OrderOfNothing(qs, k - 1);
    }
  }

  lemma {:induction false} OrderOfDrop(qs: Queues, h: Handle, k: nat)
    requires h.prio < |qs| && k <= |qs| && Sorted(qs)
    ensures Order(qs[h.prio := Drop(qs[h.prio], h)], k) == Drop(Order(qs, k), h)
  {
    if k > 0 {
      OrderOfDrop(qs, h, k - 1);
      DropConcat(qs[k - 1], Order(qs, k - 1), h);
      if k - 1 != h.prio {
        DropOthers(qs[k - 1], h);
      }
    }
  }

  // ---------- the bitmap ----------

  /** Bit `i` says whether queue `i` is in use. */
  ghost predicate Marks(bitmap: nat, qs: Queues) {
    |qs| == NO_PRIORITIES && forall i: nat :: Bit(bitmap, i) <==> i < NO_PRIORITIES && qs[i] != []
  }

  lemma MarksSet(bitmap: nat, qs: Queues, i: nat, q: seq<Handle>)
    requires Marks(bitmap, qs) && i < NO_PRIORITIES && q != []
    ensures Marks(SetBit(bitmap, i), qs[i := q])
  {
    forall j: nat
      ensures Bit(SetBit(bitmap, i), j) <==> j < NO_PRIORITIES && qs[i := q][j] != []
    {
      BitOfSet(bitmap, i, j);
    }
  }

  lemma MarksClear(bitmap: nat, qs: Queues, i: nat)
    requires Marks(bitmap, qs) && i < NO_PRIORITIES
    ensures Marks(ClearBit(bitmap, i), qs[i := []])
  {
    forall j: nat
      ensures Bit(ClearBit(bitmap, i), j) <==> j < NO_PRIORITIES && qs[i := []][j] != []
    {
      BitOfClear(bitmap, i, j);
    }
  }

  lemma MarksKeep(bitmap: nat, qs: Queues, i: nat, q: seq<Handle>)
    requires Marks(bitmap, qs) && i < NO_PRIORITIES && q != [] && qs[i] != []
    ensures Marks(bitmap, qs[i := q])
  {
  }

  lemma MarksNothing(bitmap: nat, qs: Queues)
    requires Marks(bitmap, qs)
    ensures bitmap == 0 <==> Order(qs, NO_PRIORITIES) == []
  {
    OrderOfNothing(qs, NO_PRIORITIES);
    if bitmap > 0 {
      MsbIsOne(bitmap);
      assert qs[Msb(bitmap)] != [];
    } else {
      forall j: nat | j < NO_PRIORITIES
        ensures qs[j] == []
      {
        BitOfZero(j);
      }
    }
  }

  /** Taking the first handle of that queue takes the first of the list. */
  lemma OrderOfPop(qs: Queues, i: nat, k: nat, popped: Queues, q: seq<Handle>, rest: seq<Handle>)
    requires i < k <= |qs| && forall j :: i < j < k ==> qs[j] == []
    requires q == qs[i] && q != [] && rest == Order(qs, i) && popped == qs[i := q[1..]]
    ensures Order(qs, k) == q + rest && Order(popped, k) == q[1..] + rest && Order(popped, k) == Order(qs, k)[1..]
  {
    OrderFrom(qs, i, k);
    OrderSame(qs, i, q[1..], i);
    OrderFrom(popped, i, k);
    TailOfConcat(q, rest);
  }

  lemma TailOfConcat(q: seq<Handle>, rest: seq<Handle>)
    requires q != []
    ensures (q + rest)[1..] == q[1..] + rest
  {
  }

  /** The queue of the highest bit is in use, and none above it. */
  lemma MarksAbove(bitmap: nat, qs: Queues, i: nat)
    requires Marks(bitmap, qs) && bitmap > 0 && i == Msb(bitmap)
    ensures i < NO_PRIORITIES && qs[i] != [] && forall j :: i < j < NO_PRIORITIES ==> qs[j] == []
  {
    MsbIsOne(bitmap);
    forall j: nat | i < j < NO_PRIORITIES
      ensures qs[j] == []
    {
      if qs[j] != [] {
        MsbIsHighest(bitmap, j);
      }
    }
  }

  /** `remove`'s scan of one queue. */
  method RemoveAll(queue: seq<Handle>, task: Handle) returns (rest: seq<Handle>, success: bool)
    requires forall x :: x in queue ==> x.prio == task.prio
    ensures rest == Drop(queue, task)
    ensures success <==> exists x :: x in queue && Same(x, task)
  {
    rest, success := queue, false;
    var i := 0;
    ghost var seen: nat := 0;
    while i != |rest|
      invariant i <= |rest| && seen <= |queue| && |rest| - i == |queue| - seen
      invariant rest[i..] == queue[seen..] && rest[..i] == Drop(queue[..seen], task)
      invariant success <==> exists x :: x in queue[..seen] && Same(x, task)
      decreases |rest| - i
    {
      var x := rest[i];
      assert x == rest[i..][0] == queue[seen..][0];
      DropOneMore(queue, seen, task);
      if x.id == task.id {
        TakeOut(rest, i);
        rest := rest[..i] + rest[i + 1..];
        success := true;
      } else {
        assert rest[..i + 1] == rest[..i] + [x];
        i := i + 1;
      }
      seen := seen + 1;
    }
    assert queue[..seen] == queue;
  }

  lemma DropOneMore(queue: seq<Handle>, n: nat, task: Handle)
    requires n < |queue| && forall x :: x in queue ==> x.prio == task.prio
    ensures Drop(queue[..n + 1], task) == Drop(queue[..n], task) + if queue[n].id == task.id then [] else [queue[n]]
    ensures queue[n..][1..] == queue[n + 1..]
    ensures (exists x :: x in queue[..n + 1] && Same(x, task)) <==>
            (exists x :: x in queue[..n] && Same(x, task)) || queue[n].id == task.id
  {
    var x := queue[n];
    assert x in queue;
    assert queue[..n + 1] == queue[..n] + [x];
    DropConcat(queue[..n], [x], task);
    assert x in queue[..n + 1];
  }

  lemma TakeOut(rest: seq<Handle>, i: nat)
    requires i < |rest|
    ensures (rest[..i] + rest[i + 1..])[..i] == rest[..i] && (rest[..i] + rest[i + 1..])[i..] == rest[i..][1..]
  {
  }

  class TaskHandlePriorityQueue {
    var queues: Queues
    var bitmap: nat
    /** The handles in the order they will be popped. */
    ghost var handles: seq<Handle>

    ghost predicate Valid()
      reads this
    {
      Marks(bitmap, queues) && Sorted(queues) && handles == Order(queues, NO_PRIORITIES)
    }

    constructor ()
      ensures Valid() && handles == []
    {
      queues := seq(NO_PRIORITIES, _ => []);
      bitmap := 0;
      handles := [];
      new;
      forall i: nat
        ensures !Bit(0, i)
      {
        BitOfZero(i);
      }
      OrderOfNothing(queues, NO_PRIORITIES);
    }

    method IsEmpty() returns (r: bool)
      requires Valid()
      ensures r <==> handles == []
    {
      MarksNothing(bitmap, queues);
      r := bitmap == 0;
    }

    method Contains(task: Handle) returns (r: bool)
      requires Valid() && task.prio < NO_PRIORITIES
      ensures r <==> task in handles
    {
      var queue := queues[task.prio];
      OrderBelow(queues, NO_PRIORITIES, task);
      r := false;
      var i := 0;
      while i < |queue| && !r
        invariant i <= |queue|
        invariant r <==> task in queue[..i]
      {
        assert queue[i] in queue;
        r := queue[i].id == task.id;
        i := i + 1;
      }
      assert r || queue[..i] == queue;
    }

    method Push(task: Handle)
      requires Valid() && task.prio < NO_PRIORITIES
      modifies this
      ensures Valid() && handles == Insert(old(handles), task)
    {
      var i := task.prio;
      OrderOfPush(queues, task, NO_PRIORITIES);
      MarksSet(bitmap, queues, i, queues[i] + [task]);
      bitmap := SetBit(bitmap, i);
      queues := queues[i := queues[i] + [task]];
      handles := Insert(handles, task);
    }

    method PopFromQueue(i: nat) returns (r: Option<Handle>)
      requires Valid() && i < NO_PRIORITIES && queues[i] != []
      modifies this
      ensures Valid() && r == Some(old(queues[i][0]))
      ensures queues == old(queues)[i := old(queues[i])[1..]] && handles == Order(queues, NO_PRIORITIES)
    {
      var queue := queues[i];
      r := Some(queue[0]);
      if queue[1..] == [] {
        MarksClear(bitmap, queues, i);
        bitmap := ClearBit(bitmap, i);
      } else {
        MarksKeep(bitmap, queues, i, queue[1..]);
      }
      queues := queues[i := queue[1..]];
      handles := Order(queues, NO_PRIORITIES);
    }

    method Pop() returns (r: Option<Handle>)
      requires Valid()
      modifies this
      ensures Valid()
      ensures old(handles) == [] ==> r == None && handles == []
      ensures old(handles) != [] ==> r == Some(old(handles)[0]) && handles == old(handles)[1..]
    {
      MarksNothing(bitmap, queues);
      if bitmap == 0 {
        return None;
      }
      var i := Msb(bitmap);
      MarksAbove(bitmap, queues, i);
      OrderOfPop(queues, i, NO_PRIORITIES, queues[i := queues[i][1..]], queues[i], Order(queues, i));
      r := PopFromQueue(i);
    }

    /** `pop_with_prio` of the queue of ready tasks, which is otherwise this same structure. */
    method PopWithPrio(prio: nat) returns (r: Option<Handle>)
      requires Valid()
      modifies this
      ensures Valid()
      ensures old(handles) == [] || old(handles)[0].prio < prio ==> r == None && handles == old(handles)
      ensures old(handles) != [] && old(handles)[0].prio >= prio ==>
                r == Some(old(handles)[0]) && handles == old(handles)[1..]
    {
      MarksNothing(bitmap, queues);
      if bitmap == 0 {
        return None;
      }
      var i := Msb(bitmap);
      MarksAbove(bitmap, queues, i);
      OrderOfPop(queues, i, NO_PRIORITIES, queues[i := queues[i][1..]], queues[i], Order(queues, i));
      assert queues[i][0] in queues[i];
      if i < prio {
        return None;
      }
      r := PopFromQueue(i);
    }

    method Remove(task: Handle) returns (success: bool)
      requires Valid() && task.prio < NO_PRIORITIES
      modifies this
      ensures Valid() && handles == Drop(old(handles), task)
      ensures success <==> task in old(handles)
    {
      var i := task.prio;
      OrderOfDrop(queues, task, NO_PRIORITIES);
      OrderBelow(queues, NO_PRIORITIES, task);
      var rest;
      rest, success := RemoveAll(queues[i], task);
      forall x
        ensures x in rest ==> x in queues[i]
      {
        DropContents(queues[i], task, x);
      }
      if rest == [] {
        MarksClear(bitmap, queues, i);
        bitmap := ClearBit(bitmap, i);
      } else {
        MarksKeep(bitmap, queues, i, rest);
      }
      queues := queues[i := rest];
      handles := Drop(handles, task);
    }
  }
}
