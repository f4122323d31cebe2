/** Lists of handles in which no handle occurs twice. */
module HandleLists {
  import opened PrioQueue

  function Ids(l: seq<Handle>): set<int> {
    set x | x in l :: x.id
  }

  predicate OnceEach(l: seq<Handle>) {
    forall h :: h in l ==> multiset(l)[h] == 1
  }

  lemma InsertMembers(l: seq<Handle>, h: Handle, x: Handle)
    ensures x in Insert(l, h) <==> x in l || x == h
  {
    InsertContents(l, h);
    assert x in multiset(Insert(l, h)) <==> x in multiset(l) + multiset{h};
  }

  lemma OnceEachInsert(l: seq<Handle>, h: Handle)
    requires OnceEach(l) && h !in l
    ensures OnceEach(Insert(l, h))
  {
    InsertContents(l, h);
    forall x | x in Insert(l, h)
      ensures multiset(Insert(l, h))[x] == 1
    {
      InsertMembers(l, h, x);
      assert multiset(l)[x] == if x in l then 1 else 0;
    }
  }

  lemma {:induction false} DropCounts(l: seq<Handle>, h: Handle, x: Handle)
    ensures multiset(Drop(l, h))[x] <= multiset(l)[x]
  {
    if l != [] {
      assert l == [l[0]] + l[1..];
      DropCounts(l[1..], h, x);
    }
  }

  lemma OnceEachDrop(l: seq<Handle>, h: Handle)
    requires OnceEach(l)
    ensures OnceEach(Drop(l, h))
  {
    forall x | x in Drop(l, h)
      ensures multiset(Drop(l, h))[x] == 1
    {
      DropContents(l, h, x);
      DropCounts(l, h, x);
      assert x in multiset(Drop(l, h));
    }
  }

  /** Taking the front off a list without repetitions: no handle is in both parts. */
  lemma OnceEachSplit(l: seq<Handle>, front: seq<Handle>, back: seq<Handle>)
    requires l == front + back && OnceEach(l)
    ensures OnceEach(front) && OnceEach(back)
    ensures forall h :: h in front ==> h !in back
  {
    assert multiset(l) == multiset(front) + multiset(back);
    forall h
      ensures h in front ==> multiset(front)[h] == 1 && h !in back
      ensures h in back ==> multiset(back)[h] == 1
    {
      assert h in l <==> h in front || h in back;
      assert h in multiset(front) <==> h in front;
      assert h in multiset(back) <==> h in back;
    }
  }

  predicate OneHandlePerId(l: seq<Handle>) {
    forall x, y :: x in l && y in l && x.id == y.id ==> x == y
  }

  lemma {:induction false} CountIds(l: seq<Handle>)
    requires OnceEach(l) && OneHandlePerId(l)
    ensures |Ids(l)| == |l|
  {
    if l == [] {
      assert Ids(l) == {};
    } else {
      var x, rest := l[0], l[1..];
      OnceEachSplit(l, [x], rest);
      assert x in [x];
      CountIds(rest);
      assert Ids(l) == {x.id} + Ids(rest);
      assert x.id !in Ids(rest);
    }
  }
}
