/** The directory tree of the in-memory file system and the operations that walk down a path. */
module DirTree {
  import opened Basics

  datatype Node = File(data: seq<int>) | Dir(entries: map<string, Node>)

  datatype Errno = Badf | Noent | Notdir | Isdir | Nosys

  datatype Outcome = Ok | Err(errno: Errno)

  type Path = seq<string>

  // ---------- paths ----------

  /** The parts of a string between slashes: `split('/')`. */
  function SplitSlash(s: string): (r: seq<string>)
    ensures |r| >= 1
  {
    if s == "" then [""]
    else
      var rest := SplitSlash(s[1..]);
      if s[0] == '/' then [""] + rest else [[s[0]] + rest[0]] + rest[1..]
  }

  function JoinSlash(parts: seq<string>): string
    requires |parts| >= 1
  {
    if |parts| == 1 then parts[0] else parts[0] + "/" + JoinSlash(parts[1..])
  }

  /** The parts have no slash in them, and with slashes between them they are the path again. */
  lemma {:induction false} SplitJoins(s: string)
    ensures JoinSlash(SplitSlash(s)) == s
    ensures forall i :: 0 <= i < |SplitSlash(s)| ==> '/' !in SplitSlash(s)[i]
  {
    if s != "" {
      SplitJoins(s[1..]);
      var rest := SplitSlash(s[1..]);
      assert s == [s[0]] + s[1..];
      if s[0] == '/' {
        assert ([""] + rest)[1..] == rest;
      } else {
        assert ([[s[0]] + rest[0]] + rest[1..])[1..] == rest[1..];
      }
    }
  }

  /** What is walked: all parts but the first, whether or not the path starts with a slash. */
  function Components(path: string): Path {
    SplitSlash(path)[1..]
  }

  /** The next part to walk is on top of the stack, the last one at its bottom. */
  predicate StackOf(stack: seq<string>, path: Path) {
    |stack| == |path| && forall k :: 0 <= k < |stack| ==> stack[k] == path[|path| - 1 - k]
  }

  /** `reverse` and `pop`, as the file system prepares a path. */
  method Prepare(path: string) returns (stack: seq<string>)
    ensures StackOf(stack, Components(path))
  {
    var components := SplitSlash(path);
    stack := [];
    var i := |components|;
    while i > 0
      invariant 0 <= i <= |components| && StackOf(stack, components[i..])
    {
      i := i - 1;
      stack := stack + [components[i]];
    }
    stack := stack[..|stack| - 1];
  }

  // ---------- the operations ----------

  /** `traverse_mkdir` */
  function Mkdir(n: Node, p: Path): (Outcome, Node)
    decreases |p|
  {
    if n.File? then (Err(Nosys), n)
    else if p == [] then (Err(Badf), n)
    else if p[0] in n.entries then
      var (r, child) := Mkdir(n.entries[p[0]], p[1..]);
      (r, Dir(n.entries[p[0] := child]))
    else if p[1..] != [] then (Err(Badf), n)
    else (Ok, Dir(n.entries[p[0] := Dir(map[])]))
  }

  /** `traverse_rmdir`: an entry that is not a directory is taken out and put back. */
  function Rmdir(n: Node, p: Path): (Outcome, Node)
    decreases |p|
  {
    if n.File? then (Err(Nosys), n)
    else if p == [] then (Err(Badf), n)
    else if p[1..] != [] then
      if p[0] !in n.entries then (Err(Badf), n)
      else
        var (r, child) := Rmdir(n.entries[p[0]], p[1..]);
        (r, Dir(n.entries[p[0] := child]))
    else if p[0] !in n.entries then (Err(Noent), n)
    else
      var rest := n.entries - {p[0]};
      if n.entries[p[0]].Dir? then (Ok, Dir(rest)) else (Err(Notdir), Dir(rest[p[0] := n.entries[p[0]]]))
  }

  /** `traverse_unlink` */
  function Unlink(n: Node, p: Path): (Outcome, Node)
    decreases |p|
  {
    if n.File? then (Err(Nosys), n)
    else if p == [] then (Err(Badf), n)
    else if p[1..] != [] then
      if p[0] !in n.entries then (Err(Badf), n)
      else
        var (r, child) := Unlink(n.entries[p[0]], p[1..]);
        (r, Dir(n.entries[p[0] := child]))
    else if p[0] !in n.entries then (Err(Noent), n)
    else
      var rest := n.entries - {p[0]};
      if n.entries[p[0]].File? then (Ok, Dir(rest)) else (Err(Isdir), Dir(rest[p[0] := n.entries[p[0]]]))
  }

  /** `traverse_open`, as far as it concerns the tree. */
  function Open(n: Node, p: Path, creat: bool, directory: bool): (Outcome, Node)
    decreases |p|
  {
    if n.File? then (Err(Nosys), n)
    else if p == [] then (Err(Noent), n)
    else if p[1..] != [] then
      if p[0] !in n.entries then (Err(Noent), n)
      else
        var (r, child) := Open(n.entries[p[0]], p[1..], creat, directory);
        (r, Dir(n.entries[p[0] := child]))
    else if p[0] !in n.entries then
      if creat then (Ok, Dir(n.entries[p[0] := File([])])) else (Err(Noent), n)
    else if directory && n.entries[p[0]].File? then (Err(Notdir), n)
    else (Ok, n)
  }

  /** `traverse_create_file` */
  function CreateFile(n: Node, p: Path, data: seq<int>): (Outcome, Node)
    decreases |p|
  {
    if n.File? then (Err(Nosys), n)
    else if p == [] then (Err(Noent), n)
    else if p[1..] != [] then
      if p[0] !in n.entries then (Err(Noent), n)
      else
        var (r, child) := CreateFile(n.entries[p[0]], p[1..], data);
        (r, Dir(n.entries[p[0] := child]))
    else (Ok, Dir(n.entries[p[0] := File(data)]))
  }

  // ---------- what a tree says: the node at each path ----------

  function Lookup(n: Node, p: Path): Option<Node>
    decreases |p|
  {
    if p == [] then Some(n)
    else if n.Dir? && p[0] in n.entries then Lookup(n.entries[p[0]], p[1..])
    else None
  }

  /** `traverse_stat` answers for the node at a path that is not empty, and for nothing else. */
  function Stat(n: Node, p: Path): Option<Node>
    decreases |p|
  {
    if n.File? then (if p == [] then Some(n) else None)
    else if p == [] then None
    else if p[0] !in n.entries then None
    else if p[1..] != [] then Stat(n.entries[p[0]], p[1..])
    else Some(n.entries[p[0]])
  }

  lemma {:induction false} StatIsLookup(n: Node, p: Path)
    requires p != []
    ensures Stat(n, p) == Lookup(n, p)
    decreases |p|
  {
    if n.Dir? && p[0] in n.entries && p[1..] != [] {
      StatIsLookup(n.entries[p[0]], p[1..]);
    }
  }

  lemma LookupOne(n: Node, p: Path)
    ensures |p| == 1 ==> Lookup(n, p) == if n.Dir? && p[0] in n.entries then Some(n.entries[p[0]]) else None
    ensures |p| == 1 ==> p[1..] == [] && Lookup(n, p[..|p| - 1]) == Some(n)
  {
    if |p| == 1 && n.Dir? && p[0] in n.entries {
      assert Lookup(n.entries[p[0]], p[1..]) == Some(n.entries[p[0]]);
    }
  }

  predicate DirAt(n: Node, p: Path) {
    Lookup(n, p).Some? && Lookup(n, p).value.Dir?
  }

  predicate FileAt(n: Node, p: Path) {
    Lookup(n, p).Some? && Lookup(n, p).value.File?
  }

  predicate NothingAt(n: Node, p: Path) {
    Lookup(n, p).None?
  }

  /** The tree with the node at `p` replaced, or removed, or added to an existing directory. */
  function Put(n: Node, p: Path, x: Option<Node>): Node
    requires p != [] && DirAt(n, p[..|p| - 1])
    decreases |p|
  {
    if |p| == 1 then Dir(if x.Some? then n.entries[p[0] := x.value] else n.entries - {p[0]})
    else
      ParentStep(n, p);
      Dir(n.entries[p[0] := Put(n.entries[p[0]], p[1..], x)])
  }

  lemma ParentStep(n: Node, p: Path)
    requires |p| > 1 && DirAt(n, p[..|p| - 1])
    ensures n.Dir? && p[0] in n.entries && DirAt(n.entries[p[0]], p[1..][..|p[1..]| - 1])
  {
    assert p[..|p| - 1][1..] == p[1..][..|p[1..]| - 1];
  }

  /** A parent one step further down. */
  lemma ParentFromStep(n: Node, p: Path)
    requires |p| > 1 && n.Dir? && p[0] in n.entries
    ensures DirAt(n, p[..|p| - 1]) <==> DirAt(n.entries[p[0]], p[1..][..|p[1..]| - 1])
  {
    assert p[..|p| - 1][1..] == p[1..][..|p[1..]| - 1];
  }

  lemma ParentMissing(n: Node, p: Path)
    requires |p| > 1 && !(n.Dir? && p[0] in n.entries)
    ensures !DirAt(n, p[..|p| - 1])
  {
    assert p[..|p| - 1][0] == p[0];
  }

  predicate Below(p: Path, q: Path) {
    |p| <= |q| && q[..|p|] == p
  }

  /** A change at `p` is seen at and below `p`. */
  lemma {:induction false} PutSeenBelow(n: Node, p: Path, x: Option<Node>, q: Path)
    requires p != [] && DirAt(n, p[..|p| - 1]) && Below(p, q)
    ensures Lookup(Put(n, p, x), q) == if x.None? then None else Lookup(x.value, q[|p|..])
    decreases |p|
  {
    assert q[0] == p[0];
    if |p| > 1 {
      ParentStep(n, p);
      assert q[1..][..|p[1..]|] == p[1..];
      assert q[1..][|p[1..]|..] == q[|p|..];
      PutSeenBelow(n.entries[p[0]], p[1..], x, q[1..]);
    }
  }

  /** It is not seen anywhere else: a path beside it leads to the same node as before, and the
      directories above it are still directories. */
  lemma {:induction false} PutNotSeenElsewhere(n: Node, p: Path, x: Option<Node>, q: Path)
    requires p != [] && DirAt(n, p[..|p| - 1]) && !Below(p, q)
    ensures Below(q, p) ==> DirAt(n, q) && DirAt(Put(n, p, x), q)
    ensures !Below(q, p) ==> Lookup(Put(n, p, x), q) == Lookup(n, q)
    decreases |p|
  {
    if q != [] && |p| > 1 && q[0] == p[0] {
      ParentStep(n, p);
      BelowCons(p, q);
      BelowCons(q, p);
      PutNotSeenElsewhere(n.entries[p[0]], p[1..], x, q[1..]);
    } else if |p| > 1 {
      ParentStep(n, p);
    }
  }

  lemma BelowCons(p: Path, q: Path)
    requires p != [] && q != [] && p[0] == q[0]
    ensures Below(p[1..], q[1..]) <==> Below(p, q)
  {
    if |p| <= |q| {
      assert q[..|p|] == [q[0]] + q[1..][..|p[1..]|];
      assert p == [p[0]] + p[1..];
      assert q[..|p|][1..] == q[1..][..|p[1..]|];
    }
  }

  // ---------- when each operation succeeds, and what it does ----------

  /** `mkdir` succeeds exactly in an existing directory on a name that is free, and adds an empty
      directory there; otherwise the tree stays as it is. */
  lemma {:induction false} MkdirIs(n: Node, p: Path)
    ensures Mkdir(n, p).0 == Ok <==> p != [] && DirAt(n, p[..|p| - 1]) && NothingAt(n, p)
    ensures Mkdir(n, p).0 == Ok ==> Mkdir(n, p).1 == Put(n, p, Some(Dir(map[])))
    ensures Mkdir(n, p).0 != Ok ==> Mkdir(n, p).1 == n
    decreases |p|
  {
    LookupOne(n, p);
    if p != [] && n.Dir? {
      if p[0] in n.entries {
        MkdirIs(n.entries[p[0]], p[1..]);
      }
      if |p| > 1 {
        if p[0] in n.entries {
          ParentFromStep(n, p);
        } else {
          ParentMissing(n, p);
        }
      }
    } else if |p| > 1 {
      ParentMissing(n, p);
    }
  }

  /** `rmdir` succeeds exactly on a directory, and removes it with all it holds. */
  lemma {:induction false} RmdirIs(n: Node, p: Path)
    ensures Rmdir(n, p).0 == Ok <==> p != [] && DirAt(n, p)
    ensures Rmdir(n, p).0 == Ok ==> DirAt(n, p[..|p| - 1]) && Rmdir(n, p).1 == Put(n, p, None)
    ensures Rmdir(n, p).0 != Ok ==> Rmdir(n, p).1 == n
    decreases |p|
  {
    LookupOne(n, p);
    if |p| > 1 && n.Dir? && p[0] in n.entries {
      RmdirIs(n.entries[p[0]], p[1..]);
      ParentFromStep(n, p);
    }
  }

  /** `unlink` succeeds exactly on a file, and removes it. */
  lemma {:induction false} UnlinkIs(n: Node, p: Path)
    ensures Unlink(n, p).0 == Ok <==> p != [] && FileAt(n, p)
    ensures Unlink(n, p).0 == Ok ==> DirAt(n, p[..|p| - 1]) && Unlink(n, p).1 == Put(n, p, None)
    ensures Unlink(n, p).0 != Ok ==> Unlink(n, p).1 == n
    decreases |p|
  {
    LookupOne(n, p);
    if |p| > 1 && n.Dir? && p[0] in n.entries {
      UnlinkIs(n.entries[p[0]], p[1..]);
      ParentFromStep(n, p);
    }
  }

  /** `open` changes the tree exactly when it creates: in an existing directory, on a free name, and
      when it is asked to. */
  lemma {:induction false} OpenIs(n: Node, p: Path, creat: bool, directory: bool)
    ensures Open(n, p, creat, directory).0 == Ok <==>
              p != [] && DirAt(n, p[..|p| - 1]) && (if NothingAt(n, p) then creat else !(directory && FileAt(n, p)))
    ensures Open(n, p, creat, directory).0 == Ok && NothingAt(n, p) ==>
              Open(n, p, creat, directory).1 == Put(n, p, Some(File([])))
    ensures Open(n, p, creat, directory).0 != Ok || !NothingAt(n, p) ==> Open(n, p, creat, directory).1 == n
    decreases |p|
  {
    LookupOne(n, p);
    if |p| > 1 {
      if n.Dir? && p[0] in n.entries {
        OpenIs(n.entries[p[0]], p[1..], creat, directory);
        ParentFromStep(n, p);
      } else {
        ParentMissing(n, p);
      }
    }
  }

  /** `create_file` succeeds in every existing directory, and replaces what the name stood for. */
  lemma {:induction false} CreateFileIs(n: Node, p: Path, data: seq<int>)
    ensures CreateFile(n, p, data).0 == Ok <==> p != [] && DirAt(n, p[..|p| - 1])
    ensures CreateFile(n, p, data).0 == Ok ==> CreateFile(n, p, data).1 == Put(n, p, Some(File(data)))
    ensures CreateFile(n, p, data).0 != Ok ==> CreateFile(n, p, data).1 == n
    decreases |p|
  {
    LookupOne(n, p);
    if |p| > 1 {
      if n.Dir? && p[0] in n.entries {
        CreateFileIs(n.entries[p[0]], p[1..], data);
        ParentFromStep(n, p);
      } else {
        ParentMissing(n, p);
      }
    }
  }

  // ---------- undoing ----------

  /** Adding a node and removing it gives the tree back exactly when the name was free. */
  lemma {:induction false} PutAndRemove(n: Node, p: Path, x: Node)
    requires p != [] && DirAt(n, p[..|p| - 1])
    ensures DirAt(Put(n, p, Some(x)), p[..|p| - 1])
    ensures Put(Put(n, p, Some(x)), p, None) == n <==> NothingAt(n, p)
    decreases |p|
  {
    LookupOne(n, p);
    var m := Put(n, p, Some(x));
    if |p| > 1 {
      ParentStep(n, p);
      PutAndRemove(n.entries[p[0]], p[1..], x);
      ParentFromStep(m, p);
      var child, twice := n.entries[p[0]], Put(Put(n.entries[p[0]], p[1..], Some(x)), p[1..], None);
      assert Put(m, p, None) == Dir(n.entries[p[0] := twice]);
      assert n.entries[p[0] := child] == n.entries;
      assert n.entries[p[0] := twice][p[0]] == twice;
    } else {
      assert p[0] !in n.entries ==> n.entries[p[0] := x] - {p[0]} == n.entries;
      assert p[0] !in n.entries[p[0] := x] - {p[0]};
    }
  }

  lemma PutThere(n: Node, p: Path, x: Node)
    requires p != [] && DirAt(n, p[..|p| - 1])
    ensures Lookup(Put(n, p, Some(x)), p) == Some(x)
  {
    PutSeenBelow(n, p, Some(x), p);
  }

  /** `mkdir` and then `rmdir` restores the tree. */
  lemma MkdirRmdir(n: Node, p: Path)
    requires Mkdir(n, p).0 == Ok
    ensures Rmdir(Mkdir(n, p).1, p) == (Ok, n)
  {
    MkdirIs(n, p);
    PutThere(n, p, Dir(map[]));
    RmdirIs(Mkdir(n, p).1, p);
    PutAndRemove(n, p, Dir(map[]));
  }

  /** Creating a file with `open` and then `unlink` restores the tree. */
  lemma OpenUnlink(n: Node, p: Path, directory: bool)
    requires Open(n, p, true, directory).0 == Ok && NothingAt(n, p)
    ensures Unlink(Open(n, p, true, directory).1, p) == (Ok, n)
  {
    OpenIs(n, p, true, directory);
    PutThere(n, p, File([]));
    UnlinkIs(Open(n, p, true, directory).1, p);
    PutAndRemove(n, p, File([]));
  }

  /** `create_file` and then `unlink` always succeeds, and restores the tree exactly when there was
      nothing of that name: what the file replaced does not come back. */
  lemma CreateFileUnlink(n: Node, p: Path, data: seq<int>)
    requires CreateFile(n, p, data).0 == Ok
    ensures Unlink(CreateFile(n, p, data).1, p).0 == Ok
    ensures Unlink(CreateFile(n, p, data).1, p).1 == n <==> NothingAt(n, p)
  {
    CreateFileIs(n, p, data);
    PutThere(n, p, File(data));
    UnlinkIs(CreateFile(n, p, data).1, p);
    PutAndRemove(n, p, File(data));
  }

  /** Whatever succeeds, a path beside the one given leads to the same node as before. */
  lemma OthersUnchanged(n: Node, p: Path, q: Path, creat: bool, directory: bool, data: seq<int>)
    requires !Below(p, q) && !Below(q, p)
    ensures Lookup(Mkdir(n, p).1, q) == Lookup(n, q) && Lookup(Rmdir(n, p).1, q) == Lookup(n, q)
    ensures Lookup(Unlink(n, p).1, q) == Lookup(n, q) && Lookup(Open(n, p, creat, directory).1, q) == Lookup(n, q)
    ensures Lookup(CreateFile(n, p, data).1, q) == Lookup(n, q)
  {
    MkdirIs(n, p);
    RmdirIs(n, p);
    UnlinkIs(n, p);
    OpenIs(n, p, creat, directory);
    CreateFileIs(n, p, data);
    if p != [] && DirAt(n, p[..|p| - 1]) {
      PutNotSeenElsewhere(n, p, Some(Dir(map[])), q);
      PutNotSeenElsewhere(n, p, None, q);
      PutNotSeenElsewhere(n, p, Some(File([])), q);
      PutNotSeenElsewhere(n, p, Some(File(data)), q);
    }
  }
}
