/**
 * The task collection held by the home page (client/src/pages/home/HomePage.tsx): the task
 * record, the array operations its drag handlers use (`find`, `findIndex`, `map`, dnd-kit's
 * `arrayMove`) and the three board columns, which are filters of the collection by status.
 */
module Tasks {
  import opened Common

  const Todo := "todo"
  const InProgress := "in progress"
  const Done := "done"

  /** The three bucket ids; each is a droppable column and a status value at once. */
  predicate IsBucket(id: string) {
    id == Todo || id == InProgress || id == Done
  }

  /** A task as the server returns it. The status is any string: the client never checks it. */
  datatype Task = Task(id: string, title: string, description: string, status: string, createdAt: string)

  /** Server-assigned ids are unique within one list. */
  predicate UniqueIds(tasks: seq<Task>) {
    forall i, j :: 0 <= i < j < |tasks| ==> tasks[i].id != tasks[j].id
  }

  /** `findIndex` by id: the first task with that id, or -1 when there is none. */
  function FindIndex(tasks: seq<Task>, id: string): (k: int)
    ensures -1 <= k < |tasks|
    ensures k == -1 <==> forall i :: 0 <= i < |tasks| ==> tasks[i].id != id
    ensures 0 <= k ==> tasks[k].id == id && forall i :: 0 <= i < k ==> tasks[i].id != id
  {
    if |tasks| == 0 then -1
    else if tasks[0].id == id then 0
    else
      var k := FindIndex(tasks[1..], id);
      if k == -1 then -1 else k + 1
  }

  /** `find` by id: the first task with that id, if any. */
  function Find(tasks: seq<Task>, id: string): (r: Option<Task>)
    ensures r.None? <==> forall i :: 0 <= i < |tasks| ==> tasks[i].id != id
    ensures r.Some? ==> 0 <= FindIndex(tasks, id) && r.value == tasks[FindIndex(tasks, id)]
  {
    var k := FindIndex(tasks, id);
    if k < 0 then None else Some(tasks[k])
  }

  /** `map` that gives every task with the id the new status and keeps the rest. */
  function SetStatus(tasks: seq<Task>, id: string, status: string): (r: seq<Task>)
    ensures |r| == |tasks|
    ensures forall i :: 0 <= i < |tasks| ==>
      r[i] == if tasks[i].id == id then tasks[i].(status := status) else tasks[i]
  {
    seq(|tasks|, i requires 0 <= i < |tasks| =>
      if tasks[i].id == id then tasks[i].(status := status) else tasks[i])
  }

  /** The sequence without its element at index `i`. */
  function RemoveAt<T>(s: seq<T>, i: nat): (r: seq<T>)
    requires i < |s|
    ensures |r| == |s| - 1
  {
    s[..i] + s[i + 1..]
  }

  /**
   * dnd-kit's `arrayMove` for in-range indices: take the element at `from` out and insert it
   * at `to`. The element ends up at `to`, and the others keep their relative order.
   */
  function ArrayMove<T>(s: seq<T>, from: nat, to: nat): (r: seq<T>)
    requires from < |s| && to < |s|
    ensures |r| == |s| && r[to] == s[from]
    ensures RemoveAt(r, to) == RemoveAt(s, from)
  {
    var rest := RemoveAt(s, from);
    assert (rest[..to] + [s[from]] + rest[to..])[..to] == rest[..to];
    assert (rest[..to] + [s[from]] + rest[to..])[to + 1..] == rest[to..];
    rest[..to] + [s[from]] + rest[to..]
  }

  /** The move is a permutation: the same tasks, each as often as before. */
  lemma ArrayMovePermutes<T>(s: seq<T>, from: nat, to: nat)
    requires from < |s| && to < |s|
    ensures multiset(ArrayMove(s, from, to)) == multiset(s)
  {
    var rest := RemoveAt(s, from);
    assert s == s[..from] + [s[from]] + s[from + 1..];
    assert rest == rest[..to] + rest[to..];
    calc {
      multiset(ArrayMove(s, from, to));
      multiset(rest[..to]) + multiset([s[from]]) + multiset(rest[to..]);
      multiset(rest) + multiset([s[from]]);
      multiset(s[..from]) + multiset(s[from + 1..]) + multiset([s[from]]);
      multiset(s);
    }
  }

  /** Where every element lands: the moved one at `to`, the ones between shifted by one, the rest in place. */
  lemma ArrayMoveAt<T>(s: seq<T>, from: nat, to: nat, i: nat)
    requires from < |s| && to < |s| && i < |s|
    ensures ArrayMove(s, from, to)[i] ==
      if i == to then s[from]
      else if from <= i < to then s[i + 1]
      else if to < i <= from then s[i - 1]
      else s[i]
  {
    var r := ArrayMove(s, from, to);
    if i != to {
      var j := if i < to then i else i - 1;
      assert r[i] == RemoveAt(r, to)[j];
      assert RemoveAt(s, from)[j] == if j < from then s[j] else s[j + 1];
    }
  }

  /** Moving a task back to where it came from restores the collection. */
  lemma ArrayMoveInverse<T>(s: seq<T>, from: nat, to: nat)
    requires from < |s| && to < |s|
    ensures ArrayMove(ArrayMove(s, from, to), to, from) == s
  {
    var r := ArrayMove(s, from, to);
    var rest := RemoveAt(s, from);
    assert RemoveAt(r, to) == rest;
    assert rest[..from] == s[..from];
    assert rest[from..] == s[from + 1..];
    assert s == s[..from] + [s[from]] + s[from + 1..];
  }

  /** A move onto its own index changes nothing. */
  lemma ArrayMoveInPlace<T>(s: seq<T>, i: nat)
    requires i < |s|
    ensures ArrayMove(s, i, i) == s
  {
    assert RemoveAt(s, i)[..i] == s[..i];
    assert RemoveAt(s, i)[i..] == s[i + 1..];
    assert s == s[..i] + [s[i]] + s[i + 1..];
  }

  /** `filter` by status: one board column, in the collection's order. */
  function Column(tasks: seq<Task>, status: string): (c: seq<Task>)
    ensures |c| <= |tasks|
    ensures forall i :: 0 <= i < |c| ==> c[i].status == status
  {
    if |tasks| == 0 then []
    else (if tasks[0].status == status then [tasks[0]] else []) + Column(tasks[1..], status)
  }

  /** Filtering distributes over concatenation, so a column lists its tasks in collection order. */
  lemma {:induction false} ColumnAppend(a: seq<Task>, b: seq<Task>, status: string)
    ensures Column(a + b, status) == Column(a, status) + Column(b, status)
  {
    if |a| == 0 {
      assert a + b == b;
    } else {
      assert (a + b)[1..] == a[1..] + b;
      ColumnAppend(a[1..], b, status);
    }
  }

  /** A task is in a column iff it is in the collection with that column's status. */
  lemma {:induction false} ColumnMembers(tasks: seq<Task>, status: string, t: Task)
    ensures t in Column(tasks, status) <==> t in tasks && t.status == status
  {
    if |tasks| > 0 {
      ColumnMembers(tasks[1..], status, t);
      assert tasks == [tasks[0]] + tasks[1..];
    }
  }

  /** A task whose status is not a bucket id appears in no column. */
  lemma OffBoard(tasks: seq<Task>, t: Task)
    requires !IsBucket(t.status)
    ensures t !in Column(tasks, Todo) && t !in Column(tasks, InProgress) && t !in Column(tasks, Done)
  {
    ColumnMembers(tasks, Todo, t);
    ColumnMembers(tasks, InProgress, t);
    ColumnMembers(tasks, Done, t);
  }

  /** When every status is a bucket id, the three columns together show every task exactly once. */
  lemma {:induction false} ColumnsCover(tasks: seq<Task>)
    requires forall i :: 0 <= i < |tasks| ==> IsBucket(tasks[i].status)
    ensures |Column(tasks, Todo)| + |Column(tasks, InProgress)| + |Column(tasks, Done)| == |tasks|
  {
    if |tasks| > 0 {
      ColumnsCover(tasks[1..]);
    }
  }

  /** Moving a task never changes a column of a status other than the moved task's. */
  lemma ColumnUnmoved(s: seq<Task>, from: nat, to: nat, status: string)
    requires from < |s| && to < |s| && s[from].status != status
    ensures Column(ArrayMove(s, from, to), status) == Column(s, status)
  {
    var rest := RemoveAt(s, from);
    assert Column([s[from]], status) == [];
    calc {
      Column(ArrayMove(s, from, to), status);
      { ColumnAppend(rest[..to] + [s[from]], rest[to..], status);
        ColumnAppend(rest[..to], [s[from]], status); }
      Column(rest[..to], status) + Column(rest[to..], status);
      { ColumnAppend(rest[..to], rest[to..], status); assert rest[..to] + rest[to..] == rest; }
      Column(rest, status);
      { ColumnAppend(s[..from], s[from + 1..], status); }
      Column(s[..from], status) + Column(s[from + 1..], status);
      { ColumnAppend(s[..from], [s[from]], status);
        ColumnAppend(s[..from] + [s[from]], s[from + 1..], status);
        assert s[..from] + [s[from]] + s[from + 1..] == s; }
      Column(s, status);
    }
  }
}
