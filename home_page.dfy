/**
 * The drag-and-drop board engine of client/src/pages/home/HomePage.tsx. `DragOverUpdate` is
 * the pure decision a drag-over event makes (the new collection and the status update it
 * sends, if any); `HomePage` is the component's state (`tasks`, `activeTask`, `openAdd`) and
 * its handlers, which apply those decisions and log the requests they send.
 */
module Home {
  import opened Common
  import opened Http
  import opened Tasks

  /** The `over` of a drag event: nothing under the card, or the id of a bucket or a task. */
  datatype Over = Nowhere | Over(id: string)

  /** What one drag-over does: the collection it sets, and the status update it sends, if any. */
  datatype Reaction = Reaction(tasks: seq<Task>, put: Option<Request>)

  /** The decision `handleDragOver` makes, with `setTasks`' updaters applied to the same collection. */
  function DragOverUpdate(tasks: seq<Task>, activeId: string, over: Over): (r: Reaction)
    ensures |r.tasks| == |tasks|
    ensures r.put.Some? ==> r.put.value.UpdateStatus? && r.put.value.id == activeId
    ensures r.put.None? ==> multiset(r.tasks) == multiset(tasks)
  {
    if over.Nowhere? then Reaction(tasks, None)
    else match Find(tasks, activeId)
      case None => Reaction(tasks, None)
      case Some(active) =>
        if IsBucket(over.id) then
          if active.status != over.id then
            Reaction(SetStatus(tasks, active.id, over.id), Some(UpdateStatus(active.id, over.id)))
          else Reaction(tasks, None)
        else match Find(tasks, over.id)
          case None => Reaction(tasks, None)
          case Some(target) =>
            var from := FindIndex(tasks, activeId);
            var to := FindIndex(tasks, over.id);
            if active.status == target.status then
              ArrayMovePermutes(tasks, from, to);
              Reaction(ArrayMove(tasks, from, to), None)
            else
              Reaction(ArrayMove(SetStatus(tasks, active.id, target.status), from, to),
                       Some(UpdateStatus(active.id, target.status)))
  }

  /** A drag-over with no target, an unknown active id, or a target that is neither a bucket nor a task does nothing. */
  lemma DragOverIgnored(tasks: seq<Task>, activeId: string, over: Over)
    requires || over.Nowhere?
             || Find(tasks, activeId).None?
             || (!IsBucket(over.id) && Find(tasks, over.id).None?)
    ensures DragOverUpdate(tasks, activeId, over) == Reaction(tasks, None)
  {
  }

  /**
   * A status update is sent iff the drag-over migrates the active task: to a bucket other than
   * its status, or onto a task of another status; it names the active task and the new status.
   */
  lemma DragOverSendsIffMigration(tasks: seq<Task>, activeId: string, over: Over)
    ensures var r := DragOverUpdate(tasks, activeId, over);
      r.put.Some? <==>
        && over.Over?
        && Find(tasks, activeId).Some?
        && if IsBucket(over.id) then Find(tasks, activeId).value.status != over.id
           else Find(tasks, over.id).Some? && Find(tasks, over.id).value.status != Find(tasks, activeId).value.status
    ensures var r := DragOverUpdate(tasks, activeId, over);
      r.put.Some? ==>
        r.put.value == UpdateStatus(activeId,
          if IsBucket(over.id) then over.id else Find(tasks, over.id).value.status)
  {
  }

  /**
   * Dropping over a bucket other than the active task's status gives that task (every task with
   * its id) the bucket as status, keeps the order and every other task, and sends one update.
   */
  lemma DragOverBucket(tasks: seq<Task>, activeId: string, bucket: string)
    requires IsBucket(bucket)
    requires Find(tasks, activeId).Some? && Find(tasks, activeId).value.status != bucket
    ensures var r := DragOverUpdate(tasks, activeId, Over(bucket));
      && |r.tasks| == |tasks|
      && (forall i :: 0 <= i < |tasks| && tasks[i].id != activeId ==> r.tasks[i] == tasks[i])
      && (forall i :: 0 <= i < |tasks| && tasks[i].id == activeId ==> r.tasks[i] == tasks[i].(status := bucket))
      && Find(r.tasks, activeId) == Some(Find(tasks, activeId).value.(status := bucket))
      && r.put == Some(UpdateStatus(activeId, bucket))
  {
    var r := DragOverUpdate(tasks, activeId, Over(bucket));
    var k := FindIndex(tasks, activeId);
    assert r.tasks[k] == tasks[k].(status := bucket);
    assert FindIndex(r.tasks, activeId) == k by {
      assert forall i :: 0 <= i < k ==> r.tasks[i].id == tasks[i].id;
    }
  }

  /** Dropping over the bucket the active task is already in changes nothing and sends nothing. */
  lemma DragOverSameBucket(tasks: seq<Task>, activeId: string, bucket: string)
    requires IsBucket(bucket)
    requires Find(tasks, activeId).Some? && Find(tasks, activeId).value.status == bucket
    ensures DragOverUpdate(tasks, activeId, Over(bucket)) == Reaction(tasks, None)
  {
  }

  /** Re-entering the same bucket is idempotent: the second event changes nothing and sends no second update. */
  lemma BucketReentryIdempotent(tasks: seq<Task>, activeId: string, bucket: string)
    requires IsBucket(bucket)
    ensures var once := DragOverUpdate(tasks, activeId, Over(bucket)).tasks;
      DragOverUpdate(once, activeId, Over(bucket)) == Reaction(once, None)
  {
    var f := Find(tasks, activeId);
    if f.Some? && f.value.status != bucket {
      DragOverBucket(tasks, activeId, bucket);
    }
  }

  /**
   * Dropping over a task of the same status is `arrayMove(tasks, activeIndex, overIndex)`: the
   * same tasks, the active one at the target's index, the others in their order, no status
   * change anywhere, no column of another status touched, and no request.
   */
  lemma DragOverReorder(tasks: seq<Task>, activeId: string, overId: string)
    requires !IsBucket(overId)
    requires Find(tasks, activeId).Some? && Find(tasks, overId).Some?
    requires Find(tasks, activeId).value.status == Find(tasks, overId).value.status
    ensures var r := DragOverUpdate(tasks, activeId, Over(overId));
      var from := FindIndex(tasks, activeId);
      var to := FindIndex(tasks, overId);
      && 0 <= from && 0 <= to
      && r.put == None
      && r.tasks == ArrayMove(tasks, from, to)
      && multiset(r.tasks) == multiset(tasks)
      && r.tasks[to] == tasks[from]
      && RemoveAt(r.tasks, to) == RemoveAt(tasks, from)
      && (forall s :: s != tasks[from].status ==> Column(r.tasks, s) == Column(tasks, s))
  {
    var from := FindIndex(tasks, activeId);
    var to := FindIndex(tasks, overId);
    ArrayMovePermutes(tasks, from, to);
    forall s | s != tasks[from].status
      ensures Column(ArrayMove(tasks, from, to), s) == Column(tasks, s)
    {
      ColumnUnmoved(tasks, from, to, s);
    }
  }

  /**
   * Dropping over a task of another status moves the active task to the target's index with the
   * target's status; with unique ids, every other task keeps its content and relative order; one
   * update carrying the target's status is sent.
   */
  lemma DragOverMigrateOntoTask(tasks: seq<Task>, activeId: string, overId: string)
    requires UniqueIds(tasks)
    requires !IsBucket(overId)
    requires Find(tasks, activeId).Some? && Find(tasks, overId).Some?
    requires Find(tasks, activeId).value.status != Find(tasks, overId).value.status
    ensures var r := DragOverUpdate(tasks, activeId, Over(overId));
      var from := FindIndex(tasks, activeId);
      var to := FindIndex(tasks, overId);
      var status := tasks[to].status;
      && 0 <= from && 0 <= to
      && |r.tasks| == |tasks|
      && r.tasks[to] == tasks[from].(status := status)
      && RemoveAt(r.tasks, to) == RemoveAt(tasks, from)
      && r.put == Some(UpdateStatus(activeId, status))
  {
    var from := FindIndex(tasks, activeId);
    var to := FindIndex(tasks, overId);
    var status := tasks[to].status;
    var updated := SetStatus(tasks, activeId, status);
    assert DragOverUpdate(tasks, activeId, Over(overId))
      == Reaction(ArrayMove(updated, from, to), Some(UpdateStatus(activeId, status)));
    SetStatusOnlyAt(tasks, from, status);
  }

  /** With unique ids, giving one task a new status changes nothing once that task is taken out. */
  lemma SetStatusOnlyAt(tasks: seq<Task>, k: nat, status: string)
    requires UniqueIds(tasks) && k < |tasks|
    ensures var updated := SetStatus(tasks, tasks[k].id, status);
      updated[k] == tasks[k].(status := status) && RemoveAt(updated, k) == RemoveAt(tasks, k)
  {
    var updated := SetStatus(tasks, tasks[k].id, status);
    forall j | 0 <= j < |tasks| - 1 ensures RemoveAt(updated, k)[j] == RemoveAt(tasks, k)[j] {
      var i := if j < k then j else j + 1;
      assert RemoveAt(updated, k)[j] == updated[i] && RemoveAt(tasks, k)[j] == tasks[i];
      assert tasks[i].id != tasks[k].id;
    }
  }

  /**
   * A repeated task-target drag-over is NOT a no-op: dragging a task over its neighbour of the
   * same status twice swaps the two back, since the move is recomputed from current indices.
   */
  lemma RepeatedTaskTargetSwapsBack(tasks: seq<Task>, activeId: string, overId: string)
    requires UniqueIds(tasks)
    requires !IsBucket(overId) && activeId != overId
    requires Find(tasks, activeId).Some? && Find(tasks, overId).Some?
    requires Find(tasks, activeId).value.status == Find(tasks, overId).value.status
    requires FindIndex(tasks, overId) == FindIndex(tasks, activeId) + 1
    ensures var once := DragOverUpdate(tasks, activeId, Over(overId)).tasks;
      once != tasks && DragOverUpdate(once, activeId, Over(overId)).tasks == tasks
  {
    var from := FindIndex(tasks, activeId);
    var to := from + 1;
    DragOverReorder(tasks, activeId, overId);
    var once := ArrayMove(tasks, from, to);
    AdjacentMoveSwaps(tasks, from);
    assert once[to].id == activeId && once[from].id == overId;
    assert FindIndex(once, overId) == from by {
      forall i | 0 <= i < from ensures once[i].id != overId {
        assert once[i] == tasks[i];
      }
    }
    assert FindIndex(once, activeId) == to by {
      forall i | 0 <= i < to ensures once[i].id != activeId {
        if i < from { assert once[i] == tasks[i]; }
      }
    }
    assert once != tasks by { assert once[to] != tasks[to]; }
    ArrayMoveInverse(tasks, from, to);
  }

  /** Moving an element one step right swaps it with its neighbour and leaves the rest alone. */
  lemma AdjacentMoveSwaps<T>(s: seq<T>, i: nat)
    requires i + 1 < |s|
    ensures var r := ArrayMove(s, i, i + 1);
      && r[i] == s[i + 1] && r[i + 1] == s[i]
      && forall j :: 0 <= j < |s| && j != i && j != i + 1 ==> r[j] == s[j]
  {
    forall j | 0 <= j < |s| ensures ArrayMove(s, i, i + 1)[j] == if j == i then s[i + 1] else if j == i + 1 then s[i] else s[j] {
      ArrayMoveAt(s, i, i + 1, j);
    }
  }

  /** The home page's state and its event handlers. */
  class HomePage {
    var tasks: seq<Task>
    var activeTask: Option<Task>
    var openAdd: bool
    const api: Api

    /** Mounting: empty state, and the initial `GET /tasks` is sent. */
    constructor (api: Api)
      modifies api
      ensures this.api == api && tasks == [] && activeTask == None && !openAdd
      ensures api.sent == old(api.sent) + [ListTasks] && api.toasts == old(api.toasts)
    {
      this.api := api;
      tasks := [];
      activeTask := None;
      openAdd := false;
      new;
      api.Send(ListTasks);
    }

    /** A `GET /tasks` settled (the mount fetch or a recovery refetch): replace verbatim, or toast and keep. */
    method TasksLoaded(result: Settled<seq<Task>>)
      modifies this`tasks, api
      ensures result.Ok? ==> tasks == result.value && api.toasts == old(api.toasts)
      ensures result.Failed? ==>
        tasks == old(tasks) && api.toasts == old(api.toasts) + [ErrorToastFor(result.error, SomethingWentWrong)]
      ensures api.sent == old(api.sent)
    {
      match result
      case Ok(list) => tasks := list;
      case Failed(err) => api.Notify(ErrorToastFor(err, SomethingWentWrong));
    }

    /** `handleAddTask`: opens the add dialog. */
    method OpenAdd()
      modifies this`openAdd
      ensures openAdd
    {
      openAdd := true;
    }

    /** `handleDragStart`: remember the dragged task, or none when its id is not in the collection. */
    method DragStart(activeId: string)
      modifies this`activeTask
      ensures activeTask == Find(tasks, activeId)
      ensures activeTask.Some? ==> activeTask.value in tasks && activeTask.value.id == activeId
    {
      activeTask := Find(tasks, activeId);
    }

    /** `handleDragOver`: apply the decision optimistically and send its status update, if any. */
    method DragOver(activeId: string, over: Over)
      modifies this`tasks, api
      ensures tasks == DragOverUpdate(old(tasks), activeId, over).tasks
      ensures var put := DragOverUpdate(old(tasks), activeId, over).put;
        api.sent == old(api.sent) + (if put.Some? then [put.value] else [])
      ensures api.toasts == old(api.toasts)
    {
      var r := DragOverUpdate(tasks, activeId, over);
      tasks := r.tasks;
      if r.put.Some? {
        api.Send(r.put.value);
      }
    }

    /** A status update settled: nothing on success; on failure a toast and a full refetch. */
    method StatusUpdateSettled(result: Settled<()>)
      modifies api
      ensures result.Ok? ==> api.sent == old(api.sent) && api.toasts == old(api.toasts)
      ensures result.Failed? ==>
        api.sent == old(api.sent) + [ListTasks]
        && api.toasts == old(api.toasts) + [ErrorToastFor(result.error, SomethingWentWrongLower)]
    {
      if result.Failed? {
        api.Notify(ErrorToastFor(result.error, SomethingWentWrongLower));
        api.Send(ListTasks);
      }
    }

    /** `handleDragEnd`: only the overlay goes; the collection is already final. */
    method DragEnd()
      modifies this`activeTask
      ensures activeTask == None
    {
      activeTask := None;
    }

    /** `handleDragCancel`: only the overlay goes; moves already applied are not undone. */
    method DragCancel()
      modifies this`activeTask
      ensures activeTask == None
    {
      activeTask := None;
    }

    /** The three columns the board renders. */
    function Columns(): (c: (seq<Task>, seq<Task>, seq<Task>))
      reads this
      ensures forall i :: 0 <= i < |c.0| ==> c.0[i].status == Todo
      ensures forall i :: 0 <= i < |c.1| ==> c.1[i].status == InProgress
      ensures forall i :: 0 <= i < |c.2| ==> c.2[i].status == Done
    {
      (Column(tasks, Todo), Column(tasks, InProgress), Column(tasks, Done))
    }
  }

  /**
   * The scenario [A(todo), B(in progress)]: dragging A over "done" makes A done at once and sends
   * one update; re-entering "done" sends nothing; cancelling keeps A done.
   */
  method BucketMoveThenCancel(api: Api, a: Task, b: Task) returns (page: HomePage)
    requires a.id != b.id && a.status == Todo && b.status == InProgress
    requires api.sent == [] && api.toasts == []
    modifies api
    ensures page.tasks == [a.(status := Done), b] && page.activeTask == None
    ensures api.sent == [ListTasks, UpdateStatus(a.id, Done)]
  {
    page := new HomePage(api);
    page.TasksLoaded(Ok([a, b]));
    assert FindIndex([a, b], a.id) == 0;
    page.DragStart(a.id);
    DragOverBucket([a, b], a.id, Done);
    page.DragOver(a.id, Over(Done));
    assert page.tasks == [a.(status := Done), b];
    BucketReentryIdempotent([a, b], a.id, Done);
    page.DragOver(a.id, Over(Done));
    page.DragCancel();
  }
}
