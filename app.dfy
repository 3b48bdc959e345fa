/** The board component: the task list, the drag session, and the handlers
    that add, replace, delete and move tasks. The list updates a drop
    produces are pure functions; the component state that the handlers
    overwrite is the class Board. */
module App {
  import opened Records

  /** Position of the first task with the given id, or -1 when there is none. */
  function FindIndex(tasks: seq<Task>, id: TaskId): (r: int)
    ensures -1 <= r < |tasks|
    ensures r == -1 <==> !Contains(tasks, id)
    ensures 0 <= r ==> FirstWithId(tasks, id, r)
  {
    if tasks == [] then -1
    else if tasks[0].id == id then 0
    else
      var k := FindIndex(tasks[1..], id);
      assert forall j :: 0 < j < |tasks| ==> tasks[j] == tasks[1..][j - 1];
      if k == -1 then -1 else k + 1
  }

  /** The first task with the given id, if any. */
  function Find(tasks: seq<Task>, id: TaskId): (r: Option<Task>)
    ensures r.None? <==> !Contains(tasks, id)
    ensures r.Some? ==> exists k :: FirstWithId(tasks, id, k) && r.value == tasks[k]
  {
    var k := FindIndex(tasks, id);
    if k == -1 then None else Some(tasks[k])
  }

  function Remove<T>(s: seq<T>, i: nat): (r: seq<T>)
    requires i < |s|
    ensures |r| == |s| - 1
  {
    s[..i] + s[i + 1..]
  }

  function Insert<T>(s: seq<T>, i: nat, x: T): (r: seq<T>)
    requires i <= |s|
    ensures |r| == |s| + 1
  {
    s[..i] + [x] + s[i..]
  }

  /** The list move of the drag-and-drop library: take the element out of
      position `from` and put it back so that it lands at position `to`. */
  function ArrayMove<T>(s: seq<T>, from: nat, to: nat): (r: seq<T>)
    requires from < |s| && to < |s|
    ensures |r| == |s|
    ensures r[to] == s[from]
    ensures multiset(r) == multiset(s)
    ensures Remove(r, to) == Remove(s, from)
  {
    var rest := Remove(s, from);
    var r := Insert(rest, to, s[from]);
    assert s == s[..from] + [s[from]] + s[from + 1..];
    assert r == rest[..to] + [s[from]] + rest[to..];
    assert rest == rest[..to] + rest[to..];
    assert multiset(r) == multiset(rest) + multiset{s[from]};
    assert r[..to] == rest[..to] && r[to + 1..] == rest[to..];
    r
  }

  /** Where every position of the list ends up after a move: the element
      moves to `to`, and the ones it passes shift by one slot toward `from`. */
  lemma ArrayMoveAt<T>(s: seq<T>, from: nat, to: nat, k: nat)
    requires from < |s| && to < |s| && k < |s|
    ensures ArrayMove(s, from, to)[k] ==
      if k == to then s[from]
      else if from <= k < to then s[k + 1]
      else if to < k <= from then s[k - 1]
      else s[k]
  {
    var r := ArrayMove(s, from, to);
    var rest := Remove(s, from);
    assert r == rest[..to] + [s[from]] + rest[to..];
    if k < to {
      assert r[k] == rest[k];
    } else if k > to {
      assert r[k] == rest[k - 1];
    }
  }

  /** The list with the status of every task carrying `id` replaced by
      `status`; all other fields and all other tasks are kept. */
  function SetStatus(tasks: seq<Task>, id: TaskId, status: string): (r: seq<Task>)
    ensures |r| == |tasks|
    ensures forall i :: 0 <= i < |r| ==>
      r[i] == if tasks[i].id == id then tasks[i].(status := status) else tasks[i]
  {
    if tasks == [] then []
    else
      var head := if tasks[0].id == id then tasks[0].(status := status) else tasks[0];
      [head] + SetStatus(tasks[1..], id, status)
  }

  /** With unique ids, re-labelling a present task changes exactly one field
      of exactly one element. */
  lemma {:induction false} SetStatusChangesOne(tasks: seq<Task>, k: nat, status: string)
    requires UniqueIds(tasks) && k < |tasks|
    ensures SetStatus(tasks, tasks[k].id, status) == tasks[k := tasks[k].(status := status)]
  {
    var r := SetStatus(tasks, tasks[k].id, status);
    var e := tasks[k := tasks[k].(status := status)];
    forall i | 0 <= i < |tasks|
      ensures r[i] == e[i]
    {
      if i != k {
        assert tasks[i].id != tasks[k].id by {
          if i < k { assert tasks[i].id != tasks[k].id; } else { assert tasks[k].id != tasks[i].id; }
        }
      }
    }
  }

  /** Re-labelling an id that no task carries changes nothing. */
  lemma {:induction false} SetStatusAbsent(tasks: seq<Task>, id: TaskId, status: string)
    requires !Contains(tasks, id)
    ensures SetStatus(tasks, id, status) == tasks
  {
    var r := SetStatus(tasks, id, status);
    forall i | 0 <= i < |tasks| ensures r[i] == tasks[i] {
      assert tasks[i].id != id;
    }
  }

  /** The drop target of a drag: the sortable item under the pointer and the
      id of the sortable container it belongs to. */
  datatype Over = Over(id: TaskId, containerId: string)

  /** A drag-end event: the dragged item, its container, and the target (None
      when the item was dropped outside every droppable). */
  datatype DragEnd = DragEnd(activeId: TaskId, activeContainer: string, over: Option<Over>)

  /** A drop onto a different item moves the dragged task over the whole list. */
  predicate IsReorder(e: DragEnd)
  {
    e.over.Some? && e.activeId != e.over.value.id
  }

  /** A drop onto the same item in a different container re-labels the task. */
  predicate IsRelabel(e: DragEnd)
  {
    e.over.Some? && e.activeId == e.over.value.id && e.activeContainer != e.over.value.containerId
  }

  /** The list move needs both the dragged and the target id in the list. */
  predicate DropPossible(tasks: seq<Task>, e: DragEnd)
  {
    IsReorder(e) ==> Contains(tasks, e.activeId) && Contains(tasks, e.over.value.id)
  }

  /** The task list after a drop. */
  function DropTasks(tasks: seq<Task>, e: DragEnd): (r: seq<Task>)
    requires DropPossible(tasks, e)
    ensures |r| == |tasks|
    ensures !IsReorder(e) && !IsRelabel(e) ==> r == tasks
    ensures IsReorder(e) ==>
      multiset(r) == multiset(tasks) &&
      r[FindIndex(tasks, e.over.value.id)] == tasks[FindIndex(tasks, e.activeId)]
    ensures IsRelabel(e) ==> forall i :: 0 <= i < |r| ==>
      r[i] == if tasks[i].id == e.activeId then tasks[i].(status := e.over.value.containerId) else tasks[i]
  {
    if e.over.None? then tasks
    else if e.activeId != e.over.value.id then
      ArrayMove(tasks, FindIndex(tasks, e.activeId), FindIndex(tasks, e.over.value.id))
    else if e.activeContainer != e.over.value.containerId then
      SetStatus(tasks, e.activeId, e.over.value.containerId)
    else tasks
  }

  /** A drop onto another item is a permutation: the dragged task lands at the
      target's old index of the whole list, and every other task keeps its
      relative order and all its fields. */
  lemma ReorderIsMove(tasks: seq<Task>, e: DragEnd)
    requires IsReorder(e) && DropPossible(tasks, e)
    ensures var from, to := FindIndex(tasks, e.activeId), FindIndex(tasks, e.over.value.id);
      0 <= from < |tasks| && 0 <= to < |tasks| &&
      DropTasks(tasks, e)[to].id == e.activeId &&
      Remove(DropTasks(tasks, e), to) == Remove(tasks, from)
  {
  }

  /** A drop onto the dragged item itself in another container changes only
      the dragged task's status, to the target container's id. */
  lemma {:induction false} RelabelChangesOne(tasks: seq<Task>, e: DragEnd)
    requires IsRelabel(e) && UniqueIds(tasks) && Contains(tasks, e.activeId)
    ensures var k := FindIndex(tasks, e.activeId);
      0 <= k < |tasks| &&
      DropTasks(tasks, e) == tasks[k := tasks[k].(status := e.over.value.containerId)]
  {
    SetStatusChangesOne(tasks, FindIndex(tasks, e.activeId), e.over.value.containerId);
  }

  /** The one task relabelled keeps every field except its status. */
  lemma RelabelKeepsOtherFields(tasks: seq<Task>, e: DragEnd, i: nat)
    requires IsRelabel(e) && i < |tasks|
    ensures var t, u := tasks[i], DropTasks(tasks, e)[i];
      u.id == t.id && u.title == t.title && u.description == t.description &&
      u.urgency == t.urgency && u.isCollapsed == t.isCollapsed &&
      u.status == (if t.id == e.activeId then e.over.value.containerId else t.status)
  {
  }

  /** The body of a PUT: a full record, or, when the spread source was not
      found, an object holding only a status. */
  datatype Body = Record(task: Task) | StatusOnly(status: string)

  /** The requests the board sends to the task store. */
  datatype Request =
    | GetAll
    | Post(record: Task)
    | Put(id: TaskId, body: Body)
    | Delete(id: TaskId)

  /** The body the drop handler sends: the task as it was before the drop,
      with the target container's id as its status. */
  function RelabelBody(tasks: seq<Task>, id: TaskId, status: string): (b: Body)
    ensures b.Record? <==> Contains(tasks, id)
    ensures b.Record? ==> exists k :: FirstWithId(tasks, id, k) && b.task == tasks[k].(status := status)
    ensures b.StatusOnly? ==> b.status == status
  {
    match Find(tasks, id)
    case Some(t) => Record(t.(status := status))
    case None => StatusOnly(status)
  }

  /** The board component's state. `requests` records, in order, the calls
      made to the task store; `saved` is the "tasks" slot of local storage. */
  class Board {
    var tasks: seq<Task>
    var activeId: Option<TaskId>
    var saved: Option<seq<Task>>
    var requests: seq<Request>

    constructor ()
      ensures tasks == [] && activeId == None && saved == None && requests == []
    {
      tasks := [];
      activeId := None;
      saved := None;
      requests := [];
    }

    /** Refresh the list from the store; a failed read (`reply` None) keeps
        the current list rather than emptying the board. */
    method FetchTasks(reply: Option<seq<Task>>)
      modifies this`tasks, this`requests
      ensures requests == old(requests) + [GetAll]
      ensures tasks == if reply.Some? then reply.value else old(tasks)
    {
      requests := requests + [GetAll];
      if reply.Some? {
        tasks := reply.value;
      }
    }

    /** Post a blank task for a lane. On success (`storeId` is the id the
        store gives it) the created record is appended; on failure nothing
        changes locally. */
    method AddEmptyTask(status: string, storeId: Option<TaskId>)
      modifies this`tasks, this`requests
      ensures requests == old(requests) + [Post(EmptyTask(status))]
      ensures storeId.Some? ==> tasks == old(tasks) + [EmptyTask(status).(id := storeId.value)]
      ensures storeId.None? ==> tasks == old(tasks)
    {
      var newTask := EmptyTask(status);
      requests := requests + [Post(newTask)];
      if storeId.Some? {
        tasks := tasks + [newTask.(id := storeId.value)];
      }
    }

    /** Save a card's record: replace it when it has an id, create it
        otherwise and write the store's id back into it. After a successful
        write the list is re-read. Returns the record as the caller holds it
        afterwards. */
    method AddTask(taskToAdd: Task, ok: bool, storeId: TaskId, fetched: Option<seq<Task>>)
      returns (after: Task)
      modifies this`tasks, this`requests
      ensures var write := if HasId(taskToAdd.id) then Put(taskToAdd.id, Record(taskToAdd)) else Post(taskToAdd);
        requests == old(requests) + [write] + (if ok then [GetAll] else [])
      ensures after == if !HasId(taskToAdd.id) && ok then taskToAdd.(id := storeId) else taskToAdd
      ensures tasks == if ok && fetched.Some? then fetched.value else old(tasks)
    {
      after := taskToAdd;
      if HasId(taskToAdd.id) {
        requests := requests + [Put(taskToAdd.id, Record(taskToAdd))];
      } else {
        requests := requests + [Post(taskToAdd)];
        if ok {
          after := after.(id := storeId);
        }
      }
      if ok {
        FetchTasks(fetched);
      }
    }

    /** Delete a task in the store, then re-read the list. */
    method DeleteTask(id: TaskId, ok: bool, fetched: Option<seq<Task>>)
      modifies this`tasks, this`requests
      ensures requests == old(requests) + [Delete(id)] + (if ok then [GetAll] else [])
      ensures tasks == if ok && fetched.Some? then fetched.value else old(tasks)
    {
      requests := requests + [Delete(id)];
      if ok {
        FetchTasks(fetched);
      }
    }

    /** Set the status of the first task with the id in place, then write it.
        The local change stays even when the write fails; an unknown id fails
        before anything is written and leaves everything unchanged. */
    method MoveTask(id: TaskId, newStatus: string, ok: bool, fetched: Option<seq<Task>>)
      modifies this`tasks, this`requests
      ensures !Contains(old(tasks), id) ==> tasks == old(tasks) && requests == old(requests)
      ensures Contains(old(tasks), id) ==>
        var k := FindIndex(old(tasks), id);
        var moved := old(tasks)[k].(status := newStatus);
        requests == old(requests) + [Put(id, Record(moved))] + (if ok then [GetAll] else []) &&
        tasks == if ok && fetched.Some? then fetched.value else old(tasks)[k := moved]
    {
      var k := FindIndex(tasks, id);
      if k == -1 {
        return;
      }
      tasks := tasks[k := tasks[k].(status := newStatus)];
      requests := requests + [Put(id, Record(tasks[k]))];
      if ok {
        FetchTasks(fetched);
      }
    }

    /** A drag starts: the session holds the dragged task's id. */
    method HandleDragStart(id: TaskId)
      modifies this`activeId
      ensures activeId == Some(id)
    {
      activeId := Some(id);
    }

    /** A drag ends. Without a target nothing happens, not even the end of the
        session. A move over the whole list is stored in local storage; a
        re-label is written to the store, and since that write is awaited
        outside any error handler, a failed write (`putOk` false) leaves the
        session open. Every other drop with a target ends the session. */
    method HandleDragEnd(e: DragEnd, putOk: bool)
      requires DropPossible(tasks, e)
      modifies this`tasks, this`activeId, this`saved, this`requests
      ensures tasks == DropTasks(old(tasks), e)
      ensures e.over.None? ==> activeId == old(activeId)
      ensures e.over.Some? ==> activeId == if IsRelabel(e) && !putOk then old(activeId) else None
      ensures saved == if IsReorder(e) then Some(tasks) else old(saved)
      ensures requests == old(requests) +
        if IsRelabel(e) then [Put(e.activeId, RelabelBody(old(tasks), e.activeId, e.over.value.containerId))] else []
    {
      if e.over.None? {
        return;
      }
      var over := e.over.value;
      var oldIndex := FindIndex(tasks, e.activeId);
      var newIndex := FindIndex(tasks, over.id);
      if e.activeId != over.id {
        var updated := ArrayMove(tasks, oldIndex, newIndex);
        tasks := updated;
        saved := Some(updated);
      } else if e.activeContainer != over.containerId {
        var before := tasks;
        tasks := SetStatus(tasks, e.activeId, over.containerId);
        requests := requests + [Put(e.activeId, RelabelBody(before, e.activeId, over.containerId))];
        if !putOk {
          return;
        }
      }
      activeId := None;
    }
  }
}
