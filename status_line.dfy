/** One lane of the board: the tasks whose status is the lane's, the sortable
    items rendered for them, and the "+" button that adds a blank task. */
module StatusLine {
  import opened Records
  import App

  /** `a` is `b` with some elements left out, the rest in the same order. */
  predicate Subsequence<T(==)>(a: seq<T>, b: seq<T>)
    decreases |b|
  {
    if a == [] then true
    else if b == [] then false
    else if a[0] == b[0] then Subsequence(a[1..], b[1..])
    else Subsequence(a, b[1..])
  }

  /** The lane's tasks: the tasks of the list whose status is the lane's. */
  function TasksForStatus(tasks: seq<Task>, status: string): (r: seq<Task>)
    ensures forall t :: t in r <==> t in tasks && t.status == status
    ensures |r| <= |tasks|
  {
    if tasks == [] then []
    else
      var rest := TasksForStatus(tasks[1..], status);
      if tasks[0].status == status then [tasks[0]] + rest else rest
  }

  /** The lane holds every task of its status, each as often as the list
      holds it, and no other task. */
  lemma {:induction false} FilterCounts(tasks: seq<Task>, status: string)
    ensures forall t {:trigger multiset(TasksForStatus(tasks, status))[t]} ::
      multiset(TasksForStatus(tasks, status))[t] == if t.status == status then multiset(tasks)[t] else 0
  {
    if tasks != [] {
      assert tasks == [tasks[0]] + tasks[1..];
      FilterCounts(tasks[1..], status);
    }
  }

  /** The lane keeps the list's order. */
  lemma {:induction false} FilterIsSubsequence(tasks: seq<Task>, status: string)
    ensures Subsequence(TasksForStatus(tasks, status), tasks)
  {
    if tasks != [] {
      FilterIsSubsequence(tasks[1..], status);
      var rest := TasksForStatus(tasks[1..], status);
      if tasks[0].status != status && rest != [] {
        assert rest[0] in rest;
      }
    }
  }

  /** Filtering a concatenation filters each part. */
  lemma {:induction false} FilterAppend(a: seq<Task>, b: seq<Task>, status: string)
    ensures TasksForStatus(a + b, status) == TasksForStatus(a, status) + TasksForStatus(b, status)
  {
    if a == [] {
      assert a + b == b;
    } else {
      assert (a + b)[0] == a[0] && (a + b)[1..] == a[1..] + b;
      FilterAppend(a[1..], b, status);
    }
  }

  /** A lane never lists two tasks with one id when the board does not. */
  lemma {:induction false} FilterKeepsUniqueIds(tasks: seq<Task>, status: string)
    requires UniqueIds(tasks)
    ensures UniqueIds(TasksForStatus(tasks, status))
  {
    if tasks != [] {
      var rest := tasks[1..];
      assert UniqueIds(rest) by {
        forall i, j | 0 <= i < j < |rest| ensures rest[i].id != rest[j].id {
          assert rest[i] == tasks[i + 1] && rest[j] == tasks[j + 1];
        }
      }
      FilterKeepsUniqueIds(rest, status);
      var fr := TasksForStatus(rest, status);
      if tasks[0].status == status {
        forall j | 0 <= j < |fr| ensures fr[j].id != tasks[0].id {
          assert fr[j] in fr;
          var m :| 0 <= m < |rest| && rest[m] == fr[j];
          assert tasks[m + 1] == fr[j];
        }
        var r := [tasks[0]] + fr;
        forall i, j | 0 <= i < j < |r| ensures r[i].id != r[j].id {
          if i > 0 {
            assert r[i] == fr[i - 1] && r[j] == fr[j - 1];
          } else {
            assert r[j] == fr[j - 1];
          }
        }
      }
    }
  }

  /** The three lanes hold no task twice and drop only the tasks whose status
      is not a lane's: their sizes add up to the board's size exactly when
      every status is one of the lanes. */
  lemma {:induction false} LanesCoverBoard(tasks: seq<Task>)
    ensures |TasksForStatus(tasks, Backlog)| + |TasksForStatus(tasks, InProgress)|
      + |TasksForStatus(tasks, Done)| <= |tasks|
    ensures (forall t :: t in tasks ==> t.status in Lanes) <==>
      |TasksForStatus(tasks, Backlog)| + |TasksForStatus(tasks, InProgress)|
        + |TasksForStatus(tasks, Done)| == |tasks|
  {
    if tasks != [] {
      assert tasks == [tasks[0]] + tasks[1..];
      LanesCoverBoard(tasks[1..]);
      assert forall t :: t in tasks <==> t == tasks[0] || t in tasks[1..];
    }
  }

  /** Each task is listed by the lane of its status and by no other lane;
      a task whose status is not a lane is listed nowhere. */
  lemma ExactlyOneLane(tasks: seq<Task>, i: nat)
    requires i < |tasks|
    ensures forall lane :: lane in Lanes ==>
      (tasks[i] in TasksForStatus(tasks, lane) <==> tasks[i].status == lane)
  {
    assert tasks[i] in tasks;
  }

  /** A drop onto another item moves tasks over the whole list, but leaves
      the contents of every lane as they were. */
  lemma ReorderKeepsLanes(tasks: seq<Task>, e: App.DragEnd, status: string)
    requires App.IsReorder(e) && App.DropPossible(tasks, e)
    ensures multiset(TasksForStatus(App.DropTasks(tasks, e), status)) ==
      multiset(TasksForStatus(tasks, status))
  {
    var r := App.DropTasks(tasks, e);
    assert multiset(r) == multiset(tasks);
    FilterCounts(r, status);
    FilterCounts(tasks, status);
    assert forall t :: multiset(TasksForStatus(r, status))[t] == multiset(TasksForStatus(tasks, status))[t];
  }

  /** After a re-label the dragged task is listed by the lane named by the
      target container, and no longer by any other lane. */
  lemma RelabelJoinsLane(tasks: seq<Task>, e: App.DragEnd, k: nat)
    requires App.IsRelabel(e) && k < |tasks| && tasks[k].id == e.activeId
    ensures var moved := App.DropTasks(tasks, e)[k];
      moved.id == e.activeId &&
      moved in TasksForStatus(App.DropTasks(tasks, e), e.over.value.containerId) &&
      forall lane :: lane != e.over.value.containerId ==> moved !in TasksForStatus(App.DropTasks(tasks, e), lane)
  {
    var r := App.DropTasks(tasks, e);
    assert r[k] in r;
  }

  /** A rendered sortable item: its React key and the task it shows. */
  datatype SortableItem = SortableItem(key: TaskId, task: Task)

  /** The lane's ids, as handed to its sortable context. */
  function LaneIds(tasks: seq<Task>, status: string): (ids: seq<TaskId>)
    ensures |ids| == |LaneItems(tasks, status)|
    ensures forall i :: 0 <= i < |ids| ==> ids[i] == LaneItems(tasks, status)[i].key
  {
    var lane := TasksForStatus(tasks, status);
    seq(|lane|, i requires 0 <= i < |lane| => lane[i].id)
  }

  /** The lane's items: one per lane task, in lane order. */
  function LaneItems(tasks: seq<Task>, status: string): (items: seq<SortableItem>)
    ensures |items| == |TasksForStatus(tasks, status)|
    ensures forall i :: 0 <= i < |items| ==>
      items[i].task in tasks && items[i].task.status == status && items[i].key == items[i].task.id
  {
    var lane := TasksForStatus(tasks, status);
    seq(|lane|, i requires 0 <= i < |lane| => SortableItem(lane[i].id, lane[i]))
  }

  /** Item i shows the lane's i-th task, keyed by its own id and listed under
      the same key in the sortable context; with unique ids on the board, no
      two items of a lane share a key. */
  lemma LaneItemsKeyed(tasks: seq<Task>, status: string)
    ensures var items, ids, lane := LaneItems(tasks, status), LaneIds(tasks, status), TasksForStatus(tasks, status);
      |items| == |ids| == |lane| &&
      (forall i :: 0 <= i < |items| ==>
        items[i].task == lane[i] && items[i].task.status == status && items[i].key == lane[i].id == ids[i]) &&
      (UniqueIds(tasks) ==> forall i, j :: 0 <= i < j < |items| ==> items[i].key != items[j].key)
  {
    var lane := TasksForStatus(tasks, status);
    forall i | 0 <= i < |lane| ensures lane[i].status == status {
      assert lane[i] in lane;
    }
    if UniqueIds(tasks) {
      FilterKeepsUniqueIds(tasks, status);
    }
  }

  /** The "+" button of a lane: post a blank task with the lane's own status.
      When the store accepts it, the new card is the last card of this lane
      and every other lane is unchanged. */
  method HandleAddEmpty(board: App.Board, status: string, storeId: Option<TaskId>)
    modifies board`tasks, board`requests
    ensures board.requests == old(board.requests) + [App.Post(EmptyTask(status))]
    ensures storeId.None? ==> board.tasks == old(board.tasks)
    ensures storeId.Some? ==>
      var card := EmptyTask(status).(id := storeId.value);
      board.tasks == old(board.tasks) + [card] &&
      TasksForStatus(board.tasks, status) == TasksForStatus(old(board.tasks), status) + [card] &&
      forall lane :: lane != status ==> TasksForStatus(board.tasks, lane) == TasksForStatus(old(board.tasks), lane)
  {
    ghost var before := board.tasks;
    board.AddEmptyTask(status, storeId);
    if storeId.Some? {
      var card := EmptyTask(status).(id := storeId.value);
      forall lane
        ensures TasksForStatus(before + [card], lane) ==
          TasksForStatus(before, lane) + (if lane == status then [card] else [])
      {
        FilterAppend(before, [card], lane);
        assert [card][1..] == [];
      }
    }
  }
}
