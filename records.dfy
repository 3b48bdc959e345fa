/** The task record shared by the board, its lanes and its cards. */
module Records {

  datatype Option<T> = None | Some(value: T)

  /** A task id as the store assigns it. Whether a record has an id at all is
      tested only by truthiness, so a record without an id carries the empty
      id. */
  type TaskId = string

  const NoId: TaskId := ""

  predicate HasId(id: TaskId) { id != NoId }

  datatype Task = Task(
    id: TaskId,
    title: string,
    description: string,
    urgency: string,
    status: string,
    isCollapsed: bool)

  /** The three lanes the board renders, in display order. */
  const Backlog := "Backlog"
  const InProgress := "In Progress"
  const Done := "Done"
  const Lanes: seq<string> := [Backlog, InProgress, Done]

  /** The record posted when "+" is pressed in a lane: blank text, no urgency,
      expanded, and no id yet. */
  function EmptyTask(status: string): (t: Task)
    ensures !HasId(t.id) && t.status == status && !t.isCollapsed
    ensures t.title == "" && t.description == "" && t.urgency == ""
    ensures forall u: Urgency :: u.Value() != t.urgency
  {
    Task(NoId, "", "", "", status, false)
  }

  /** The three urgency radio buttons of a card. */
  datatype Urgency = Low | Medium | High {
    /** The value of the button's `urgency` attribute. */
    function Value(): (v: string)
      ensures v in {"low", "medium", "high"}
      ensures v != ""
    {
      match this
      case Low => "low"
      case Medium => "medium"
      case High => "high"
    }
  }

  lemma UrgencyValueInjective(u: Urgency, w: Urgency)
    ensures u.Value() == w.Value() <==> u == w
  {
  }

  /** No two tasks of the list share an id. */
  predicate UniqueIds(tasks: seq<Task>)
  {
    forall i, j :: 0 <= i < j < |tasks| ==> tasks[i].id != tasks[j].id
  }

  predicate Contains(tasks: seq<Task>, id: TaskId)
  {
    exists i :: 0 <= i < |tasks| && tasks[i].id == id
  }

  /** Position `k` holds the first task of the list with the given id. */
  predicate FirstWithId(tasks: seq<Task>, id: TaskId, k: int)
  {
    0 <= k < |tasks| && tasks[k].id == id && forall j :: 0 <= j < k ==> tasks[j].id != id
  }
}
