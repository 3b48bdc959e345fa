# Kanban board: drop reducer, lanes and card state machine

This project models the logic of a small kanban board written as three React
components. Tasks sit in three lanes ("Backlog", "In Progress", "Done"). A
task is a plain record: `id`, `title`, `description`, `urgency`, `status` and
`isCollapsed`. A lane lists the tasks whose `status` is its own. Cards are
dragged to reorder the board or to move a card into another lane. Each card
switches between an open (editable) and a collapsed (display) state.

The model has four modules:

- `Records` (`records.dfy`): the task record, the three lanes, the urgency
  choices, blank-task construction, and the list predicates `UniqueIds` and
  `Contains`.
- `App` (`app.dfy`): the board component. The list updates a drop produces
  are pure functions: `FindIndex`, `ArrayMove`, `SetStatus` and `DropTasks`.
  The component state is the class `Board`. It holds `tasks`, the drag
  session `activeId`, the local-storage slot `saved`, and `requests`, a log of
  the HTTP requests sent to the task store. Its methods are the handlers:
  fetch, add blank, add or replace, delete, move, drag start and drag end.
  Each handler's remote outcome is a parameter: whether the write succeeded,
  which id the store assigned, and what a refresh returned.
- `StatusLine` (`status_line.dfy`): a lane's filter, the sortable items it
  renders, and its "+" button, which adds a blank task to the `Board`. It
  also holds the lemmas that the three lanes partition the board, and that a
  drop keeps or moves lane membership as the code says.
- `Tasks` (`tasks.dfy`): the card as a class `Card` with the fields
  `urgencyLevel`, `collapsed` and `formAction`. Its methods are the urgency
  radio buttons, the two buttons and the submit handler. The submit handler
  returns the callback it invokes (`AddTask(record)`, `DeleteTask(id)` or
  none).

Whether a record has an id is tested only by truthiness
(`if (taskToAdd.id)`, App.jsx:58), so a record without an id carries the empty
id `NoId`. Elsewhere ids are compared with `===` and used as React keys. The
store is assumed to reply to a POST with the posted record plus the id it
assigned, as json-server does.

Drag-end behaviour of the code that the model keeps:

- A drop onto any other item moves the dragged task over the whole list, even
  onto a task in another lane, and keeps its status (App.jsx:116-118).
- A status change happens only when a task is dropped onto its own id in a
  different sortable container. The new status is that container's id, taken
  as given (App.jsx:120-128).
- A failed PUT of a status change skips `setActiveId(null)`
  (App.jsx:130-135), so the drag session stays open.
  `App.Board.HandleDragEnd` states this case explicitly.
- The `findIndex` results go to `arrayMove` unchecked (App.jsx:113-117); see
  "Left out".

## Model

| member | source | states |
|---|---|---|
| App.FindIndex | src/components/App.jsx:113-114 | the result is -1 exactly when no task has the id; otherwise it is the position of the first task with that id |
| App.Find | src/components/App.jsx:89 | no result exactly when no task has the id; otherwise the first task of the list that carries the id |
| App.ArrayMove | src/components/App.jsx:117 | the moved list has the same length and the same multiset of tasks; the dragged task is at the target index; removing it there gives the original list without it, so all other tasks keep their relative order |
| App.ArrayMoveAt | src/components/App.jsx:117 | position by position: the dragged task is at the target, the tasks between the two indices shift one slot toward the old index, and all others stay put |
| App.SetStatus | src/components/App.jsx:124-128 | same length; each task with the dragged id gets the new status and keeps every other field; every other task is unchanged |
| App.SetStatusChangesOne | src/components/App.jsx:124-128 | with unique ids, the result differs from the list in exactly one element, and only in its status |
| App.SetStatusAbsent | src/components/App.jsx:124-128 | an id no task carries leaves the list unchanged |
| App.DropTasks | src/components/App.jsx:109-134 | no target, or the same id in the same container: the list is unchanged. Different ids: same length and multiset, and the dragged task is at the target's index. Same id in another container: each task with the dragged id gets the container id as its status and keeps every other field, and every other task is unchanged |
| App.ReorderIsMove | src/components/App.jsx:113-118 | a drop onto another item is the list move between the two whole-list indices: the dragged task lands at the target's index and the order of all other tasks is kept |
| App.RelabelChangesOne | src/components/App.jsx:120-129 | with unique ids, a drop onto the same id in another container changes exactly the dragged task's status, to the container id |
| App.RelabelKeepsOtherFields | src/components/App.jsx:124-128 | after a re-label every task keeps its id, title, description, urgency and collapse flag; only the dragged task's status changes |
| App.RelabelBody | src/components/App.jsx:130-133 | the PUT body is the pre-drop record of the first task with the dragged id, every field kept except the status, which is the container id; when no task has the id, the body holds only the status |
| App.Board.constructor | src/components/App.jsx:20-21 | the board starts with no tasks, no drag session, nothing written to local storage by this board yet, and no requests |
| App.Board.FetchTasks | src/components/App.jsx:28-35 | a GET is sent; a successful read replaces the list, and a failed read leaves it unchanged |
| App.Board.AddEmptyTask | src/components/App.jsx:38-53 | a POST of the blank record for the lane is sent; on success the created record is appended after the existing tasks, and on failure the list is unchanged |
| App.Board.AddTask | src/components/App.jsx:56-74 | a record with an id is sent by PUT under that id; a record without one is sent by POST and gets the assigned id written back on success; the list is re-read only after a successful write |
| App.Board.DeleteTask | src/components/App.jsx:77-84 | a DELETE for the id is sent, and the list is re-read only when it succeeds |
| App.Board.MoveTask | src/components/App.jsx:87-96 | with a known id, the first matching task's status is set in place before the PUT, and stays set when the PUT fails; with an unknown id nothing is sent and nothing changes |
| App.Board.HandleDragStart | src/components/App.jsx:105-107 | the drag session holds the dragged id |
| App.Board.HandleDragEnd | src/components/App.jsx:109-140 | the list becomes `DropTasks` of the old list. A move is saved to local storage. A re-label sends one PUT. Without a target the session is untouched; with a target it ends, unless a re-label's PUT failed |
| StatusLine.TasksForStatus | src/components/StatusLine.jsx:34 | a task is in the lane exactly when it is on the board with the lane's status |
| StatusLine.FilterCounts | src/components/StatusLine.jsx:34 | each task of the lane's status appears in the lane as often as on the board; no other task appears |
| StatusLine.FilterIsSubsequence | src/components/StatusLine.jsx:34 | the lane lists its tasks in board order |
| StatusLine.FilterAppend | src/components/StatusLine.jsx:34 | filtering a concatenation is the concatenation of the filtered parts |
| StatusLine.FilterKeepsUniqueIds | src/components/StatusLine.jsx:34 | a board with unique ids gives lanes with unique ids |
| StatusLine.LanesCoverBoard | src/components/App.jsx:153-194 | the three lanes together never list more tasks than the board has, and list all of them exactly when every status is one of the three lanes |
| StatusLine.ExactlyOneLane | src/components/App.jsx:153-194 | every task appears in the lane of its own status and in no other of the three lanes; a task whose status is none of them appears in none |
| StatusLine.ReorderKeepsLanes | src/components/App.jsx:116-119 | a drop onto another item leaves the multiset of tasks in every lane unchanged |
| StatusLine.RelabelJoinsLane | src/components/App.jsx:120-129 | after a re-label the dragged task is listed in the lane named by the container id and in no other lane |
| StatusLine.LaneItemsKeyed | src/components/StatusLine.jsx:39-48 | item i shows the lane's i-th task, so there is one sortable item per lane task, in lane order; each item is keyed by its task's id, which is also the sortable context's i-th id; with unique board ids no two items share a key |
| StatusLine.LaneItems | src/components/StatusLine.jsx:40-48 | as many items as lane tasks; each item shows a board task of the lane's status and is keyed by that task's id |
| StatusLine.LaneIds | src/components/StatusLine.jsx:39 | the sortable context's id list has one id per rendered item, equal to that item's key |
| StatusLine.HandleAddEmpty | src/components/StatusLine.jsx:30-32 | the blank task is posted with the lane's own status; on success it becomes the last card of that lane and every other lane is unchanged |
| Records.UrgencyValueInjective | src/components/Tasks.jsx:72-103 | the three urgency buttons carry three different values |
| Records.EmptyTask | src/components/App.jsx:39-45 | the blank record has no id, the lane's status, empty title, description and urgency (so none of the three urgency buttons matches it), and is not collapsed |
| Tasks.SavedRecord | src/components/Tasks.jsx:29-36 | the saved record is the card's task with only title, description, urgency and the collapse flag (set) replaced, so it keeps the task's id and status |
| Tasks.Card.Selected | src/components/Tasks.jsx:73-94 | when one urgency button is drawn as selected, neither of the other two is |
| Tasks.Card.ShowsDelete | src/components/Tasks.jsx:114 | the delete button is shown exactly when the primary button reads "Edit" |
| Tasks.Card.constructor | src/components/Tasks.jsx:6-9 | a card starts with the task's urgency and collapse flag and no pending action |
| Tasks.Card.SetUrgency | src/components/Tasks.jsx:18-20 | the chosen button's value becomes the card's urgency; it is selected and the other two buttons are not |
| Tasks.Card.PrimaryLabel | src/components/Tasks.jsx:112 | the primary button reads "Edit" exactly when the card is collapsed, and "Save" exactly when it is open |
| Tasks.Card.ClickPrimary | src/components/Tasks.jsx:106-109 | pressing the primary button sets the pending action to "save" |
| Tasks.Card.ClickDelete | src/components/Tasks.jsx:114-118 | the delete button is pressable only on a collapsed card, and sets the pending action to "delete" |
| Tasks.Card.HandleSubmit | src/components/Tasks.jsx:22-46 | save on a collapsed card: the card opens and no callback runs. Save on an open card: `addTask` gets the form text, the card's urgency, its own id and status, and `isCollapsed` true; then the card collapses. Delete: `deleteTask` gets the card's id and the card is unchanged. Any other action does nothing |

## Left out

- HTTP transport and the store itself are not modelled. Each handler records the request it sends in `requests`. Whether the request succeeds, the id the store assigns and the list a refresh returns are parameters. The POST reply is assumed to echo the posted record plus its new id.
- Concurrency is not modelled. `fetchTasks()` is called without `await`, and React batches state updates. Each handler is one atomic step, and its refresh is applied at once. Races between overlapping requests are not captured.
- Mount-time loading (`useEffect`) is a `Board` constructor followed by `FetchTasks`. No member ties the two together.
- The drag-and-drop library is outside the model: sensors, collision detection, `useSortable`, transforms and the drag overlay. A drag-end event is given as the dragged id, its container id and an optional target (id and container id). `active.data.current.sortable` is assumed to be present.
- App.DropTasks: a move needs both the dragged id and the target id in the list (`DropPossible`). The library's `arrayMove` is not available here, and its result for a `findIndex` of -1 is not modelled.
- App.Board.HandleDragEnd: the same requirement as `DropTasks` applies. The thrown error of a failed re-label PUT is modelled only by its effect: the session stays open. The unhandled rejection itself is not modelled.
- Local storage is modelled only as the last value written to the "tasks" slot (`saved`). The JSON encoding is not modelled.
- Form values read from DOM elements are not modelled. Title, description and the clicked urgency button are plain inputs to the card's methods.
- React re-render timing between a button's `onClick` and the form's submit is not modelled. A click sets `formAction`, and a later `HandleSubmit` reads it.
- JSX markup and CSS classes are not modelled. The exceptions are the primary button's label, the delete button's visibility and the urgency selection marker.
- `moveTask` is passed to the lanes and cards but never called by them. It is modelled as a board method only.
- Task ids are modelled as strings. A numeric id `0` is falsy in JavaScript, but its string `"0"` counts as an id in the model.
