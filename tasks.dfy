/** A task card: its urgency choice, whether it is collapsed, and which of its
    buttons submitted the form. Submitting either saves the card's record,
    deletes the task, or only opens the card for editing. */
module Tasks {
  import opened Records

  /** The callback a submit invokes, with its argument. */
  datatype Call =
    | NoCall
    | AddTask(record: Task)
    | DeleteTask(id: TaskId)

  /** The record a save sends: the form's text and the card's urgency, under
      the card's own id and status, marked collapsed. */
  function SavedRecord(task: Task, title: string, description: string, urgency: string): (r: Task)
    ensures r.id == task.id && r.status == task.status
    ensures r == task.(title := title, description := description, urgency := urgency, isCollapsed := true)
  {
    Task(task.id, title, description, urgency, task.status, true)
  }

  class Card {
    /** The task the card was rendered for. */
    const task: Task
    var urgencyLevel: string
    var collapsed: bool
    var formAction: string

    /** A card starts in the task's own urgency and collapse state, with no
        button pressed yet. */
    constructor (task: Task)
      ensures this.task == task
      ensures urgencyLevel == task.urgency && collapsed == task.isCollapsed && formAction == ""
    {
      this.task := task;
      urgencyLevel := task.urgency;
      collapsed := task.isCollapsed;
      formAction := "";
    }

    /** Whether the urgency button is drawn as selected. */
    predicate Selected(u: Urgency): (selected: bool)
      reads this
      ensures selected ==> forall w :: w != u ==> urgencyLevel != w.Value()
    {
      urgencyLevel == u.Value()
    }

    /** Choosing an urgency button makes it the card's urgency: that button is
        selected and the other two are not. */
    method SetUrgency(choice: Urgency)
      modifies this`urgencyLevel
      ensures urgencyLevel == choice.Value()
      ensures forall u :: Selected(u) <==> u == choice
    {
      urgencyLevel := choice.Value();
      forall u ensures Selected(u) <==> u == choice {
        UrgencyValueInjective(u, choice);
      }
    }

    /** The label of the primary button. */
    function PrimaryLabel(): (text: string)
      reads this
      ensures text == "Edit" <==> collapsed
      ensures text == "Save" <==> !collapsed
    {
      if collapsed then "Edit" else "Save"
    }

    /** The delete button is rendered only on a collapsed card. */
    predicate ShowsDelete()
      reads this
      ensures ShowsDelete() <==> PrimaryLabel() == "Edit"
    {
      collapsed
    }

    /** Pressing the primary button ("Edit" or "Save"). */
    method ClickPrimary()
      modifies this`formAction
      ensures formAction == "save"
    {
      formAction := "save";
    }

    /** Pressing the delete button, which exists only on a collapsed card. */
    method ClickDelete()
      requires ShowsDelete()
      modifies this`formAction
      ensures formAction == "delete"
    {
      formAction := "delete";
    }

    /** Submitting the form with the given title and description fields.
        A save on a collapsed card only opens it; a save on an open card sends
        the record and closes it; a delete sends the card's id and leaves the
        card as it is; any other action does nothing. */
    method HandleSubmit(title: string, description: string) returns (call: Call)
      modifies this`collapsed
      ensures formAction == "save" && old(collapsed) ==> !collapsed && call == NoCall
      ensures formAction == "save" && !old(collapsed) ==>
        collapsed && call == AddTask(SavedRecord(task, title, description, urgencyLevel))
      ensures formAction == "delete" ==> collapsed == old(collapsed) && call == DeleteTask(task.id)
      ensures formAction != "save" && formAction != "delete" ==>
        collapsed == old(collapsed) && call == NoCall
      ensures call.AddTask? ==> call.record.id == task.id && call.record.status == task.status
      ensures call.DeleteTask? ==> call.id == task.id
    {
      call := NoCall;
      if formAction == "save" {
        if collapsed {
          collapsed := false;
        } else {
          var newTask := SavedRecord(task, title, description, urgencyLevel);
          call := AddTask(newTask);
          collapsed := true;
        }
      }
      if formAction == "delete" {
        call := DeleteTask(task.id);
      }
    }
  }
}
