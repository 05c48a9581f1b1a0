/** `EnhancedTaskDialog`: the add/edit form for a task. Its four fields are
    mutable state changed by the text fields and buttons; the save button
    forwards the current values through `onSave` only when the title is not
    blank. */
module TaskDialog {
  import opened Kotlin
  import opened Tasks

  /** The three priority buttons. */
  datatype PriorityOption = Low | Medium | High

  /** The priority string each button writes. */
  function Label(option: PriorityOption): (s: string)
    ensures s in {"Low", "Medium", "High"}
    ensures option == Medium <==> s == DefaultPriority
  {
    match option
    case Low => "Low"
    case Medium => "Medium"
    case High => "High"
  }

  const DefaultPriority: string := "Medium"

  /** 24 hours in milliseconds. */
  const OneDayMillis: Int64 := 86_400_000

  /** Which button is drawn as selected for the field value `priority`:
      exactly one when the value is one of the three labels, none otherwise. */
  lemma {:induction false} SelectedOptionUnique(priority: string)
    ensures priority in {"Low", "Medium", "High"} ==>
              exists o :: Label(o) == priority && forall o' :: Label(o') == priority ==> o' == o
    ensures priority !in {"Low", "Medium", "High"} ==> forall o :: Label(o) != priority
  {
    if priority == "Low" {
      assert Label(Low) == priority;
    } else if priority == "Medium" {
      assert Label(Medium) == priority;
    } else if priority == "High" {
      assert Label(High) == priority;
    }
  }

  /** `System.currentTimeMillis() + 86400000L` for a clock reading `now`. */
  function DueDateFrom(now: Int64): (due: Int64)
    ensures now <= LONG_MAX - OneDayMillis ==> due == now + OneDayMillis && due > now
    ensures now > LONG_MAX - OneDayMillis ==> due < now
  {
    LongPlus(now, OneDayMillis)
  }

  /** The save guard and the button's enabled flag: one predicate. */
  predicate CanSave(title: string)
  {
    !IsBlank(title)
  }

  class Dialog {
    /** The task being edited, or `None` when creating one. */
    const task: Option<Task>
    var title: string
    var description: string
    var priority: string
    var dueDate: Option<Int64>

    /** Fields start empty with priority "Medium" and no due date, or as the edited task's. */
    constructor (task: Option<Task>)
      ensures this.task == task
      ensures task.None? ==> title == "" && description == "" && priority == DefaultPriority && dueDate == None
      ensures task.Some? ==>
                && title == task.value.title
                && description == task.value.description
                && priority == task.value.priority
                && dueDate == task.value.dueDate
    {
      this.task := task;
      title := if task.Some? then task.value.title else "";
      description := if task.Some? then task.value.description else "";
      priority := if task.Some? then task.value.priority else DefaultPriority;
      dueDate := if task.Some? then task.value.dueDate else None;
    }

    function Heading(): (s: string)
      reads this
      ensures task.None? <==> s == "✨ Create New Task"
    {
      if task.None? then "✨ Create New Task" else "✏️ Edit Task"
    }

    /** The title field's `onValueChange`. */
    method EditTitle(s: string)
      modifies this`title
      ensures title == s
    {
      title := s;
    }

    /** The description field's `onValueChange`. */
    method EditDescription(s: string)
      modifies this`description
      ensures description == s
    {
      description := s;
    }

    /** A priority button's `onClick`. */
    method ChoosePriority(option: PriorityOption)
      modifies this`priority
      ensures priority == Label(option)
      ensures IsSelected(option) && forall o :: o != option ==> !IsSelected(o)
    {
      priority := Label(option);
    }

    /** The due-date button: one day after the clock reading `now`, whatever was set before. */
    method SetDueDate(now: Int64)
      modifies this`dueDate
      ensures dueDate == Some(DueDateFrom(now))
    {
      dueDate := Some(DueDateFrom(now));
    }

    function IsSelected(option: PriorityOption): bool
      reads this
    {
      priority == Label(option)
    }

    function SaveEnabled(): bool
      reads this
    {
      CanSave(title)
    }

    /** The save button's `onClick`: what reaches `onSave`, if anything. */
    method ClickSave() returns (sent: Option<TaskDraft>)
      ensures sent.Some? <==> SaveEnabled()
      ensures sent.Some? ==> sent.value == TaskDraft(title, description, priority, dueDate)
    {
      if CanSave(title) {
        sent := Some(TaskDraft(title, description, priority, dueDate));
      } else {
        sent := None;
      }
    }
  }
}
