/** `TasksScreen`: the in-memory task list, its filtered view and counters,
    and the handlers that toggle, delete, add and edit tasks. */
module TasksScreen {
  import opened Kotlin
  import opened Collections
  import opened Tasks
  import TaskDialog

  // ---------------------------------------------------------------------
  // Filter options

  /** The four values `filterOption` is ever set to (chips and menu). */
  datatype FilterChoice = AllTasks | CompletedTasks | PendingTasks | HighPriority

  function FilterValue(choice: FilterChoice): (s: string)
    ensures s in FilterValues
  {
    match choice
    case AllTasks => "All"
    case CompletedTasks => "Completed"
    case PendingTasks => "Pending"
    case HighPriority => "High"
  }

  const FilterValues: set<string> := {"All", "Completed", "Pending", "High"}

  /** The filter chips offer "All", "Pending" and "Done" (that is, "Completed"). */
  type ChipChoice = c: FilterChoice | c != HighPriority witness AllTasks

  // ---------------------------------------------------------------------
  // The filtered view

  predicate MatchesSearch(task: Task, query: string)
  {
    IsBlank(query) || ContainsIgnoreCase(task.title, query)
  }

  predicate MatchesFilter(task: Task, filter: string)
  {
    if filter == "Completed" then task.isCompleted
    else if filter == "Pending" then !task.isCompleted
    else if filter == "High" then task.priority == "High"
    else true
  }

  predicate IsShown(task: Task, query: string, filter: string)
  {
    MatchesSearch(task, query) && MatchesFilter(task, filter)
  }

  /** `filteredTasks`: the tasks that match both the search and the filter,
      in list order. */
  function FilteredTasks(tasks: seq<Task>, query: string, filter: string): (r: seq<Task>)
    ensures IsSubsequence(r, tasks)
    ensures forall t :: t in r <==> t in tasks && IsShown(t, query, filter)
    ensures |r| == Count(tasks, (t: Task) => IsShown(t, query, filter)) <= |tasks|
  {
    Filter(tasks, t => IsShown(t, query, filter))
  }

  /** With a blank query and a filter that is none of "Completed", "Pending"
      and "High" (such as "All"), every task is shown. */
  lemma {:induction false} UnfilteredViewIsWholeList(tasks: seq<Task>, query: string, filter: string)
    requires IsBlank(query)
    requires filter !in {"Completed", "Pending", "High"}
    ensures FilteredTasks(tasks, query, filter) == tasks
  {
    FilterKeepsAll(tasks, t => IsShown(t, query, filter));
  }

  // ---------------------------------------------------------------------
  // Counters

  predicate IsPending(task: Task) { !task.isCompleted }

  predicate IsDone(task: Task) { task.isCompleted }

  /** `tasks.count { !it.isCompleted }`: the header and the "Pending" chip. */
  function PendingCount(tasks: seq<Task>): nat
  {
    Count(tasks, IsPending)
  }

  /** `tasks.count { it.isCompleted }`: the "Done" chip. */
  function DoneCount(tasks: seq<Task>): nat
  {
    Count(tasks, IsDone)
  }

  /** Pending and done together are all the tasks. */
  lemma {:induction false} CountsAddUp(tasks: seq<Task>)
    ensures PendingCount(tasks) + DoneCount(tasks) == |tasks|
  {
    CountSplit(tasks, IsPending, IsDone);
  }

  /** Each chip's number is the length of the view it selects, when the
      search field is blank. */
  lemma {:induction false} ChipCountsMatchViews(tasks: seq<Task>, query: string)
    requires IsBlank(query)
    ensures PendingCount(tasks) == |FilteredTasks(tasks, query, "Pending")|
    ensures DoneCount(tasks) == |FilteredTasks(tasks, query, "Completed")|
    ensures |tasks| == |FilteredTasks(tasks, query, "All")|
  {
    CountCongruent(tasks, IsPending, t => IsShown(t, query, "Pending"));
    CountCongruent(tasks, IsDone, t => IsShown(t, query, "Completed"));
    UnfilteredViewIsWholeList(tasks, query, "All");
  }

  // ---------------------------------------------------------------------
  // Identifiers

  function TaskId(task: Task): Int32 { task.id }

  /** The ids of the list are distinct, as `LazyColumn` requires of its keys. */
  ghost predicate UniqueIds(tasks: seq<Task>)
  {
    DistinctBy(tasks, TaskId)
  }

  /** No id is `Int.MAX_VALUE`, so `max + 1` does not wrap around. */
  ghost predicate BelowMaxId(tasks: seq<Task>)
  {
    forall t :: t in tasks ==> t.id < INT_MAX
  }

  /** `(tasks.maxOfOrNull { it.id } ?: 0) + 1` in `Int` arithmetic. */
  function NextTaskId(tasks: seq<Task>): (id: Int32)
    ensures tasks == [] ==> id == 1
    ensures BelowMaxId(tasks) ==> forall t :: t in tasks ==> t.id < id
    ensures tasks != [] && BelowMaxId(tasks) ==> exists t :: t in tasks && t.id == id - 1
    ensures !BelowMaxId(tasks) ==> id == INT_MIN
  {
    var max := MaxOfOrNull(tasks, TaskId);
    assert !BelowMaxId(tasks) ==> max == Some(INT_MAX as Int32);
    IntPlus(max.OrElse(0), 1)
  }

  /** Two lists with the same ids position by position agree on uniqueness. */
  lemma SameIdsSameUniqueness(a: seq<Task>, b: seq<Task>)
    requires |a| == |b|
    requires forall i :: 0 <= i < |a| ==> a[i].id == b[i].id
    ensures UniqueIds(a) <==> UniqueIds(b)
  {
  }

  // ---------------------------------------------------------------------
  // The list updates

  /** `onToggleComplete`: `tasks.map { if (it.id == id) it.copy(isCompleted = !it.isCompleted) else it }`. */
  function ToggledTasks(tasks: seq<Task>, id: Int32): (r: seq<Task>)
    ensures |r| == |tasks|
    ensures forall i :: 0 <= i < |tasks| ==>
              && r[i].isCompleted == (tasks[i].isCompleted != (tasks[i].id == id))
              && r[i].(isCompleted := tasks[i].isCompleted) == tasks[i]
  {
    Map(tasks, (t: Task) => if t.id == id then t.(isCompleted := !t.isCompleted) else t)
  }

  /** Toggling the same id twice restores the list. */
  lemma {:induction false} ToggleTwiceRestores(tasks: seq<Task>, id: Int32)
    ensures ToggledTasks(ToggledTasks(tasks, id), id) == tasks
  {
    var once := ToggledTasks(tasks, id);
    var twice := ToggledTasks(once, id);
    forall i | 0 <= i < |tasks| ensures twice[i] == tasks[i] {
      assert once[i].id == tasks[i].id;
    }
  }

  /** Toggling keeps the ids, so it keeps them unique. */
  lemma {:induction false} ToggleKeepsIdsUnique(tasks: seq<Task>, id: Int32)
    requires UniqueIds(tasks)
    ensures UniqueIds(ToggledTasks(tasks, id))
  {
    var r := ToggledTasks(tasks, id);
    assert forall i :: 0 <= i < |tasks| ==> r[i].id == tasks[i].id;
    SameIdsSameUniqueness(tasks, r);
  }

  /** Toggling a pending task whose id is unique lowers the pending count by one. */
  lemma {:induction false} ToggleCompletesOne(tasks: seq<Task>, k: nat)
    requires k < |tasks|
    requires UniqueIds(tasks)
    requires !tasks[k].isCompleted
    ensures PendingCount(ToggledTasks(tasks, tasks[k].id)) == PendingCount(tasks) - 1
  {
    var id := tasks[k].id;
    var r := ToggledTasks(tasks, id);
    if k == 0 {
      assert forall t :: t in tasks[1..] ==> t.id != id by {
        forall t | t in tasks[1..] ensures t.id != id {
          var j :| 0 <= j < |tasks[1..]| && tasks[1..][j] == t;
          assert TaskId(tasks[0]) != TaskId(tasks[j + 1]);
        }
      }
      assert r[1..] == tasks[1..] by {
        forall j | 0 <= j < |tasks| - 1 ensures r[1..][j] == tasks[1..][j] {
          assert tasks[1..][j] in tasks[1..];
        }
      }
      assert r == [r[0]] + r[1..];
      assert tasks == [tasks[0]] + tasks[1..];
    } else {
      assert UniqueIds(tasks[1..]) by {
        forall i, j | 0 <= i < j < |tasks| - 1 ensures TaskId(tasks[1..][i]) != TaskId(tasks[1..][j]) {
          assert TaskId(tasks[i + 1]) != TaskId(tasks[j + 1]);
        }
      }
      assert tasks[0].id != id by {
        assert TaskId(tasks[0]) != TaskId(tasks[k]);
      }
      ToggleCompletesOne(tasks[1..], k - 1);
      var rest := ToggledTasks(tasks[1..], id);
      assert r[1..] == rest;
      assert r == [tasks[0]] + rest;
      assert tasks == [tasks[0]] + tasks[1..];
    }
  }

  /** `onDelete`: `tasks.filter { it.id != id }`. */
  function WithoutTask(tasks: seq<Task>, id: Int32): (r: seq<Task>)
    ensures IsSubsequence(r, tasks)
    ensures forall t :: t in r <==> t in tasks && t.id != id
    ensures |r| + Count(tasks, (t: Task) => t.id == id) == |tasks|
    ensures (exists t :: t in tasks && t.id == id) ==> |r| < |tasks|
    ensures (forall t :: t in tasks ==> t.id != id) ==> r == tasks
  {
    CountSplit(tasks, (t: Task) => t.id != id, (t: Task) => t.id == id);
    var keep := (t: Task) => t.id != id;
    if forall t :: t in tasks ==> t.id != id then
      FilterKeepsAll(tasks, keep);
      Filter(tasks, keep)
    else
      Filter(tasks, keep)
  }

  /** Deleting keeps the remaining ids unique. */
  lemma {:induction false} DeleteKeepsIdsUnique(tasks: seq<Task>, id: Int32)
    requires UniqueIds(tasks)
    ensures UniqueIds(WithoutTask(tasks, id))
  {
    SubsequenceKeepsDistinct(WithoutTask(tasks, id), tasks, TaskId);
  }

  /** The task the add dialog's `onSave` appends. */
  function NewTask(tasks: seq<Task>, userId: Int32, draft: TaskDraft, now: Int64): Task
  {
    Task(NextTaskId(tasks), userId, draft.title, draft.description, false, draft.priority, draft.dueDate, now)
  }

  /** The add dialog's `onSave`: `tasks + newTask` with the next id, not completed, created at `now`. */
  function AddedTasks(tasks: seq<Task>, userId: Int32, draft: TaskDraft, now: Int64): (r: seq<Task>)
    ensures |r| == |tasks| + 1 && r[..|tasks|] == tasks
    ensures var t := r[|tasks|];
              && t.id == NextTaskId(tasks) && t.userId == userId && !t.isCompleted && t.createdAt == now
              && TaskDraft(t.title, t.description, t.priority, t.dueDate) == draft
    ensures BelowMaxId(tasks) ==> forall t :: t in tasks ==> t.id < r[|tasks|].id
  {
    tasks + [NewTask(tasks, userId, draft, now)]
  }

  /** Adding keeps the ids unique, as long as no id has reached `Int.MAX_VALUE`. */
  lemma {:induction false} AddKeepsIdsUnique(tasks: seq<Task>, userId: Int32, draft: TaskDraft, now: Int64)
    requires UniqueIds(tasks)
    requires BelowMaxId(tasks)
    ensures UniqueIds(AddedTasks(tasks, userId, draft, now))
  {
    var r := AddedTasks(tasks, userId, draft, now);
    forall i, j | 0 <= i < j < |r| ensures TaskId(r[i]) != TaskId(r[j]) {
      if j < |tasks| {
        assert r[i] == tasks[i] && r[j] == tasks[j];
      } else {
        assert r[i] == tasks[i] && tasks[i] in tasks;
      }
    }
  }

  /** Once an id has reached `Int.MAX_VALUE`, the next id wraps to
      `Int.MIN_VALUE`, and a second add repeats it. */
  lemma {:induction false} IdWrapRepeats(t: Task, draft: TaskDraft, now: Int64)
    requires t.id == INT_MAX
    ensures var once := AddedTasks([t], t.userId, draft, now);
            var twice := AddedTasks(once, t.userId, draft, now);
            twice[1].id == twice[2].id == INT_MIN && !UniqueIds(twice)
  {
    var once := AddedTasks([t], t.userId, draft, now);
    assert once[0] == t;
    var twice := AddedTasks(once, t.userId, draft, now);
    assert twice[0] == t && twice[1] == once[1];
    assert TaskId(twice[1]) == TaskId(twice[2]);
  }

  /** The edit dialog's `onSave`: the task whose id is the selected one gets
      the draft's title, description, priority and due date; nothing else changes. */
  function EditedTasks(tasks: seq<Task>, selectedId: Option<Int32>, draft: TaskDraft): (r: seq<Task>)
    ensures |r| == |tasks|
    ensures forall i :: 0 <= i < |tasks| ==>
              && r[i].id == tasks[i].id
              && r[i].userId == tasks[i].userId
              && r[i].isCompleted == tasks[i].isCompleted
              && r[i].createdAt == tasks[i].createdAt
              && if selectedId == Some(tasks[i].id)
                 then TaskDraft(r[i].title, r[i].description, r[i].priority, r[i].dueDate) == draft
                 else r[i] == tasks[i]
  {
    Map(tasks, (t: Task) => if selectedId == Some(t.id)
                    then t.(title := draft.title, description := draft.description,
                            priority := draft.priority, dueDate := draft.dueDate)
                    else t)
  }

  /** Editing keeps the ids, so it keeps them unique. */
  lemma {:induction false} EditKeepsIdsUnique(tasks: seq<Task>, selectedId: Option<Int32>, draft: TaskDraft)
    requires UniqueIds(tasks)
    ensures UniqueIds(EditedTasks(tasks, selectedId, draft))
  {
    var r := EditedTasks(tasks, selectedId, draft);
    assert forall i :: 0 <= i < |tasks| ==> r[i].id == tasks[i].id;
    SameIdsSameUniqueness(tasks, r);
  }

  function IdOf(selected: Option<Task>): Option<Int32>
  {
    if selected.Some? then Some(selected.value.id) else None
  }

  // ---------------------------------------------------------------------
  // The screen's state

  class Screen {
    const userId: Int32
    var tasks: seq<Task>
    var showAddDialog: bool
    var selectedTask: Option<Task>
    var filterOption: string
    var showMenu: bool
    var searchQuery: string
    var isSearchActive: bool
    /** The card whose delete confirmation is open, by the id it will delete. */
    var pendingDelete: Option<Int32>

    /** `filterOption` only ever holds one of the four filter values. */
    ghost predicate Valid()
      reads this
    {
      filterOption in FilterValues
    }

    constructor (userId: Int32)
      ensures Valid()
      ensures this.userId == userId && tasks == [] && !showAddDialog && selectedTask == None
      ensures filterOption == "All" && !showMenu && searchQuery == "" && !isSearchActive
      ensures pendingDelete == None
    {
      this.userId := userId;
      tasks := [];
      showAddDialog := false;
      selectedTask := None;
      filterOption := "All";
      showMenu := false;
      searchQuery := "";
      isSearchActive := false;
      pendingDelete := None;
    }

    /** The list the `LazyColumn` shows. */
    function Visible(): seq<Task>
      reads this
    {
      FilteredTasks(tasks, searchQuery, filterOption)
    }

    /** The chip drawn as selected (`isSelected = filterOption == ...`): the
        one whose value is the filter, and none when the filter is "High",
        which only the menu offers. */
    function SelectedChip(): (c: Option<ChipChoice>)
      reads this
      requires Valid()
      ensures c.Some? ==> FilterValue(c.value) == filterOption
      ensures c.None? <==> filterOption == "High"
    {
      var chip: ChipChoice :=
        if filterOption == "All" then AllTasks
        else if filterOption == "Pending" then PendingTasks
        else CompletedTasks;
      if filterOption == "High" then None else Some(chip)
    }

    /** The header's "N pending tasks" and the "Pending" chip. */
    function PendingLabel(): nat
      reads this
    {
      PendingCount(tasks)
    }

    /** The search icon shows or hides the field; the query keeps filtering either way. */
    method ToggleSearchBar()
      modifies this`isSearchActive
      ensures isSearchActive == !old(isSearchActive)
      ensures Visible() == old(Visible())
    {
      isSearchActive := !isSearchActive;
    }

    method EditSearch(query: string)
      modifies this`searchQuery
      ensures searchQuery == query
    {
      searchQuery := query;
    }

    /** The clear icon in the search field. */
    method ClearSearch()
      modifies this`searchQuery
      ensures searchQuery == ""
      ensures filterOption == "All" ==> Visible() == tasks
    {
      searchQuery := "";
      if filterOption == "All" {
        UnfilteredViewIsWholeList(tasks, searchQuery, filterOption);
      }
    }

    method ToggleMenu()
      modifies this`showMenu
      ensures showMenu == !old(showMenu)
    {
      showMenu := !showMenu;
    }

    method DismissMenu()
      modifies this`showMenu
      ensures !showMenu
    {
      showMenu := false;
    }

    /** A filter chip. */
    method ChooseChip(choice: ChipChoice)
      modifies this`filterOption
      ensures Valid() && filterOption == FilterValue(choice)
    {
      filterOption := FilterValue(choice);
    }

    /** A menu item: sets the filter and closes the menu. */
    method ChooseMenuItem(choice: FilterChoice)
      modifies this`filterOption, this`showMenu
      ensures Valid() && filterOption == FilterValue(choice) && !showMenu
    {
      filterOption := FilterValue(choice);
      showMenu := false;
    }

    method ToggleComplete(id: Int32)
      modifies this`tasks
      ensures tasks == ToggledTasks(old(tasks), id)
      ensures old(UniqueIds(tasks)) ==> UniqueIds(tasks)
      ensures old(UniqueIds(tasks)) && (exists t :: t in old(tasks) && t.id == id && !t.isCompleted) ==>
                PendingLabel() == old(PendingLabel()) - 1
    {
      if UniqueIds(tasks) {
        ToggleKeepsIdsUnique(tasks, id);
        if exists t :: t in tasks && t.id == id && !t.isCompleted {
          var t :| t in tasks && t.id == id && !t.isCompleted;
          var k :| 0 <= k < |tasks| && tasks[k] == t;
          ToggleCompletesOne(tasks, k);
        }
      }
      tasks := ToggledTasks(tasks, id);
    }

    /** The card's `onDelete` lambda, run once the deletion is confirmed. */
    method DeleteTask(id: Int32)
      modifies this`tasks
      ensures tasks == WithoutTask(old(tasks), id)
      ensures old(UniqueIds(tasks)) ==> UniqueIds(tasks)
    {
      if UniqueIds(tasks) {
        DeleteKeepsIdsUnique(tasks, id);
      }
      tasks := WithoutTask(tasks, id);
    }

    /** A card's delete icon opens the confirmation dialog; nothing is deleted yet. */
    method RequestDelete(id: Int32)
      modifies this`pendingDelete
      ensures pendingDelete == Some(id)
    {
      pendingDelete := Some(id);
    }

    /** The dialog's "Delete": the card's `onDelete` runs, then the dialog closes.
        With no dialog open there is no button to press, and nothing happens. */
    method ConfirmDelete()
      modifies this`tasks, this`pendingDelete
      ensures pendingDelete == None
      ensures old(pendingDelete).Some? ==> tasks == WithoutTask(old(tasks), old(pendingDelete).value)
      ensures old(pendingDelete).None? ==> tasks == old(tasks)
      ensures old(UniqueIds(tasks)) ==> UniqueIds(tasks)
    {
      if pendingDelete.Some? {
        DeleteTask(pendingDelete.value);
      }
      pendingDelete := None;
    }

    /** The dialog's "Cancel", or a dismiss: the dialog closes and the list stays. */
    method CancelDelete()
      modifies this`pendingDelete
      ensures pendingDelete == None
      ensures tasks == old(tasks)
    {
      pendingDelete := None;
    }

    /** The floating add button. */
    method OpenAddDialog()
      modifies this`showAddDialog
      ensures showAddDialog
    {
      showAddDialog := true;
    }

    method DismissAddDialog()
      modifies this`showAddDialog
      ensures !showAddDialog
    {
      showAddDialog := false;
    }

    /** The add dialog's `onSave`, with `now` the clock reading. */
    method SaveNewTask(draft: TaskDraft, now: Int64)
      modifies this`tasks, this`showAddDialog
      ensures tasks == AddedTasks(old(tasks), userId, draft, now) && !showAddDialog
      ensures old(UniqueIds(tasks) && BelowMaxId(tasks)) ==> UniqueIds(tasks)
    {
      if UniqueIds(tasks) && BelowMaxId(tasks) {
        AddKeepsIdsUnique(tasks, userId, draft, now);
      }
      tasks := AddedTasks(tasks, userId, draft, now);
      showAddDialog := false;
    }

    /** A task card's edit action. */
    method StartEdit(task: Task)
      modifies this`selectedTask
      ensures selectedTask == Some(task)
    {
      selectedTask := Some(task);
    }

    method DismissEditDialog()
      modifies this`selectedTask
      ensures selectedTask == None
    {
      selectedTask := None;
    }

    /** The edit dialog's `onSave`: `it.id == selectedTask?.id`. */
    method SaveEditedTask(draft: TaskDraft)
      modifies this`tasks, this`selectedTask
      ensures tasks == EditedTasks(old(tasks), IdOf(old(selectedTask)), draft)
      ensures selectedTask == None
      ensures old(UniqueIds(tasks)) ==> UniqueIds(tasks)
    {
      if UniqueIds(tasks) {
        EditKeepsIdsUnique(tasks, IdOf(selectedTask), draft);
      }
      tasks := EditedTasks(tasks, IdOf(selectedTask), draft);
      selectedTask := None;
    }

    /** Pressing "Save Task" in the add dialog: the list grows only when the title is not blank. */
    method SubmitAddDialog(dialog: TaskDialog.Dialog, now: Int64)
      modifies this`tasks, this`showAddDialog
      ensures dialog.SaveEnabled() ==>
                tasks == AddedTasks(old(tasks), userId, TaskDraft(dialog.title, dialog.description, dialog.priority, dialog.dueDate), now)
                && !showAddDialog
      ensures !dialog.SaveEnabled() ==> tasks == old(tasks) && showAddDialog == old(showAddDialog)
    {
      var sent := dialog.ClickSave();
      if sent.Some? {
        SaveNewTask(sent.value, now);
      }
    }

    /** Pressing "Save Task" in the edit dialog. */
    method SubmitEditDialog(dialog: TaskDialog.Dialog)
      modifies this`tasks, this`selectedTask
      ensures dialog.SaveEnabled() ==>
                tasks == EditedTasks(old(tasks), IdOf(old(selectedTask)),
                                     TaskDraft(dialog.title, dialog.description, dialog.priority, dialog.dueDate))
                && selectedTask == None
      ensures !dialog.SaveEnabled() ==> tasks == old(tasks) && selectedTask == old(selectedTask)
    {
      var sent := dialog.ClickSave();
      if sent.Some? {
        SaveEditedTask(sent.value);
      }
    }
  }
}
