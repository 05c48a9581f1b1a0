/** `NotesScreen`: the in-memory note list, its search view, the colour of
    each card, the grid/list switch, and the add, edit and delete handlers. */
module NotesScreen {
  import opened Kotlin
  import opened Collections
  import opened Notes
  import NoteDialog

  // ---------------------------------------------------------------------
  // The search view

  predicate IsShown(note: Note, query: string)
  {
    IsBlank(query) || ContainsIgnoreCase(note.title, query) || ContainsIgnoreCase(note.content, query)
  }

  /** `filteredNotes`: the notes whose title or content contains the query,
      in list order; all of them when the query is blank. */
  function FilteredNotes(notes: seq<Note>, query: string): (r: seq<Note>)
    ensures IsSubsequence(r, notes)
    ensures forall n :: n in r <==> n in notes && IsShown(n, query)
    ensures |r| == Count(notes, (n: Note) => IsShown(n, query)) <= |notes|
  {
    Filter(notes, n => IsShown(n, query))
  }

  lemma {:induction false} BlankQueryShowsAll(notes: seq<Note>, query: string)
    requires IsBlank(query)
    ensures FilteredNotes(notes, query) == notes
  {
    FilterKeepsAll(notes, n => IsShown(n, query));
  }

  /** The title itself, or any part of it, finds the note. */
  lemma {:induction false} TitleFindsNote(notes: seq<Note>, k: nat)
    requires k < |notes|
    ensures notes[k] in FilteredNotes(notes, notes[k].title)
  {
    ContainsItself(notes[k].title);
  }

  // ---------------------------------------------------------------------
  // Card colours

  datatype Gradient = Purple | Blue | Green | Orange | Pink | Teal

  /** `when (note.id % 6)`, with Kotlin's remainder; the grid and the list
      both use it. */
  function GradientFor(id: Int32): (g: Gradient)
    ensures id >= 0 ==> g == [Purple, Blue, Green, Orange, Pink, Teal][id % 6]
    ensures id < 0 ==> g == if id % 6 == 0 then Purple else Teal
  {
    match RemSix(id)
    case 0 => Purple
    case 1 => Blue
    case 2 => Green
    case 3 => Orange
    case 4 => Pink
    case _ => Teal
  }

  /** Consecutive non-negative ids cycle through the six colours. */
  lemma {:induction false} GradientsCycle(id: Int32)
    requires 0 <= id <= INT_MAX - 6
    ensures GradientFor((id + 6) as Int32) == GradientFor(id)
    ensures GradientFor(id) != GradientFor((id + 1) as Int32)
  {
  }

  // ---------------------------------------------------------------------
  // The view mode

  /** The view button: "grid" becomes "list", anything else becomes "grid". */
  function NextViewMode(mode: string): (next: string)
    ensures next in {"grid", "list"}
    ensures mode in {"grid", "list"} ==> next != mode
  {
    if mode == "grid" then "list" else "grid"
  }

  /** Two presses restore the mode. */
  lemma {:induction false} ViewModeTwiceRestores(mode: string)
    requires mode in {"grid", "list"}
    ensures NextViewMode(NextViewMode(mode)) == mode
  {
  }

  // ---------------------------------------------------------------------
  // Identifiers

  function NoteId(note: Note): Int32 { note.id }

  /** The ids of the list are distinct, as the grid's item keys require. */
  ghost predicate UniqueIds(notes: seq<Note>)
  {
    DistinctBy(notes, NoteId)
  }

  /** No id is `Int.MAX_VALUE`, so `max + 1` does not wrap around. */
  ghost predicate BelowMaxId(notes: seq<Note>)
  {
    forall n :: n in notes ==> n.id < INT_MAX
  }

  /** `(notes.maxOfOrNull { it.id } ?: 0) + 1` in `Int` arithmetic. */
  function NextNoteId(notes: seq<Note>): (id: Int32)
    ensures notes == [] ==> id == 1
    ensures BelowMaxId(notes) ==> forall n :: n in notes ==> n.id < id
    ensures notes != [] && BelowMaxId(notes) ==> exists n :: n in notes && n.id == id - 1
    ensures !BelowMaxId(notes) ==> id == INT_MIN
  {
    var max := MaxOfOrNull(notes, NoteId);
    assert !BelowMaxId(notes) ==> max == Some(INT_MAX as Int32);
    IntPlus(max.OrElse(0), 1)
  }

  // ---------------------------------------------------------------------
  // The list updates

  /** A card's delete action: `notes.filter { it.id != id }`. */
  function WithoutNote(notes: seq<Note>, id: Int32): (r: seq<Note>)
    ensures IsSubsequence(r, notes)
    ensures forall n :: n in r <==> n in notes && n.id != id
    ensures |r| + Count(notes, (n: Note) => n.id == id) == |notes|
    ensures (exists n :: n in notes && n.id == id) ==> |r| < |notes|
    ensures (forall n :: n in notes ==> n.id != id) ==> r == notes
  {
    CountSplit(notes, (n: Note) => n.id != id, (n: Note) => n.id == id);
    var keep := (n: Note) => n.id != id;
    if forall n :: n in notes ==> n.id != id then
      FilterKeepsAll(notes, keep);
      Filter(notes, keep)
    else
      Filter(notes, keep)
  }

  lemma {:induction false} DeleteKeepsIdsUnique(notes: seq<Note>, id: Int32)
    requires UniqueIds(notes)
    ensures UniqueIds(WithoutNote(notes, id))
  {
    SubsequenceKeepsDistinct(WithoutNote(notes, id), notes, NoteId);
  }

  /** The add dialog's `onSave`. The clock is read twice, once for each
      timestamp, so `createdAt` and `updatedAt` are separate readings. */
  function AddedNotes(notes: seq<Note>, userId: Int32, draft: NoteDraft, createdNow: Int64, updatedNow: Int64): (r: seq<Note>)
    ensures |r| == |notes| + 1 && r[..|notes|] == notes
    ensures var n := r[|notes|];
              && n.id == NextNoteId(notes) && n.userId == userId
              && NoteDraft(n.title, n.content) == draft
              && n.createdAt == createdNow && n.updatedAt == updatedNow
    ensures BelowMaxId(notes) ==> forall n :: n in notes ==> n.id < r[|notes|].id
  {
    notes + [Note(NextNoteId(notes), userId, draft.title, draft.content, createdNow, updatedNow)]
  }

  /** Adding keeps the ids unique, as long as no id has reached `Int.MAX_VALUE`. */
  lemma {:induction false} AddKeepsIdsUnique(notes: seq<Note>, userId: Int32, draft: NoteDraft, createdNow: Int64, updatedNow: Int64)
    requires UniqueIds(notes)
    requires BelowMaxId(notes)
    ensures UniqueIds(AddedNotes(notes, userId, draft, createdNow, updatedNow))
  {
    var r := AddedNotes(notes, userId, draft, createdNow, updatedNow);
    forall i, j | 0 <= i < j < |r| ensures NoteId(r[i]) != NoteId(r[j]) {
      if j < |notes| {
        assert r[i] == notes[i] && r[j] == notes[j];
      } else {
        assert r[i] == notes[i] && notes[i] in notes;
      }
    }
  }

  /** The edit dialog's `onSave`: the note with the selected id gets the new
      title and content and `updatedAt = now`; id, owner and `createdAt` stay,
      and the other notes are unchanged. */
  function EditedNotes(notes: seq<Note>, selectedId: Option<Int32>, draft: NoteDraft, now: Int64): (r: seq<Note>)
    ensures |r| == |notes|
    ensures forall i :: 0 <= i < |notes| ==>
              && r[i].id == notes[i].id
              && r[i].userId == notes[i].userId
              && r[i].createdAt == notes[i].createdAt
              && if selectedId == Some(notes[i].id)
                 then NoteDraft(r[i].title, r[i].content) == draft && r[i].updatedAt == now
                 else r[i] == notes[i]
  {
    Map(notes, (n: Note) => if selectedId == Some(n.id)
                            then n.(title := draft.title, content := draft.content, updatedAt := now)
                            else n)
  }

  lemma {:induction false} EditKeepsIdsUnique(notes: seq<Note>, selectedId: Option<Int32>, draft: NoteDraft, now: Int64)
    requires UniqueIds(notes)
    ensures UniqueIds(EditedNotes(notes, selectedId, draft, now))
  {
    var r := EditedNotes(notes, selectedId, draft, now);
    forall i, j | 0 <= i < j < |r| ensures NoteId(r[i]) != NoteId(r[j]) {
      assert r[i].id == notes[i].id && r[j].id == notes[j].id;
    }
  }

  /** With unique ids at most one note matches the selected id, so the edit
      reads the clock at most once. */
  lemma {:induction false} EditStampsAtMostOne(notes: seq<Note>, selectedId: Option<Int32>)
    requires UniqueIds(notes)
    ensures Count(notes, (n: Note) => selectedId == Some(n.id)) <= 1
  {
    if notes != [] {
      assert UniqueIds(notes[1..]) by {
        forall i, j | 0 <= i < j < |notes| - 1 ensures NoteId(notes[1..][i]) != NoteId(notes[1..][j]) {
          assert NoteId(notes[i + 1]) != NoteId(notes[j + 1]);
        }
      }
      EditStampsAtMostOne(notes[1..], selectedId);
      if selectedId == Some(notes[0].id) {
        forall n | n in notes[1..] ensures selectedId != Some(n.id) {
          var j :| 0 <= j < |notes[1..]| && notes[1..][j] == n;
          assert NoteId(notes[0]) != NoteId(notes[j + 1]);
        }
      }
    }
  }

  function IdOf(selected: Option<Note>): Option<Int32>
  {
    if selected.Some? then Some(selected.value.id) else None
  }

  // ---------------------------------------------------------------------
  // The screen's state

  class Screen {
    const userId: Int32
    var notes: seq<Note>
    var showAddDialog: bool
    var selectedNote: Option<Note>
    var searchQuery: string
    var isSearchActive: bool
    /** The card whose delete confirmation is open, by the id it will delete. */
    var pendingDelete: Option<Int32>
    var viewMode: string

    /** `viewMode` is always "grid" or "list". */
    ghost predicate Valid()
      reads this
    {
      viewMode in {"grid", "list"}
    }

    constructor (userId: Int32)
      ensures Valid()
      ensures this.userId == userId && notes == [] && !showAddDialog && selectedNote == None
      ensures searchQuery == "" && !isSearchActive && viewMode == "grid"
      ensures pendingDelete == None
    {
      this.userId := userId;
      notes := [];
      showAddDialog := false;
      selectedNote := None;
      searchQuery := "";
      isSearchActive := false;
      pendingDelete := None;
      viewMode := "grid";
    }

    /** The cards shown, in grid or list alike. */
    function Visible(): seq<Note>
      reads this
    {
      FilteredNotes(notes, searchQuery)
    }

    /** The header's "N notes": the whole list, whatever the search. */
    function HeaderCount(): (n: nat)
      reads this
      ensures n == |notes| && |Visible()| <= n
    {
      |notes|
    }

    method ToggleSearchBar()
      modifies this`isSearchActive
      ensures isSearchActive == !old(isSearchActive)
      ensures Visible() == old(Visible())
    {
      isSearchActive := !isSearchActive;
    }

    method EditSearch(query: string)
      modifies this`searchQuery
      ensures searchQuery == query
      ensures HeaderCount() == old(HeaderCount())
    {
      searchQuery := query;
    }

    /** The clear icon in the search field. */
    method ClearSearch()
      modifies this`searchQuery
      ensures searchQuery == "" && Visible() == notes
    {
      searchQuery := "";
      BlankQueryShowsAll(notes, searchQuery);
    }

    method ToggleViewMode()
      requires Valid()
      modifies this`viewMode
      ensures Valid()
      ensures viewMode == NextViewMode(old(viewMode)) && viewMode != old(viewMode)
      ensures NextViewMode(viewMode) == old(viewMode)
    {
      ViewModeTwiceRestores(viewMode);
      viewMode := NextViewMode(viewMode);
    }

    /** The card's `onDelete` lambda, run once the deletion is confirmed. */
    method DeleteNote(id: Int32)
      modifies this`notes
      ensures notes == WithoutNote(old(notes), id)
      ensures old(UniqueIds(notes)) ==> UniqueIds(notes)
    {
      if UniqueIds(notes) {
        DeleteKeepsIdsUnique(notes, id);
      }
      notes := WithoutNote(notes, id);
    }

    /** A card's delete icon opens the confirmation dialog; nothing is deleted yet. */
    method RequestDelete(id: Int32)
      modifies this`pendingDelete
      ensures pendingDelete == Some(id)
    {
      pendingDelete := Some(id);
    }

    /** The dialog's "Delete": the card's `onDelete` runs, then the dialog closes.
        With no dialog open there is no button to press, and nothing happens. */
    method ConfirmDelete()
      modifies this`notes, this`pendingDelete
      ensures pendingDelete == None
      ensures old(pendingDelete).Some? ==> notes == WithoutNote(old(notes), old(pendingDelete).value)
      ensures old(pendingDelete).None? ==> notes == old(notes)
      ensures old(UniqueIds(notes)) ==> UniqueIds(notes)
    {
      if pendingDelete.Some? {
        DeleteNote(pendingDelete.value);
      }
      pendingDelete := None;
    }

    /** The dialog's "Cancel", or a dismiss: the dialog closes and the list stays. */
    method CancelDelete()
      modifies this`pendingDelete
      ensures pendingDelete == None
      ensures notes == old(notes)
    {
      pendingDelete := None;
    }

    /** The floating add button. */
    method OpenAddDialog()
      modifies this`showAddDialog
      ensures showAddDialog
    {
      showAddDialog := true;
    }

    method DismissAddDialog()
      modifies this`showAddDialog
      ensures !showAddDialog
    {
      showAddDialog := false;
    }

    /** The add dialog's `onSave`, with the two clock readings. */
    method SaveNewNote(draft: NoteDraft, createdNow: Int64, updatedNow: Int64)
      modifies this`notes, this`showAddDialog
      ensures notes == AddedNotes(old(notes), userId, draft, createdNow, updatedNow) && !showAddDialog
      ensures old(UniqueIds(notes) && BelowMaxId(notes)) ==> UniqueIds(notes)
    {
      if UniqueIds(notes) && BelowMaxId(notes) {
        AddKeepsIdsUnique(notes, userId, draft, createdNow, updatedNow);
      }
      notes := AddedNotes(notes, userId, draft, createdNow, updatedNow);
      showAddDialog := false;
    }

    /** A card's click: open it for editing. */
    method StartEdit(note: Note)
      modifies this`selectedNote
      ensures selectedNote == Some(note)
    {
      selectedNote := Some(note);
    }

    method DismissEditDialog()
      modifies this`selectedNote
      ensures selectedNote == None
    {
      selectedNote := None;
    }

    /** The edit dialog's `onSave`: `it.id == selectedNote?.id`. */
    method SaveEditedNote(draft: NoteDraft, now: Int64)
      modifies this`notes, this`selectedNote
      ensures notes == EditedNotes(old(notes), IdOf(old(selectedNote)), draft, now)
      ensures selectedNote == None
      ensures old(UniqueIds(notes)) ==> UniqueIds(notes)
    {
      if UniqueIds(notes) {
        EditKeepsIdsUnique(notes, IdOf(selectedNote), draft, now);
      }
      notes := EditedNotes(notes, IdOf(selectedNote), draft, now);
      selectedNote := None;
    }

    /** Pressing "Save Note" in the add dialog: the list grows only when the
        title or the content is not blank. */
    method SubmitAddDialog(dialog: NoteDialog.Dialog, createdNow: Int64, updatedNow: Int64)
      modifies this`notes, this`showAddDialog
      ensures dialog.SaveEnabled() ==>
                notes == AddedNotes(old(notes), userId, NoteDraft(dialog.title, dialog.content), createdNow, updatedNow)
                && !showAddDialog
      ensures !dialog.SaveEnabled() ==> notes == old(notes) && showAddDialog == old(showAddDialog)
    {
      var sent := dialog.ClickSave();
      if sent.Some? {
        SaveNewNote(sent.value, createdNow, updatedNow);
      }
    }

    /** Pressing "Save Note" in the edit dialog. */
    method SubmitEditDialog(dialog: NoteDialog.Dialog, now: Int64)
      modifies this`notes, this`selectedNote
      ensures dialog.SaveEnabled() ==>
                notes == EditedNotes(old(notes), IdOf(old(selectedNote)), NoteDraft(dialog.title, dialog.content), now)
                && selectedNote == None
      ensures !dialog.SaveEnabled() ==> notes == old(notes) && selectedNote == old(selectedNote)
    {
      var sent := dialog.ClickSave();
      if sent.Some? {
        SaveEditedNote(sent.value, now);
      }
    }
  }
}
