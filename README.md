# TaskAndNotesApp core logic in Dafny

This project models the parts of the TaskAndNotesApp Android application that make decisions.

- **Field validation** (`ValidationUtils`). It is a utility object that no screen of the app calls. Its checks would decide whether registration or login fields are acceptable, and with which Arabic error message. The e-mail regular expression `[a-zA-Z0-9._-]+@[a-z]+\.+[a-z]+` is written as a greedy matcher. That matcher is proved equivalent to an explicit five-part shape: local part, `@`, lower-case domain, one or more dots, lower-case top-level domain.
- **The task screen** (`TasksScreen`). It holds the in-memory task list and a filtered view built from a title search and a status or priority filter. It shows pending and done counters. Its handlers toggle, delete, add and edit tasks. The screen is a class whose fields are the screen's state variables. Each list update is a function proved to keep the ids unique, as the list's item keys require.
- **The notes screen** (`NotesScreen`). It holds the in-memory note list, a search on title or content, and an `id % 6` card colour computed with Kotlin's truncating remainder. It also has the grid/list switch and the add, edit and delete handlers.
- **The two dialogs** (`EnhancedTaskDialog`, `NoteDialog`). These are form classes. They cover the initial or prefilled fields, the priority buttons, the one-day due-date button, and the save guard. The save guard and the "enabled" flag are one predicate.

Kotlin's semantics that matter are modelled explicitly in module `Kotlin` (`kotlin.dfy`):

- `Int` and `Long` are 32- and 64-bit ranges with two's-complement wrap on `+`.
- `%` truncates toward zero.
- `String.length` counts UTF-16 units.
- `isBlank` uses the JVM whitespace set.

Modules and files:

| module | file | models |
|---|---|---|
| `Kotlin` | kotlin.dfy | `Int`/`Long`, `?:`, `%`, `length`, `isBlank`, `contains(ignoreCase = true)` |
| `Collections` | collections.dfy | `filter`, `map`, `count`, `maxOfOrNull` on lists |
| `Validation` | validation.dfy | `ValidationUtils`, `ValidationResult` |
| `Tasks` | tasks.dfy | `data class Task` and what the task dialog saves |
| `TaskDialog` | task_dialog.dfy | `EnhancedTaskDialog` |
| `TasksScreen` | tasks_screen.dfy | `TasksScreen` state and handlers |
| `Notes` | notes.dfy | `data class Note` and what the note dialog saves |
| `NoteDialog` | note_dialog.dfy | `NoteDialog` |
| `NotesScreen` | notes_screen.dfy | `NotesScreen` state and handlers |

The clock (`System.currentTimeMillis()`) is a parameter (`now`) of the operations that read it. The note add handler reads the clock twice, once for `createdAt` and once for `updatedAt`. So `AddedNotes` takes two readings, which may differ.

## Model

| member | source | states |
|---|---|---|
| Kotlin.Option.OrElse | app/src/main/java/com/example/taskandnotesapp/ui/tasks/TasksScreen.kt:366 | The elvis operator gives the value when there is one and the default otherwise |
| Kotlin.WrapInt | app/src/main/java/com/example/taskandnotesapp/ui/tasks/TasksScreen.kt:366 | 32-bit truncation is the identity in range and congruent to its argument modulo 2^32 |
| Kotlin.WrapLong | app/src/main/java/com/example/taskandnotesapp/ui/tasks/TaskDialog.kt:94 | 64-bit truncation is the identity in range and congruent to its argument modulo 2^64 |
| Kotlin.IntPlus | app/src/main/java/com/example/taskandnotesapp/ui/tasks/TasksScreen.kt:366 | `Int` addition is exact in range and wraps by 2^32 on overflow in either direction |
| Kotlin.LongPlus | app/src/main/java/com/example/taskandnotesapp/ui/tasks/TaskDialog.kt:94 | `Long` addition is exact in range and wraps by 2^64 on overflow in either direction |
| Kotlin.RemSix | app/src/main/java/com/example/taskandnotesapp/ui/notes/NotesScreen.kt:262 | `a % 6` differs from `a` by a multiple of 6. It equals Dafny's remainder for `a >= 0` and lies in (-6, 0] for negative `a`, where it is 0 exactly when 6 divides `a` |
| Kotlin.Utf16Length | app/src/main/java/com/example/taskandnotesapp/utils/ValidationResult.kt:15 | `length` is between the number of characters and twice that, and equals the number of characters when all are in the Basic Multilingual Plane |
| Kotlin.ContainsItself | app/src/main/java/com/example/taskandnotesapp/ui/tasks/TasksScreen.kt:274 | Every string contains itself, ignoring case |
| Collections.Count | app/src/main/java/com/example/taskandnotesapp/ui/tasks/TasksScreen.kt:254 | `count` is at most the length; it is 0 iff no element qualifies and the full length iff all do |
| Collections.Filter | app/src/main/java/com/example/taskandnotesapp/ui/tasks/TasksScreen.kt:269-285 | `filter` keeps exactly the qualifying elements, in order (a subsequence), and its length is their count |
| Collections.Map | app/src/main/java/com/example/taskandnotesapp/ui/tasks/TasksScreen.kt:343-346 | `map` preserves length and applies the function at every position |
| Collections.MaxOfOrNull | app/src/main/java/com/example/taskandnotesapp/ui/tasks/TasksScreen.kt:366 | `maxOfOrNull` is null iff the list is empty; otherwise it is attained by some element and bounds all of them |
| Collections.FilterKeepsAll | app/src/main/java/com/example/taskandnotesapp/ui/tasks/TasksScreen.kt:271-272 | A filter that every element passes returns the list itself |
| Collections.CountCongruent | app/src/main/java/com/example/taskandnotesapp/ui/tasks/TasksScreen.kt:254 | Predicates that agree on the list count it identically |
| Collections.CountSplit | app/src/main/java/com/example/taskandnotesapp/ui/tasks/TasksScreen.kt:254-261 | The counts of a predicate and of its negation add up to the length |
| Collections.SubsequenceMembers | app/src/main/java/com/example/taskandnotesapp/ui/tasks/TasksScreen.kt:350 | Every element of a subsequence is an element of the original |
| Collections.SubsequenceKeepsDistinct | app/src/main/java/com/example/taskandnotesapp/ui/tasks/TasksScreen.kt:350 | Leaving elements out keeps keys distinct |
| Validation.Run | app/src/main/java/com/example/taskandnotesapp/utils/ValidationResult.kt:8 | A `+` in the pattern consumes a run of its class that stays in the string and cannot be extended |
| Validation.RunIsMaximal | app/src/main/java/com/example/taskandnotesapp/utils/ValidationResult.kt:8 | Any unextendable run of a class is the one the matcher takes |
| Validation.EmailPatternIff | app/src/main/java/com/example/taskandnotesapp/utils/ValidationResult.kt:8-9 | The whole-string match succeeds iff the string splits into local part, `@`, lower-case domain, dots and lower-case top-level domain, each non-empty |
| Validation.BlankIsNotEmailShaped | app/src/main/java/com/example/taskandnotesapp/utils/ValidationResult.kt:7 | No blank string has the e-mail shape |
| Validation.IsValidEmail | app/src/main/java/com/example/taskandnotesapp/utils/ValidationResult.kt:6-10 | `isValidEmail` holds iff the address has the e-mail shape, and a blank string is rejected |
| Validation.IsValidPassword | app/src/main/java/com/example/taskandnotesapp/utils/ValidationResult.kt:13-19 | Success iff 6 <= length <= 20; a short password gets the "at least 6" message and a long one the "too long" message, never empty |
| Validation.UsernamePatternIsNotBlank | app/src/main/java/com/example/taskandnotesapp/utils/ValidationResult.kt:27 | A name matching `^[a-zA-Z0-9._]+$` is not blank |
| Validation.IsValidUsername | app/src/main/java/com/example/taskandnotesapp/utils/ValidationResult.kt:22-31 | Success iff 3 <= length <= 20 and every character is in `[a-zA-Z0-9._]`; a blank name always gets the "required" message; messages are non-empty |
| Validation.UsernameLengthReportedBeforeCharacters | app/src/main/java/com/example/taskandnotesapp/utils/ValidationResult.kt:25-28 | A non-blank name of the wrong length gets the length message whatever its characters; the character message appears only at a valid length |
| Validation.ValidateRegistration | app/src/main/java/com/example/taskandnotesapp/utils/ValidationResult.kt:34-57 | Success iff all three checks succeed; otherwise the username error unchanged, else the e-mail error, else the password error unchanged |
| Validation.RegistrationAcceptsExactly | app/src/main/java/com/example/taskandnotesapp/utils/ValidationResult.kt:34-57 | Registration accepts exactly: username of 3 to 20 allowed characters, e-mail of the shape, password of 6 to 20 units |
| Validation.ValidateLogin | app/src/main/java/com/example/taskandnotesapp/utils/ValidationResult.kt:60-67 | Success iff the e-mail has the shape and the password is not blank; blank e-mail gives "required", malformed gives "invalid", blank password gives "password required" |
| Validation.LoginAcceptsShortPassword | app/src/main/java/com/example/taskandnotesapp/utils/ValidationResult.kt:60-67 | Login applies no length limit: a one-character password passes login although registration rejects it |
| Validation.PasswordContentIgnored | app/src/main/java/com/example/taskandnotesapp/utils/ValidationResult.kt:13-19 | Two passwords of the same length get the same verdict, whatever their characters |
| Validation.UppercaseDomainRejected | app/src/main/java/com/example/taskandnotesapp/utils/ValidationResult.kt:8 | `a@B.com` is rejected: the domain must be lower-case |
| Validation.DottedTopLevelDomainRejected | app/src/main/java/com/example/taskandnotesapp/utils/ValidationResult.kt:8 | `a@b.c.d` is rejected: only one domain label precedes the dots |
| Validation.PermissiveAddressAccepted | app/src/main/java/com/example/taskandnotesapp/utils/ValidationResult.kt:8 | `First.Last-1@mail..com` is accepted: capitals, dots and dashes in the local part, repeated dots |
| TaskDialog.Label | app/src/main/java/com/example/taskandnotesapp/ui/tasks/TaskDialog.kt:85-87 | Each priority button writes one of "Low", "Medium", "High", and only the Medium button writes the default |
| TaskDialog.SelectedOptionUnique | app/src/main/java/com/example/taskandnotesapp/ui/tasks/TaskDialog.kt:85-87 | When the priority is one of the three labels exactly one button is selected, and otherwise none is |
| TaskDialog.DueDateFrom | app/src/main/java/com/example/taskandnotesapp/ui/tasks/TaskDialog.kt:94 | The due date is one day after the clock reading, later than it unless the `Long` sum overflows |
| TaskDialog.Dialog.constructor | app/src/main/java/com/example/taskandnotesapp/ui/tasks/TaskDialog.kt:27-30 | Without a task the fields are "", "", "Medium" and no due date; with a task they are that task's values |
| TaskDialog.Dialog.Heading | app/src/main/java/com/example/taskandnotesapp/ui/tasks/TaskDialog.kt:36 | The create heading is shown iff no task was passed in |
| TaskDialog.Dialog.EditTitle | app/src/main/java/com/example/taskandnotesapp/ui/tasks/TaskDialog.kt:47 | The title becomes the typed text |
| TaskDialog.Dialog.EditDescription | app/src/main/java/com/example/taskandnotesapp/ui/tasks/TaskDialog.kt:60 | The description becomes the typed text |
| TaskDialog.Dialog.ChoosePriority | app/src/main/java/com/example/taskandnotesapp/ui/tasks/TaskDialog.kt:85-87 | The priority becomes the button's label, that button is selected and no other is |
| TaskDialog.Dialog.SetDueDate | app/src/main/java/com/example/taskandnotesapp/ui/tasks/TaskDialog.kt:93-95 | The due date becomes now plus one day, regardless of its previous value |
| TaskDialog.Dialog.ClickSave | app/src/main/java/com/example/taskandnotesapp/ui/tasks/TaskDialog.kt:113-118 | Something is forwarded iff the button is enabled (title not blank), and it is the current fields unchanged |
| TasksScreen.FilterValue | app/src/main/java/com/example/taskandnotesapp/ui/tasks/TasksScreen.kt:142-172 | Every chip and menu item sets the filter to one of "All", "Completed", "Pending", "High" |
| TasksScreen.FilteredTasks | app/src/main/java/com/example/taskandnotesapp/ui/tasks/TasksScreen.kt:269-285 | The view is an order-preserving subsequence in which a task appears iff it matches the search (blank, or title contains the query) and the filter, and its length is the number of matching positions, so every copy is kept |
| TasksScreen.UnfilteredViewIsWholeList | app/src/main/java/com/example/taskandnotesapp/ui/tasks/TasksScreen.kt:271-281 | With a blank query and the "All" filter the view is the whole list |
| TasksScreen.CountsAddUp | app/src/main/java/com/example/taskandnotesapp/ui/tasks/TasksScreen.kt:247-261 | Pending plus Done equals the "All" count |
| TasksScreen.ChipCountsMatchViews | app/src/main/java/com/example/taskandnotesapp/ui/tasks/TasksScreen.kt:245-285 | With a blank search each chip's number is the size of the view it selects |
| TasksScreen.NextTaskId | app/src/main/java/com/example/taskandnotesapp/ui/tasks/TasksScreen.kt:366 | The new id is 1 for an empty list and max + 1 otherwise, above every existing id; if some id is `Int.MAX_VALUE` it wraps to `Int.MIN_VALUE` |
| TasksScreen.SameIdsSameUniqueness | app/src/main/java/com/example/taskandnotesapp/ui/tasks/TasksScreen.kt:343-346 | Lists with the same ids position by position agree on id uniqueness |
| TasksScreen.ToggledTasks | app/src/main/java/com/example/taskandnotesapp/ui/tasks/TasksScreen.kt:343-346 | Length is kept; `isCompleted` flips exactly where the id matches, and every other field of every task is unchanged |
| TasksScreen.ToggleTwiceRestores | app/src/main/java/com/example/taskandnotesapp/ui/tasks/TasksScreen.kt:343-346 | Toggling the same id twice restores the list |
| TasksScreen.ToggleKeepsIdsUnique | app/src/main/java/com/example/taskandnotesapp/ui/tasks/TasksScreen.kt:343-346 | Toggling keeps ids unique |
| TasksScreen.ToggleCompletesOne | app/src/main/java/com/example/taskandnotesapp/ui/tasks/TasksScreen.kt:97 | Toggling a pending task with a unique id lowers the header's pending count by exactly one |
| TasksScreen.WithoutTask | app/src/main/java/com/example/taskandnotesapp/ui/tasks/TasksScreen.kt:350 | Delete keeps the tasks with another id, in order, and loses exactly as many elements as carry the id; with the id absent the list is unchanged |
| TasksScreen.DeleteKeepsIdsUnique | app/src/main/java/com/example/taskandnotesapp/ui/tasks/TasksScreen.kt:350 | Deleting keeps ids unique |
| TasksScreen.AddedTasks | app/src/main/java/com/example/taskandnotesapp/ui/tasks/TasksScreen.kt:365-375 | One task is appended after the unchanged list, with the next id, the screen's user, not completed, created now, and the dialog's fields |
| TasksScreen.AddKeepsIdsUnique | app/src/main/java/com/example/taskandnotesapp/ui/tasks/TasksScreen.kt:365-375 | Adding keeps ids unique while no id is `Int.MAX_VALUE` |
| TasksScreen.IdWrapRepeats | app/src/main/java/com/example/taskandnotesapp/ui/tasks/TasksScreen.kt:366 | After an id of `Int.MAX_VALUE`, two adds give the same id `Int.MIN_VALUE` |
| TasksScreen.EditedTasks | app/src/main/java/com/example/taskandnotesapp/ui/tasks/TasksScreen.kt:386-395 | The selected task gets the new title, description, priority and due date; id, user, completion and creation time stay; other tasks are unchanged |
| TasksScreen.EditKeepsIdsUnique | app/src/main/java/com/example/taskandnotesapp/ui/tasks/TasksScreen.kt:386-395 | Editing keeps ids unique |
| TasksScreen.Screen.constructor | app/src/main/java/com/example/taskandnotesapp/ui/tasks/TasksScreen.kt:63-69 | The screen starts with no tasks, no dialog, filter "All", menu closed, an empty, hidden search and no delete confirmation open |
| TasksScreen.Screen.SelectedChip | app/src/main/java/com/example/taskandnotesapp/ui/tasks/TasksScreen.kt:245-265 | The chip shown as selected is the one whose value is the filter; no chip is selected exactly when the filter is "High" |
| TasksScreen.Screen.ToggleSearchBar | app/src/main/java/com/example/taskandnotesapp/ui/tasks/TasksScreen.kt:117 | The search bar's visibility flips and the shown list does not change |
| TasksScreen.Screen.EditSearch | app/src/main/java/com/example/taskandnotesapp/ui/tasks/TasksScreen.kt:189 | The query becomes the typed text |
| TasksScreen.Screen.ClearSearch | app/src/main/java/com/example/taskandnotesapp/ui/tasks/TasksScreen.kt:199 | The query becomes empty, and under "All" every task is shown |
| TasksScreen.Screen.ToggleMenu | app/src/main/java/com/example/taskandnotesapp/ui/tasks/TasksScreen.kt:130 | The menu's open flag flips |
| TasksScreen.Screen.DismissMenu | app/src/main/java/com/example/taskandnotesapp/ui/tasks/TasksScreen.kt:140 | The menu closes |
| TasksScreen.Screen.ChooseChip | app/src/main/java/com/example/taskandnotesapp/ui/tasks/TasksScreen.kt:245-265 | A chip sets the filter to its value |
| TasksScreen.Screen.ChooseMenuItem | app/src/main/java/com/example/taskandnotesapp/ui/tasks/TasksScreen.kt:142-172 | A menu item sets the filter to its value and closes the menu |
| TasksScreen.Screen.ToggleComplete | app/src/main/java/com/example/taskandnotesapp/ui/tasks/TasksScreen.kt:342-347 | The list becomes the toggled list, unique ids stay unique, and toggling a pending task then lowers the header's pending count by one |
| TasksScreen.Screen.DeleteTask | app/src/main/java/com/example/taskandnotesapp/ui/tasks/TasksScreen.kt:349-351 | The `onDelete` lambda, run on confirmation: the list loses the tasks with that id and unique ids stay unique |
| TasksScreen.Screen.RequestDelete | app/src/main/java/com/example/taskandnotesapp/ui/tasks/TasksScreen.kt:587 | The delete icon opens the confirmation for that task's id and deletes nothing |
| TasksScreen.Screen.ConfirmDelete | app/src/main/java/com/example/taskandnotesapp/ui/tasks/TasksScreen.kt:626-631 | "Delete" removes the pending id's tasks, keeps unique ids unique and closes the confirmation; with none open the list is unchanged |
| TasksScreen.Screen.CancelDelete | app/src/main/java/com/example/taskandnotesapp/ui/tasks/TasksScreen.kt:641-643 | "Cancel" (and likewise the dismiss at line 605) closes the confirmation and leaves the list unchanged |
| TasksScreen.Screen.OpenAddDialog | app/src/main/java/com/example/taskandnotesapp/ui/tasks/TasksScreen.kt:218 | The add dialog opens |
| TasksScreen.Screen.DismissAddDialog | app/src/main/java/com/example/taskandnotesapp/ui/tasks/TasksScreen.kt:363 | The add dialog closes |
| TasksScreen.Screen.SaveNewTask | app/src/main/java/com/example/taskandnotesapp/ui/tasks/TasksScreen.kt:364-377 | The new task is appended, the dialog closes, and ids stay unique while below `Int.MAX_VALUE` |
| TasksScreen.Screen.StartEdit | app/src/main/java/com/example/taskandnotesapp/ui/tasks/TasksScreen.kt:348 | The task is selected for editing |
| TasksScreen.Screen.DismissEditDialog | app/src/main/java/com/example/taskandnotesapp/ui/tasks/TasksScreen.kt:384 | The selection is cleared |
| TasksScreen.Screen.SaveEditedTask | app/src/main/java/com/example/taskandnotesapp/ui/tasks/TasksScreen.kt:385-397 | The selected task is edited, the selection is cleared, and unique ids stay unique |
| TasksScreen.Screen.SubmitAddDialog | app/src/main/java/com/example/taskandnotesapp/ui/tasks/TasksScreen.kt:779-784 | "Save Task" appends a task iff the title is not blank, and otherwise changes nothing |
| TasksScreen.Screen.SubmitEditDialog | app/src/main/java/com/example/taskandnotesapp/ui/tasks/TasksScreen.kt:779-784 | "Save Task" edits the selected task iff the title is not blank, and otherwise changes nothing |
| NoteDialog.UntitledNoteCanBeSaved | app/src/main/java/com/example/taskandnotesapp/ui/notes/NoteDialog.kt:69 | An empty title with non-blank content may be saved |
| NoteDialog.Dialog.constructor | app/src/main/java/com/example/taskandnotesapp/ui/notes/NoteDialog.kt:20-21 | Without a note both fields are empty; with a note they are its title and content |
| NoteDialog.Dialog.CurrentMode | app/src/main/java/com/example/taskandnotesapp/ui/notes/NoteDialog.kt:27 | The dialog is in create mode iff no note was passed in |
| NoteDialog.Dialog.Heading | app/src/main/java/com/example/taskandnotesapp/ui/notes/NoteDialog.kt:27 | The create heading is shown iff the mode is create |
| NoteDialog.Dialog.EditTitle | app/src/main/java/com/example/taskandnotesapp/ui/notes/NoteDialog.kt:38 | The title becomes the typed text |
| NoteDialog.Dialog.EditContent | app/src/main/java/com/example/taskandnotesapp/ui/notes/NoteDialog.kt:52 | The content becomes the typed text |
| NoteDialog.Dialog.ClickSave | app/src/main/java/com/example/taskandnotesapp/ui/notes/NoteDialog.kt:68-73 | Something is forwarded iff the button is enabled (title or content not blank), and it is the current fields unchanged |
| NotesScreen.FilteredNotes | app/src/main/java/com/example/taskandnotesapp/ui/notes/NotesScreen.kt:193-200 | The view is an order-preserving subsequence in which a note appears iff its title or content contains the query, or the query is blank, and its length is the number of matching positions |
| NotesScreen.BlankQueryShowsAll | app/src/main/java/com/example/taskandnotesapp/ui/notes/NotesScreen.kt:194-195 | A blank query shows the whole list |
| NotesScreen.TitleFindsNote | app/src/main/java/com/example/taskandnotesapp/ui/notes/NotesScreen.kt:197 | Searching for a note's title shows that note |
| NotesScreen.GradientFor | app/src/main/java/com/example/taskandnotesapp/ui/notes/NotesScreen.kt:262-270 | Ids 0..5 mod 6 give Purple, Blue, Green, Orange, Pink, Teal; a negative id gives Purple when 6 divides it and Teal otherwise. The list view at lines 292-300 uses the same rule |
| NotesScreen.GradientsCycle | app/src/main/java/com/example/taskandnotesapp/ui/notes/NotesScreen.kt:262-270 | For ids 0 .. Int.MAX_VALUE − 6, colours repeat every six ids and consecutive ids differ in colour |
| NotesScreen.NextViewMode | app/src/main/java/com/example/taskandnotesapp/ui/notes/NotesScreen.kt:123 | The view button gives "grid" or "list", and a different mode from a valid one |
| NotesScreen.ViewModeTwiceRestores | app/src/main/java/com/example/taskandnotesapp/ui/notes/NotesScreen.kt:123 | Two presses restore the mode |
| NotesScreen.NextNoteId | app/src/main/java/com/example/taskandnotesapp/ui/notes/NotesScreen.kt:323 | The new id is 1 for an empty list and max + 1 otherwise, above every existing id; if some id is `Int.MAX_VALUE` it wraps to `Int.MIN_VALUE` |
| NotesScreen.WithoutNote | app/src/main/java/com/example/taskandnotesapp/ui/notes/NotesScreen.kt:277 | Delete keeps the notes with another id, in order, and loses exactly as many elements as carry the id; with the id absent the list is unchanged. Line 307 is the same |
| NotesScreen.DeleteKeepsIdsUnique | app/src/main/java/com/example/taskandnotesapp/ui/notes/NotesScreen.kt:277 | Deleting keeps ids unique |
| NotesScreen.AddedNotes | app/src/main/java/com/example/taskandnotesapp/ui/notes/NotesScreen.kt:322-330 | One note is appended after the unchanged list, with the next id, the screen's user, the dialog's fields and the two clock readings |
| NotesScreen.AddKeepsIdsUnique | app/src/main/java/com/example/taskandnotesapp/ui/notes/NotesScreen.kt:322-330 | Adding keeps ids unique while no id is `Int.MAX_VALUE` |
| NotesScreen.EditedNotes | app/src/main/java/com/example/taskandnotesapp/ui/notes/NotesScreen.kt:341-349 | The selected note gets the new title and content and `updatedAt = now`; id, user and creation time stay; other notes are unchanged |
| NotesScreen.EditStampsAtMostOne | app/src/main/java/com/example/taskandnotesapp/ui/notes/NotesScreen.kt:341-346 | With unique ids at most one note matches the selected id, so the edit reads the clock at most once |
| NotesScreen.EditKeepsIdsUnique | app/src/main/java/com/example/taskandnotesapp/ui/notes/NotesScreen.kt:341-349 | Editing keeps ids unique |
| NotesScreen.Screen.constructor | app/src/main/java/com/example/taskandnotesapp/ui/notes/NotesScreen.kt:57-62 | The screen starts with no notes, no dialog, no selection, an empty hidden search, the grid view and no delete confirmation open |
| NotesScreen.Screen.HeaderCount | app/src/main/java/com/example/taskandnotesapp/ui/notes/NotesScreen.kt:90 | The header counts the whole list, which is never fewer than the notes shown |
| NotesScreen.Screen.ToggleSearchBar | app/src/main/java/com/example/taskandnotesapp/ui/notes/NotesScreen.kt:110 | The search bar's visibility flips and the shown list does not change |
| NotesScreen.Screen.EditSearch | app/src/main/java/com/example/taskandnotesapp/ui/notes/NotesScreen.kt:149 | The query becomes the typed text and the header count does not change |
| NotesScreen.Screen.ClearSearch | app/src/main/java/com/example/taskandnotesapp/ui/notes/NotesScreen.kt:159 | The query becomes empty and every note is shown |
| NotesScreen.Screen.ToggleViewMode | app/src/main/java/com/example/taskandnotesapp/ui/notes/NotesScreen.kt:123 | The mode switches to the other of "grid" and "list", and a second press restores it |
| NotesScreen.Screen.DeleteNote | app/src/main/java/com/example/taskandnotesapp/ui/notes/NotesScreen.kt:276-278 | The `onDelete` lambda, run on confirmation: the list loses the notes with that id and unique ids stay unique |
| NotesScreen.Screen.RequestDelete | app/src/main/java/com/example/taskandnotesapp/ui/notes/NotesScreen.kt:448 | The delete icon opens the confirmation for that note's id and deletes nothing |
| NotesScreen.Screen.ConfirmDelete | app/src/main/java/com/example/taskandnotesapp/ui/notes/NotesScreen.kt:488-493 | "Delete" removes the pending id's notes, keeps unique ids unique and closes the confirmation; with none open the list is unchanged |
| NotesScreen.Screen.CancelDelete | app/src/main/java/com/example/taskandnotesapp/ui/notes/NotesScreen.kt:503-505 | "Cancel" (and likewise the dismiss at line 467) closes the confirmation and leaves the list unchanged |
| NotesScreen.Screen.OpenAddDialog | app/src/main/java/com/example/taskandnotesapp/ui/notes/NotesScreen.kt:178 | The add dialog opens |
| NotesScreen.Screen.DismissAddDialog | app/src/main/java/com/example/taskandnotesapp/ui/notes/NotesScreen.kt:320 | The add dialog closes |
| NotesScreen.Screen.SaveNewNote | app/src/main/java/com/example/taskandnotesapp/ui/notes/NotesScreen.kt:321-332 | The new note is appended, the dialog closes, and ids stay unique while below `Int.MAX_VALUE` |
| NotesScreen.Screen.StartEdit | app/src/main/java/com/example/taskandnotesapp/ui/notes/NotesScreen.kt:275 | The note is selected for editing |
| NotesScreen.Screen.DismissEditDialog | app/src/main/java/com/example/taskandnotesapp/ui/notes/NotesScreen.kt:339 | The selection is cleared |
| NotesScreen.Screen.SaveEditedNote | app/src/main/java/com/example/taskandnotesapp/ui/notes/NotesScreen.kt:340-351 | The selected note is edited, the selection is cleared, and unique ids stay unique |
| NotesScreen.Screen.SubmitAddDialog | app/src/main/java/com/example/taskandnotesapp/ui/notes/NotesScreen.kt:570-575 | "Save Note" appends a note iff the title or content is not blank, and otherwise changes nothing |
| NotesScreen.Screen.SubmitEditDialog | app/src/main/java/com/example/taskandnotesapp/ui/notes/NotesScreen.kt:570-575 | "Save Note" edits the selected note iff the title or content is not blank, and otherwise changes nothing |

## Left out

- Compose rendering: layout, colours, icons, animations, the empty-list placeholder and the cards' appearance. The cards' one decision, the delete confirmation, is modelled by `RequestDelete`, `ConfirmDelete` and `CancelDelete`. `Gradient` names the six colour pairs without their ARGB values.
- `formatDate`: it delegates to `SimpleDateFormat` with the device's locale and time zone.
- Room persistence (the DAOs, entities and `AppDatabase`), the Firebase `AuthRepository`, the login and register screens, `SessionManager`, `AppActions` and `MainActivity` navigation. These are I/O, library calls or wiring around the logic modelled here.
- The login and register forms: they check only that the fields are not blank ("Please fill all fields") and never call `ValidationUtils`. Their checks are entangled with the database and Firebase calls around them.
- The real clock: every clock reading is a parameter.
- `ContainsIgnoreCase`: it folds case for ASCII letters only. Kotlin's `contains(ignoreCase = true)` also folds non-ASCII letters through `uppercaseChar`/`lowercaseChar`, and the model does not.
- `Utf16Length` and `IsBlank`: Dafny strings are sequences of Unicode scalar values, so a string holding a lone surrogate cannot be represented.
- The repository declares `Task`, `Note`, `TaskColors`, `NoteColors`, `EnhancedTaskDialog`, `PriorityOption`, `NoteDialog` and `formatDate` twice (in the screen files and in their own files). The copies behave identically and each is modelled once.
- `RequestDelete`, `ConfirmDelete`, `CancelDelete`: each card keeps its own `showDeleteDialog` flag, while the model keeps a single `pendingDelete` on the screen. The confirmation dialog is modal, so at most one is open at a time.
- `RemSix`: it models Kotlin's `%` only for the divisor 6, the only one the core uses.
- `NextTaskId`, `NextNoteId`, `AddKeepsIdsUnique`: id uniqueness after an add is proved only while no id equals `Int.MAX_VALUE`. At that point the id wraps to `Int.MIN_VALUE` and a second add repeats it (`IdWrapRepeats`). An in-memory list that starts empty reaches that id only after 2^31 − 1 additions, since the n-th addition gets id n.
- `TasksScreen.Screen.SaveEditedTask`, `NotesScreen.Screen.SaveEditedNote`: the source reads `selectedTask?.id` / `selectedNote?.id` when the save runs, and the model does the same. An edit with nothing selected therefore changes no element.
- `EditedNotes`: it gives every matching note the same clock reading `now`. The source calls `System.currentTimeMillis()` inside the `map` lambda, once per matching note. The two agree whenever the ids are unique, because at most one note then matches (`EditStampsAtMostOne`). They can differ only after the id wrap-around shown by `IdWrapRepeats`, when two notes share the selected id.
