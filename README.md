# Task list and notes screens — a verified model

This project models the logic of a small single-user React to-do application: the task list
screen (`Home`), the stand-alone add-task screen (`AddTask`) and the notes screen (`Notes`).

The task list keeps an insertion-ordered list of task records. Each record has an id, a title,
a description, a priority (low, medium or high), a status (Pending or Completed), a creation
time and an optional completion time. The screen supports five mutations:

- add a task from the task form,
- update the title, description and priority of the task being edited,
- toggle one task's status,
- delete one task,
- clear all completed tasks.

Each mutation builds a new list and replaces the `tasks` state. An effect then writes the whole
list to `localStorage` under `"tasks"`. What the screen shows is a projection: a filter by status
(all, pending, completed), then a stable sort by newest, oldest or priority rank (high=3,
medium=2, low=1). Two counters give the numbers of pending and completed tasks.

The add-task screen validates its form:

- a blank title is refused ("Title is required");
- a title longer than 100 UTF-16 code units before trimming is refused ("Title must be less
  than 100 characters", although exactly 100 passes);
- a description longer than 500 code units is refused.

A valid form appends a task with the trimmed title and description to the stored list. The notes
screen appends a note holding the text exactly as typed, unless that text is blank. It then
stores the list under `"notes"` and clears the input.

Modules, one per source file plus the primitives they rely on:

- `Text`: `String.prototype.trim`, which strips the WhiteSpace and LineTerminator code points of
  sections 12.2 and 12.3 of ECMA-262. Also a string's `length` in UTF-16 code units.
- `Seqs`: `Array.prototype.filter`, characterised as an order-preserving selection. Also
  `Array.prototype.sort` with a consistent comparator: a stable insertion sort by an integer key.
  It is proved sorted, a permutation and stable, and proved to be the only result a stable sort
  (section 23.1.3.30 of ECMA-262, 2023 edition) may give.
- `Storage`: `localStorage` seen through `JSON.stringify`/`JSON.parse`. Each key holds a whole
  list, and every write replaces it.
- `Tasks`: the task record and the invariant "a completion time is recorded exactly while the
  task is completed".
- `Home`, `AddTask`, `Notes`: the three screens. Each has pure functions for what the handlers
  compute, and a class whose fields are the component's state. Its methods assign those
  functions' results, as `setTasks(...)`, `setNotes(...)` and `setErrors(...)` do.

The clock (`Date.now()`, `new Date()`) is not modelled. The current time and the fresh id are
method parameters, and timestamps are integer milliseconds instead of ISO strings.

Notable behaviours of the code:

- The task list's own form only refuses a blank title. The 100 and 500 limits exist only on the
  add-task screen, which is not routed (`src/App.jsx:3`, `src/App.jsx:20`).
- A note is only `{id, text}`: the text as typed and the creation time as its id.
- Toggling turns every non-Pending status into Pending.
- A new task gets no `completedAt` field at all (modelled as `None`).
- Malformed stored data is not recovered from: `JSON.parse` would throw.

## Model

| member | source | states |
|---|---|---|
| `Storage.KeyValueStore.GetItem` | src/screens/Home.jsx:160 | a read finds a list exactly when the key is stored, and that list is the stored one |
| `Storage.KeyValueStore.SetItem` | src/screens/Home.jsx:165 | a write replaces the list under its key and leaves every other key as it was |
| `Text.Trim` | src/screens/Home.jsx:72 | the result is the infix of the input left after removing the maximal whitespace prefix and suffix; it is empty exactly when the input is all whitespace, which is when `!title.trim()` holds |
| `Text.TrimIdempotent` | src/screens/Home.jsx:75 | trimming an already trimmed string changes nothing |
| `Text.Utf16Length` | src/screens/AddTask.jsx:17 | a string's `length` counts one or two code units per character, so it lies between the character count and twice it |
| `Text.Utf16LengthBasic` | src/screens/AddTask.jsx:17 | without supplementary characters, `length` is the character count |
| `Text.Utf16LengthSupplementary` | src/screens/AddTask.jsx:17 | a supplementary character counts two code units in `length` |
| `Text.TrimShortens` | src/screens/AddTask.jsx:38-39 | trimming never increases the length in code units |
| `Seqs.Filter` | src/screens/Home.jsx:204 | `Array.prototype.filter` is never longer than its input; `Seqs.FilterPositions` and `Seqs.FilterMembers` state exactly which elements it keeps and in what order |
| `Seqs.FilterMembers` | src/screens/Home.jsx:204 | every kept element passes the predicate and comes from the input; every passing input element is kept |
| `Seqs.FilterPositions` | src/screens/Home.jsx:203-217 | the filtered list is the input read at exactly the passing positions, in increasing order |
| `Seqs.FilterAll` | src/screens/Home.jsx:216 | when every element passes, filtering is the identity |
| `Seqs.FilterIdempotent` | src/screens/Home.jsx:209 | filtering twice by the same predicate equals filtering once |
| `Seqs.FilterComplement` | src/screens/Home.jsx:229-230 | the lengths of the filters by a predicate and by its negation add up to the input length |
| `Seqs.SortBy` | src/screens/Home.jsx:219 | the sorted list is a permutation of the input, ascending by key |
| `Seqs.SortByStable` | src/screens/Home.jsx:219 | the elements sharing a key keep their input order |
| `Seqs.SortedStableUnique` | src/screens/Home.jsx:219 | two sorted lists holding each key's elements in the same order are equal |
| `Seqs.StableSortUnique` | src/screens/Home.jsx:219-227 | any sorted, stable arrangement of the input is exactly `SortBy`'s result |
| `Home.SubmitForm` | src/screens/Home.jsx:70-80 | no submission exactly for a blank title; otherwise the trimmed, non-empty title, the trimmed description and the chosen priority, plus the edited task's status when editing (Pending otherwise), and the edited task's id only when it is non-empty (an empty id gives no id, so the update matches no task and the list is unchanged) |
| `Home.AppendTask` | src/screens/Home.jsx:168-177 | exactly one task is added at the end, with the form's fields, the fresh id, the current time, status Pending and no completion time; earlier tasks are unchanged |
| `Home.UpdateMatching` | src/screens/Home.jsx:179-190 | the length is kept; id, status, creation and completion times never change; matching tasks take the new title, description and priority; all other tasks are unchanged |
| `Home.Toggled` | src/screens/Home.jsx:194-198 | a Pending task becomes Completed now; any other becomes Pending with no completion time; identity, text, priority and creation time are kept |
| `Home.ToggleMatching` | src/screens/Home.jsx:192-201 | the length is kept, non-matching tasks are unchanged, and every matching task changes status and is exactly that task toggled at the given time |
| `Home.RemoveTask` | src/screens/Home.jsx:203-206 | no task with the id remains, and the result is exactly the other tasks in original order |
| `Home.RemoveCompleted` | src/screens/Home.jsx:208-211 | no completed task remains, and the result is exactly the non-completed tasks in original order |
| `Home.UpdateUnknownId` | src/screens/Home.jsx:180-187 | updating with an id no task has leaves the list equal |
| `Home.ToggleTwice` | src/screens/Home.jsx:192-201 | toggling twice restores every task's status, and for a consistent task whether it has a completion time |
| `Home.MutationsKeepConsistent` | src/screens/Home.jsx:168-211 | every mutation keeps "completion time recorded exactly while completed" |
| `Home.RemoveTaskAbsent` | src/screens/Home.jsx:203-206 | deleting an absent id leaves the list equal |
| `Home.RemoveTaskIdempotent` | src/screens/Home.jsx:203-206 | deleting the same id twice equals deleting it once |
| `Home.RemoveCompletedIdempotent` | src/screens/Home.jsx:208-211 | clearing completed tasks twice equals clearing once |
| `Home.FilterTasks` | src/screens/Home.jsx:213-217 | "all" is the identity; "pending" and "completed" keep exactly the tasks of that status, in list order |
| `Home.CountsMatchViews` | src/screens/Home.jsx:229-230 | the pending and completed views have the counters' lengths, and the counters add up to the number of tasks |
| `Home.SortTasks` | src/screens/Home.jsx:219-227 | a permutation that the comparator accepts for every pair: creation time non-increasing for "newest", non-decreasing for "oldest", rank non-increasing for "priority" |
| `Home.SortTasksStable` | src/screens/Home.jsx:219-227 | tasks the comparator ties keep their filtered order |
| `Home.PrioritySortStable` | src/screens/Home.jsx:222-225 | sorting by priority keeps each priority's tasks in filtered order |
| `Home.SortTasksUnique` | src/screens/Home.jsx:219-227 | any arrangement the comparator accepts that keeps tied tasks in input order is `SortTasks`'s result, so the model agrees with every conforming stable sort |
| `Home.PendingCount` | src/screens/Home.jsx:229 | the pending count is at most the number of tasks, and zero exactly when no task is Pending |
| `Home.CompletedCount` | src/screens/Home.jsx:230 | the completed count is at most the number of tasks, and zero exactly when no task is Completed |
| `Home.Rank` | src/screens/Home.jsx:223 | each priority ranks between 1 and 3 |
| `Home.RankOrder` | src/screens/Home.jsx:223 | high ranks above medium, and medium above low |
| `Home.Compare` | src/screens/Home.jsx:219-226 | the comparator is the difference of the order's keys: negative exactly when the first task is newer, older, or of higher priority, for newest, oldest and priority order |
| `Home.Visible` | src/screens/Home.jsx:213-227 | the rendered list holds exactly the tasks the filter keeps (all tasks under "all"), and the comparator never puts a later task before an earlier one |
| `Home.HomeScreen.constructor` | src/screens/Home.jsx:159-166 | mounting loads the stored list (or `[]` when absent), and the effect writes it back |
| `Home.HomeScreen.SetTasks` | src/screens/Home.jsx:164-166 | the new list becomes the state and is written to the store under "tasks" |
| `Home.HomeScreen.AddTask` | src/screens/Home.jsx:168-177 | the state becomes `AppendTask` of the old state and is persisted |
| `Home.HomeScreen.UpdateTask` | src/screens/Home.jsx:179-190 | the state becomes `UpdateMatching` of the old state and is persisted |
| `Home.HomeScreen.ToggleStatus` | src/screens/Home.jsx:192-201 | the state becomes `ToggleMatching` of the old state and is persisted |
| `Home.HomeScreen.DeleteTask` | src/screens/Home.jsx:203-206 | the state becomes `RemoveTask` of the old state and is persisted |
| `Home.HomeScreen.ClearCompleted` | src/screens/Home.jsx:208-211 | the state becomes `RemoveCompleted` of the old state and is persisted |
| `Home.HomeScreen.Submit` | src/screens/Home.jsx:337-344 | a blank title changes neither the list nor the store; otherwise the form's data is added, or applied to the edited task, and the store's task list is replaced by the new list with every other key kept |
| `Home.HomeScreen.SetFilter` | src/screens/Home.jsx:262 | the filter select sets the filter |
| `Home.HomeScreen.SetSortBy` | src/screens/Home.jsx:272 | the sort select sets the order |
| `AddTask.Validate` | src/screens/AddTask.jsx:12-23 | a title error exactly when the title is blank or longer than 100 code units before trimming, with the source's two messages; a description error exactly when it is longer than 500 |
| `AddTask.IsValid` | src/screens/AddTask.jsx:26 | the form is valid exactly when neither the title nor the description has an error |
| `AddTask.ValidIff` | src/screens/AddTask.jsx:26 | the form is valid exactly when the title is non-blank and within 100 and the description within 500 |
| `AddTask.TitleLengthBoundary` | src/screens/AddTask.jsx:17-18 | a 100-unit title is accepted and a 101-unit title is refused |
| `AddTask.DescriptionLengthBoundary` | src/screens/AddTask.jsx:21-22 | a 500-unit description is accepted and a 501-unit one is refused |
| `AddTask.TitleLengthUntrimmed` | src/screens/AddTask.jsx:17 | the limit counts surrounding spaces: "a" and 100 spaces is refused though it trims to one unit |
| `AddTask.BothErrors` | src/screens/AddTask.jsx:15-23 | a blank title and an over-long description are reported together |
| `AddTask.NewTask` | src/screens/AddTask.jsx:36-43 | the new task has the trimmed title and description, the chosen priority, status Pending, the current time and no completion time |
| `AddTask.ValidFormTaskWithinLimits` | src/screens/AddTask.jsx:15-43 | a task built from a valid form has a non-empty title within 100 units, a description within 500, and is consistent |
| `AddTask.Appended` | src/screens/AddTask.jsx:45-46 | exactly one task is added after the stored ones, which are unchanged; an absent list counts as empty |
| `AddTask.AddTaskScreen.constructor` | src/screens/AddTask.jsx:5-9 | the form starts empty with priority medium, no errors and not submitting |
| `AddTask.AddTaskScreen.Edit` | src/screens/AddTask.jsx:86-129 | the three inputs' `onChange` handlers (lines 86, 104 and 129) set title, description and priority |
| `AddTask.AddTaskScreen.ValidateForm` | src/screens/AddTask.jsx:12-27 | the errors state becomes `Validate` of the fields, and the result says whether it is empty |
| `AddTask.AddTaskScreen.HandleSubmit` | src/screens/AddTask.jsx:29-48 | an invalid form leaves the store and the submitting flag unchanged; a valid one sets the flag and stores the old list with the new task appended |
| `Notes.AddedNotes` | src/screens/Notes.jsx:13-14 | blank text leaves the list equal; otherwise exactly one note is appended, with the untrimmed text and the current time, and earlier notes are unchanged |
| `Notes.AddedNotesNonBlank` | src/screens/Notes.jsx:13-14 | a list of non-blank notes stays one |
| `Notes.NoteTextNotTrimmed` | src/screens/Notes.jsx:14 | " hi " is stored as typed, which differs from its trimmed form |
| `Notes.NotesScreen.constructor` | src/screens/Notes.jsx:4-10 | mounting loads the stored list, or `[]` when absent, with an empty input |
| `Notes.NotesScreen.SetText` | src/screens/Notes.jsx:28 | the input sets the text |
| `Notes.NotesScreen.AddNote` | src/screens/Notes.jsx:12-18 | blank text changes nothing (notes, store, input); otherwise the list becomes `AddedNotes`, the store holds it under "notes" and the input is reset to "" |

## Left out

- Presentation: `src/components/TaskCard.jsx`, the inline `TaskCard` in `src/screens/Home.jsx`, the empty-state messages, and the character counter of the add-task screen. They only render.
- Routing (`src/App.jsx`) and styling (`tailwind.config.js`): there is no logic in them.
- JSON encoding: the store holds decoded lists. A stored value that is not valid JSON would make `JSON.parse` throw; no code recovers from that, and the model does not represent it. The same goes for a stored empty string, which `if (saved)` treats as absent, and for a stored `"null"`, which the add-task screen reads as `[]`.
- The clock: `Date.now()` and `new Date().toISOString()` are parameters (the id and the time). ISO strings are integer milliseconds. Nothing makes ids unique; every operation acts on all tasks with a matching id, as `map`/`filter` do.
- React scheduling: the model takes the state after the mount effects have settled. In between, the write-back effect first stores `[]` and then, one render later, the loaded list. Also left out: StrictMode double effects, the `setTimeout` that clears `isSubmitting` and navigates, `window.confirm` in `handleCancel`, and the `showForm`/`editingTask` modal toggles (the edited task is a parameter of `Submit`).
- AddTask.AddTaskScreen.HandleSubmit: the submit button is disabled while `isSubmitting` holds (`src/screens/AddTask.jsx:148`), so no second submission reaches the handler during the delay. The model does not represent the button, and it accepts a second call to `HandleSubmit` while `isSubmitting` is true.
- Values outside the select options: statuses other than Pending/Completed, priorities other than low/medium/high (the comparator would give NaN), and other filter or sort values (the comparator returns 0 and the filter keeps everything).
- Unpaired surrogates: strings are sequences of Unicode scalar values, so a JavaScript string holding a lone surrogate code unit (one unit of `length`, not whitespace to `trim`) cannot be represented.
- The "Clear Completed" button is shown only when there is a completed task. Clearing with none changes nothing anyway.
- Home.ToggleTwice: restores whether a completion time is present only for tasks that were consistent beforehand. A task loaded from storage as Completed without `completedAt` comes back from two toggles with one, so the unconditional form of the property does not hold.
