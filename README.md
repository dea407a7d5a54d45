# Task, counter and note stores of timetask-harmony, in Dafny

timetask-harmony is a personal productivity web app. It has a task list with due dates, alarms and recurring tasks, tap counters with a history chart, and notes made of sections. This project models the logic that the app's state managers and views actually contain, and proves properties of it.

- **Task store** (`TaskContext`): the task list with keyed add, update, delete and completion toggle. It also covers the `today`/`upcoming`/`all` view with hiding of completed tasks, the rule that decides which alarms ring, and the preference merge.
- **Counter store** (`CounterContext`): counters that are tapped, reset, renamed and deleted. It also covers the chart data that keeps a period's taps and sums them per display date.
- **Note store** (`NoteContext`): notes holding sections, with keyed add, update and delete at both levels.
- **Views over those stores**:
  - the list page, which adds today's recurring tasks to the `today` view;
  - the completed and uncompleted tables;
  - the 10-day completion report of recurring tasks;
  - the time and frequency display of a task;
  - the task editor's reset, time input, validation and alarm normalisation;
  - the notes page's active-note selection.

Each state manager is a class whose fields hold the state and whose methods replace it. Every new state is tied in the method's `ensures` to a function of the old state, and the lemmas state what those functions promise.

Modelling choices:
- Calendar dates are day numbers and instants are milliseconds.
- The clock is a parameter (`today`, `now`, `currentTime` in minutes of the day).
- Fresh ids are parameters, with the precondition that no element already has that id.
- An absent optional text is `""`, since the code only ever tests those fields for truthiness.

The app has no recurrence engine: `toggleTaskCompletion` only flips `completed`, and the task record carries no recurrence specification beyond a flag, a frequency label and a missed count that nothing updates. The model follows the code.

## Model

| member | source | states |
|---|---|---|
| TaskContext.NewTask | src/contexts/TaskContext.tsx:138-143 | the new task carries the supplied data, the fresh id and the creation instant |
| TaskContext.TaskStore.constructor | src/contexts/TaskContext.tsx:41-48 | preferences are the saved ones or the defaults (today view, completed shown, notifications on, night mode off); the active filter starts as the default view |
| TaskContext.TaskStore.AddTask | src/contexts/TaskContext.tsx:138-145 | exactly one task is appended, with the fresh id at the end; earlier tasks and the preferences are unchanged |
| TaskContext.Updated | src/contexts/TaskContext.tsx:153-159 | length and order kept; the tasks with the id take the merged fields; every other task is unchanged |
| TaskContext.TaskStore.UpdateTask | src/contexts/TaskContext.tsx:153-159 | the new list is `Updated` of the old one; the preferences and the filter are unchanged |
| TaskContext.UpdateIdempotent | src/contexts/TaskContext.tsx:153-159 | applying the same update twice equals applying it once |
| TaskContext.UpdateNothing | src/contexts/TaskContext.tsx:153-159 | an update with no fields leaves the list unchanged |
| TaskTypes.MergeIdempotent | src/contexts/TaskContext.tsx:156 | merging the same partial task twice equals merging once |
| TaskTypes.MergeNoChanges | src/contexts/TaskContext.tsx:156 | merging an empty partial task gives the task back |
| TaskContext.Toggled | src/contexts/TaskContext.tsx:174-181 | only `completed` of the tasks with the id is flipped; length, order and every other task are unchanged |
| TaskContext.TaskStore.ToggleTaskCompletion | src/contexts/TaskContext.tsx:174-181 | the new list is `Toggled` of the old one |
| TaskContext.ToggleTwice | src/contexts/TaskContext.tsx:174-181 | toggling twice restores the list |
| Common.Filter | src/contexts/TaskContext.tsx:165 | `Array.prototype.filter`: an order-preserving subsequence holding each element that satisfies the predicate exactly as often as the input does, and no other |
| TaskContext.Removed | src/contexts/TaskContext.tsx:165 | the result is an order-preserving subsequence holding exactly the tasks without that id, each as often as in the list |
| TaskContext.RemoveUnknown | src/contexts/TaskContext.tsx:161-165 | with an id no task has, deletion changes nothing |
| TaskContext.TaskStore.DeleteTask | src/contexts/TaskContext.tsx:161-165 | an unknown id returns early with the list unchanged; otherwise the list is `Removed` of the old one |
| TaskContext.AddThenRemove | src/contexts/TaskContext.tsx:138-165 | deleting a task just added with a fresh id restores the earlier list |
| TaskContext.OperationsKeepIdsDistinct | src/contexts/TaskContext.tsx:138-181 | distinct ids stay distinct under add (fresh id), update (id not overwritten), toggle and delete |
| TaskContext.Visible | src/contexts/TaskContext.tsx:51-73 | `filteredTasks` is an order-preserving subsequence of the tasks holding each shown task as often as the list does, with no completed task while completed tasks are hidden |
| TaskContext.TodayViewExact | src/contexts/TaskContext.tsx:56-62 | the today view holds exactly the unhidden tasks due today |
| TaskContext.UpcomingViewExact | src/contexts/TaskContext.tsx:63-70 | the upcoming view holds exactly the unhidden tasks with no due date or a later one, and shares no task with the today view |
| TaskContext.AllViewKeepsUnhidden | src/contexts/TaskContext.tsx:51-73 | the all view is the whole list, or its uncompleted tasks while completed tasks are hidden |
| TaskContext.TaskStore.SetActiveFilter | src/contexts/TaskContext.tsx:46-48 | the filter becomes the given view; tasks and preferences are unchanged |
| TaskContext.MergePreferencesSpec | src/contexts/TaskContext.tsx:194-195 | supplied fields are overwritten and the others kept; merging again changes nothing |
| TaskContext.TaskStore.UpdatePreferences | src/contexts/TaskContext.tsx:194-200 | the preferences are merged; a supplied default view also becomes the active filter, otherwise the filter is kept |
| TaskContext.ClockMinutesOfClockTime | src/contexts/TaskContext.tsx:101-102 | for an "HH:MM" time the minute of day read is HH*60+MM |
| TaskContext.RingsOnClockTime | src/contexts/TaskContext.tsx:94-105 | with an "HH:MM" due time a task rings iff its alarm is set, it is open, due today, and the clock is within one minute of HH*60+MM |
| TaskContext.RingingWindow | src/contexts/TaskContext.tsx:105 | two minutes at which the same task rings are at most two apart |
| TaskContext.TaskStore.CheckAlarms | src/contexts/TaskContext.tsx:87-105 | nothing rings with notifications disabled; otherwise exactly the ringing tasks, in list order |
| CounterContext.NewCounter | src/contexts/CounterContext.tsx:37-43 | a new counter has the given name and id, count 0 and an empty history |
| CounterContext.CounterStore.constructor | src/contexts/CounterContext.tsx:20-29 | the store starts with the saved counters in their order, a missing history replaced by an empty one and every other field kept |
| CounterContext.CounterStore.AddCounter | src/contexts/CounterContext.tsx:36-45 | exactly one counter is appended at the end; earlier counters are unchanged |
| CounterContext.Tapped | src/contexts/CounterContext.tsx:74-84 | the count grows by 1 and the history by one entry of count 1 at the end, the earlier entries unchanged |
| CounterContext.Incremented | src/contexts/CounterContext.tsx:66-87 | only the counters with the id are tapped; every other counter is unchanged |
| CounterContext.CounterStore.IncrementCount | src/contexts/CounterContext.tsx:66-87 | the new list is `Incremented` of the old one |
| CounterContext.Reset | src/contexts/CounterContext.tsx:89-102 | the counters with the id get count 0; every history is kept; other counters are unchanged |
| CounterContext.CounterStore.ResetCount | src/contexts/CounterContext.tsx:89-102 | the new list is `Reset` of the old one |
| CounterContext.Renamed | src/contexts/CounterContext.tsx:112-120 | only the name of the counters with the id changes |
| CounterContext.CounterStore.UpdateCounterName | src/contexts/CounterContext.tsx:112-120 | the new list is `Renamed` of the old one |
| CounterContext.Removed | src/contexts/CounterContext.tsx:57 | an order-preserving subsequence holding exactly the counters without that id, each as often as in the list |
| CounterContext.RemoveUnknown | src/contexts/CounterContext.tsx:53-57 | with an unknown id, deletion changes nothing |
| CounterContext.CounterStore.DeleteCounter | src/contexts/CounterContext.tsx:53-57 | an unknown id returns early with the list unchanged; otherwise the list is `Removed` of the old one |
| CounterContext.AddThenRemove | src/contexts/CounterContext.tsx:36-57 | deleting a counter just added with a fresh id restores the earlier list |
| CounterContext.OperationsKeepCountWithinHistory | src/contexts/CounterContext.tsx:36-120 | a count between 0 and its history's total holds for new counters and is kept by increment, reset, rename and delete |
| CounterContext.InPeriod | src/contexts/CounterContext.tsx:133-152 | the kept entries are exactly those at or after the cutoff, in order, each as often as in the history |
| CounterContext.AddToBucketDates | src/contexts/CounterContext.tsx:159-163 | one accumulation step adds the entry's date to the set of dates |
| CounterContext.AddToBucketSum | src/contexts/CounterContext.tsx:159-163 | one accumulation step adds the entry's count to the total |
| CounterContext.AddToBucketCount | src/contexts/CounterContext.tsx:159-163 | one accumulation step adds the count under its date and leaves every other date's count alone |
| CounterContext.AddToBucketDistinct | src/contexts/CounterContext.tsx:159-163 | one accumulation step keeps the dates distinct |
| CounterContext.GroupedSpec | src/contexts/CounterContext.tsx:155-171 | the rows have distinct dates, exactly the dates of the entries, each with the summed counts of its date, and all together the entries' total |
| CounterContext.CounterStore.GetCounterHistory | src/contexts/CounterContext.tsx:123-172 | [] for an unknown counter or no history; otherwise the grouping of the entries at or after the period's cutoff, under the period's date format |
| NoteContext.NewNote | src/contexts/NoteContext.tsx:36-42 | a new note has the given title and id, empty content and no sections |
| NoteContext.NoteStore.constructor | src/contexts/NoteContext.tsx:20-28 | the store starts with the saved notes |
| NoteContext.NoteStore.AddNote | src/contexts/NoteContext.tsx:35-52 | exactly one note is appended and its id is returned |
| NoteContext.NoteUpdated | src/contexts/NoteContext.tsx:54-60 | only the notes with the id take the merged fields; length and order are kept |
| NoteContext.NoteStore.UpdateNote | src/contexts/NoteContext.tsx:54-60 | the new list is `NoteUpdated` of the old one |
| NoteContext.NoteRemoved | src/contexts/NoteContext.tsx:66 | an order-preserving subsequence holding exactly the notes without that id, each as often as in the list |
| NoteContext.RemoveUnknownNote | src/contexts/NoteContext.tsx:62-66 | with an unknown id, deletion changes nothing |
| NoteContext.NoteStore.DeleteNote | src/contexts/NoteContext.tsx:62-73 | an unknown id returns early with the list unchanged; otherwise the list is `NoteRemoved` of the old one |
| NoteContext.AddThenRemoveNote | src/contexts/NoteContext.tsx:35-66 | deleting a note just added with a fresh id restores the earlier list |
| NoteContext.SectionAdded | src/contexts/NoteContext.tsx:82-88 | the section goes at the end of the matching note's sections; other notes are unchanged; with an unknown note id nothing changes |
| NoteContext.NoteStore.AddNoteSection | src/contexts/NoteContext.tsx:75-91 | the new list is `SectionAdded` with an empty-content section; its id is returned even when no note matched |
| NoteContext.SectionsUpdated | src/contexts/NoteContext.tsx:99-101 | only the sections with the id take the merged fields; section count and order are kept |
| NoteContext.SectionUpdated | src/contexts/NoteContext.tsx:93-105 | only the matching note's sections change, as `SectionsUpdated`; other notes are unchanged |
| NoteContext.NoteStore.UpdateNoteSection | src/contexts/NoteContext.tsx:93-105 | the new list is `SectionUpdated` of the old one |
| NoteContext.UpdateSectionIdempotent | src/contexts/NoteContext.tsx:93-105 | updating a section twice with the same fields equals updating it once, for every patch, including one that renames the section |
| NoteContext.SectionsRemoved | src/contexts/NoteContext.tsx:113 | an order-preserving subsequence holding exactly the sections without that id, each as often as in the note |
| NoteContext.SectionRemoved | src/contexts/NoteContext.tsx:107-117 | the number of notes is kept; only the matching note loses the matching sections |
| NoteContext.NoteStore.DeleteNoteSection | src/contexts/NoteContext.tsx:107-117 | the new list is `SectionRemoved` of the old one |
| NoteContext.AddThenRemoveSection | src/contexts/NoteContext.tsx:75-117 | deleting a section just added with a fresh id restores the earlier notes |
| NoteContext.NoteOperationsKeepIdsDistinct | src/contexts/NoteContext.tsx:35-66 | note ids stay distinct under add (fresh id), update (id not overwritten) and delete |
| NoteContext.SectionAddKeepsIdsDistinct | src/contexts/NoteContext.tsx:75-91 | adding a section with a fresh id keeps section ids distinct in every note |
| NoteContext.SectionUpdateKeepsIdsDistinct | src/contexts/NoteContext.tsx:93-105 | updating a section without overwriting its id keeps section ids distinct |
| NoteContext.SectionRemoveKeepsIdsDistinct | src/contexts/NoteContext.tsx:107-117 | deleting a section keeps section ids distinct |
| NotesView.NotesPage.constructor | src/components/NotesView.tsx:24-37 | the first note is active if there is one, otherwise none; fields and dialogs start empty |
| NotesView.SyncedNamesANote | src/components/NotesView.tsx:40-49 | after the sync the active id is absent iff there are no notes, and otherwise names an existing note |
| NotesView.SyncedKeepsValid | src/components/NotesView.tsx:43 | an active id that already names a note is left unchanged |
| NotesView.SyncedIdempotent | src/components/NotesView.tsx:40-49 | running the sync twice equals running it once |
| NotesView.NotesPage.SyncActive | src/components/NotesView.tsx:40-49 | the active id becomes `Synced` of the notes and the old id; nothing else changes |
| NotesView.ActiveIn | src/components/NotesView.tsx:51 | the active note is the first note of the list with the active id (no earlier note has it), and is absent iff there is no active id or no note has it |
| NotesView.NotesPage.HandleAddNote | src/components/NotesView.tsx:53-60 | a blank title changes nothing; otherwise a note with the trimmed title is appended and becomes active, and the title field is cleared |
| NotesView.AfterDelete | src/components/NotesView.tsx:73-80 | deleting a non-active note keeps the selection; deleting the active one selects the earliest note of the list whose id differs from the deleted one, or none iff no such note remains |
| NotesView.NotesPage.HandleDeleteNote | src/components/NotesView.tsx:73-80 | the note is deleted; a non-active deletion keeps the selection; deleting the active note selects the earliest surviving note of the old list, or none (`AfterDelete`) |
| NotesView.NotesPage.HandleAddSection | src/components/NotesView.tsx:82-88 | no active note or a blank title changes nothing; otherwise a section with the trimmed title is added to the active note |
| NotesView.NotesPage.StartEditingSectionTitle | src/components/NotesView.tsx:90-99 | the section's title is copied into its edit field and it is marked as being renamed |
| NotesView.NotesPage.SaveEditingSectionTitle | src/components/NotesView.tsx:101-112 | a missing or empty edited title changes nothing; otherwise only that section's title changes and renaming ends |
| Common.Trim | src/components/NotesView.tsx:54 | `trim` removes exactly the leading and trailing white space: the result is a slice of the input with only white space before and after it, and neither starts nor ends with white space |
| Common.TrimEmptyIffBlank | src/components/NotesView.tsx:54 | a title trims to "" iff it consists of white space only |
| TaskList.RecurringToday | src/components/TaskList.tsx:27-40 | exactly the recurring tasks due today, in list order, each as often as in the list |
| TaskList.Display | src/components/TaskList.tsx:43-58 | upcoming and all views show `filteredTasks`; `filteredTasks` is a prefix; each added task is from the list, recurring, due today and has an id not in `filteredTasks` |
| TaskList.DisplayIdsDistinct | src/components/TaskList.tsx:49-54 | with distinct task ids and `filteredTasks` a subsequence of the tasks, no id is displayed twice |
| TaskList.TodayDisplayMembers | src/components/TaskList.tsx:44-54 | the today view shows exactly the filtered tasks and the recurring tasks due today, hidden completed ones included |
| TaskList.TaskListPage.constructor | src/components/TaskList.tsx:22-24 | no dialog is open and no task is being edited |
| TaskList.TaskListPage.HandleAddTask | src/components/TaskList.tsx:60-63 | the submitted record is appended as a new task and the add dialog closes |
| TaskList.TaskListPage.OpenEditModal | src/components/TaskList.tsx:72-75 | the task becomes the one edited and the edit dialog opens |
| TaskList.TaskListPage.HandleEditTask | src/components/TaskList.tsx:65-70 | with no task being edited nothing happens; otherwise that task takes the record's fields and the dialog closes |
| TaskList.EditKeepsHiddenFields | src/components/TaskList.tsx:65-70 | an edit keeps every task's id, creation instant, category and recurrence fields |
| TaskForm.TaskFormState.constructor | src/components/TaskForm.tsx:45-55 | the form starts with empty title, description and time, no date, alarm off and not completed |
| TaskForm.ResetValues | src/components/TaskForm.tsx:58-80 | add mode resets to the defaults; edit mode copies the task's six edited fields |
| TaskForm.TaskFormState.Reset | src/components/TaskForm.tsx:58-80 | while open the values become `ResetValues`; while closed they are kept |
| TaskForm.TimeChanged | src/components/TaskForm.tsx:83-89 | the time is set; a non-empty time switches the alarm on; an empty one leaves it; other fields are kept |
| TaskForm.TaskFormState.HandleTimeChange | src/components/TaskForm.tsx:83-89 | the values become `TimeChanged` of the old ones |
| TaskForm.SubmittedOf | src/components/TaskForm.tsx:91-105 | an alarm in the record implies a time; submit never switches an alarm on and keeps it when a time is set; the other five fields pass through |
| TaskForm.TaskFormState.Submit | src/components/TaskForm.tsx:91-107 | nothing is submitted iff the title is empty; otherwise the record is `SubmittedOf` the values |
| TaskForm.TimeDecidesAlarm | src/components/TaskForm.tsx:83-95 | after a time change the submitted alarm is on iff a time was entered |
| TaskForm.DataOfSubmitted | src/components/TaskForm.tsx:98-105 | a new task gets the six submitted fields, no category, not recurring, no frequency and no missed count |
| TaskForm.PatchOf | src/components/TaskForm.tsx:98-105 | an edit overwrites exactly the six submitted fields |
| TaskForm.EditRoundTrip | src/components/TaskForm.tsx:58-105 | opening the editor on a task and saving unchanged gives back the task, except that an alarm without a time is switched off |
| TaskItem.FormatParts | src/components/TaskItem.tsx:34-38 | the displayed hour is in 1..12 for any input |
| TaskItem.FormatPartsOfClockTime | src/components/TaskItem.tsx:34-40 | on "HH:MM", hour 0 shows as 12 AM and 12 as 12 PM; PM iff HH >= 12; minutes verbatim; HH recovered from the display |
| TaskItem.UnrenderRender | src/components/TaskItem.tsx:39 | the rendered text can be read back into its hour, minutes and suffix |
| TaskItem.FormatTimeInjective | src/components/TaskItem.tsx:34-40 | two different "HH:MM" times never display alike |
| TaskItem.FrequencyText | src/components/TaskItem.tsx:42-49 | "" iff no frequency |
| TaskItem.FrequencyTextInjective | src/components/TaskItem.tsx:42-49 | each frequency has its own phrase |
| TimeText.NatToStringRoundTrip | src/components/TaskItem.tsx:39 | the decimal text of the displayed hour reads back as that hour |
| TaskTables.Uncompleted | src/components/UncompletedTasksTable.tsx:19 | exactly the uncompleted tasks, in list order, each as often as in the list |
| TaskTables.Completed | src/components/CompletedTasksTable.tsx:19 | exactly the completed tasks, in list order, each as often as in the list |
| TaskTables.TablesPartition | src/components/CompletedTasksTable.tsx:19 | together with the uncompleted table (UncompletedTasksTable.tsx line 19) every task is listed in exactly one table, as often as in the list |
| TaskTables.TableTime | src/components/UncompletedTasksTable.tsx:21-28 | an empty time shows as ""; any other as the list item shows it (same code at CompletedTasksTable.tsx lines 21-28) |
| TaskTables.TableTimeOfClockTime | src/components/CompletedTasksTable.tsx:21-28 | on "HH:MM" the hour is in 1..12, PM iff HH >= 12, and different times display differently |
| TaskTables.AlarmPatchOnlyFlipsAlarm | src/components/UncompletedTasksTable.tsx:30-32 | the update changes the alarm and nothing else |
| TaskTables.ToggleAlarm | src/components/UncompletedTasksTable.tsx:30-32 | the store's list becomes `Updated` with that update |
| TaskTables.ToggleAlarmTwice | src/components/UncompletedTasksTable.tsx:30-32 | pressing the alarm button twice restores the list |
| CompletionReport.RecurringTasks | src/components/RecurringTasksCompletionReport.tsx:30 | exactly the recurring tasks, in list order, each as often as in the list |
| CompletionReport.DayBounds | src/components/RecurringTasksCompletionReport.tsx:49-50 | an instant lies between a day's start and end iff it falls on that day |
| CompletionReport.Window | src/components/RecurringTasksCompletionReport.tsx:33-43 | ten days, position k being today minus 9 plus k |
| CompletionReport.WindowConsecutive | src/components/RecurringTasksCompletionReport.tsx:33-43 | the window is consecutive, oldest first, ending today |
| CompletionReport.DayStatuses | src/components/RecurringTasksCompletionReport.tsx:48-76 | one status per window day, in window order |
| CompletionReport.ApplicabilitySpec | src/components/RecurringTasksCompletionReport.tsx:53-58 | a past day is not applicable iff the task was created between that day's end and now, or has no creation date; today iff created between now and today's end |
| CompletionReport.ApplicableDaySpec | src/components/RecurringTasksCompletionReport.tsx:60-75 | an applicable day is completed or missed iff the due date falls on it, and completed iff also a completed entry is dated that day |
| CompletionReport.RoundedPercent | src/components/RecurringTasksCompletionReport.tsx:82 | a value in 0..100 that is 100*done/required rounded half up |
| CompletionReport.Rate | src/components/RecurringTasksCompletionReport.tsx:79-83 | completed days <= days requiring completion; 100 when none requires it, otherwise the rounded percentage |
| CompletionReport.DueOnOneDay | src/components/RecurringTasksCompletionReport.tsx:69 | a task's due date lies within at most one day |
| CompletionReport.AtMostOneDueDay | src/components/RecurringTasksCompletionReport.tsx:69-83 | at most one window day requires completion, so the rate is 0 or 100 |
| CompletionReport.RowOf | src/components/RecurringTasksCompletionReport.tsx:47-89 | a task's row holds its window statuses and a rate of 0 or 100 |
| CompletionReport.Report | src/components/RecurringTasksCompletionReport.tsx:46-91 | one row per recurring task, in list order |
| CompletionReport.RemainingToday | src/components/RecurringTasksCompletionReport.tsx:108-117 | an order-preserving selection of the recurring tasks holding each open recurring task due on today's date text as often as the list does, and no other |
| CompletionReport.RemainingTodaySpec | src/components/RecurringTasksCompletionReport.tsx:108-117 | exactly the recurring, open tasks whose due date is today's date text, in list order |

## Left out

- The recurring-task scheduling engine is not modelled because the code has none: no next-occurrence arithmetic, catch-up, missed counting or completion-history stamping.
- Persistence is left out: loading from and saving to `localStorage` and the JSON re-hydration of dates. The stores start from the saved values given as inputs; the counter store's replacement of a missing history is modelled.
- Notification side effects are left out: browser notifications, permission requests, toasts, sound, and the one-minute `setInterval` alarm timer. `CheckAlarms` returns the tasks it would raise a reminder for.
- The `RecurringTasksReport` view reads a `getRecurringTasksReport` that the task store does not provide, so it is not modelled.
- The counter view reads a `selectedCounter` that the counter store does not provide, so it is not modelled.
- Presentation-only files are not part of this model: the counter chart (including its floating-point average with `toFixed`), counter detail and list views, the header, the preferences dialog and the index page.
- Date arithmetic is abstracted. A day is a day number and lasts exactly 86,400,000 ms, with no time zone or daylight-saving shift.
- `CounterContext.Cutoff`: the weekly and monthly cutoffs are 7 and 30 whole days before now, without calendar arithmetic. The yearly cutoff (`setFullYear`) is the parameter `yearAgo`.
- `CounterContext.CounterStore.GetCounterHistory`: the month/day and month/year texts a tap is grouped under are parameters, as is `parseISO` in the report. Each text contains a '/', so the grouping keeps insertion order.
- `TimeText.NumberOf` and `TimeText.ParseInt` read only plain decimal digits. Surrounding white space (which `Number` ignores, so `Number(" 7 ")` is 7), signs, exponents, fractions and hexadecimal forms of `Number`/`parseInt` are read as not-a-number; a time input never yields them.
- `CompletionReport.Within` follows `isWithinInterval` of date-fns version 3, which sorts the interval ends. Version 2 would throw on the reversed interval used for today's applicability, and the library version is not pinned in the code modelled here.
- The report's `new Date()` calls are all taken as the same instant `now`.
- React mechanics are not modelled: re-rendering, effect scheduling and stale closures, such as the toast text read from the pre-update list in `toggleTaskCompletion`.
- Form-library internals beyond the title check are not modelled.
- The notes page's note-editing and section-content handlers are not modelled, nor is the local editing state they use (`isEditingNote`, `editingNoteTitle`, `editingNoteContent`, `editingSections`, `editingSectionContent`):
  - `handleStartEditingNote` copies the active note's title and content into that local state and does nothing without an active note;
  - `startEditingSection` copies a section's content into that local state and marks the section as being edited;
  - `handleUpdateNote` passes the edited title and content to the note store's `updateNote`, which is modelled as `NoteContext.NoteStore.UpdateNote`;
  - `saveEditingSection` passes the edited content, or "" when there is none, to the note store's `updateNoteSection`, which is modelled as `NoteContext.NoteStore.UpdateNoteSection`.
- Id generation (`crypto.randomUUID`) is not modelled; fresh ids are inputs.
