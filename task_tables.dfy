/** The two task tables, `src/components/UncompletedTasksTable.tsx` and
    `src/components/CompletedTasksTable.tsx`: which tasks each lists, the
    time column (the list item's formatter behind a guard for an empty
    time), and the alarm button of the uncompleted table. */
module TaskTables {
  import opened Common
  import opened TimeText
  import opened TaskTypes
  import opened TaskContext
  import opened TaskItem

  /** The rows of the uncompleted table, in list order. */
  function Uncompleted(ts: seq<Task>): (r: seq<Task>)
    ensures IsSubseq(r, ts)
    ensures forall t :: t in r <==> t in ts && !t.completed
    ensures forall t {:trigger multiset(r)[t]} :: multiset(r)[t] == if !t.completed then multiset(ts)[t] else 0
  {
    Filter(ts, (t: Task) => !t.completed)
  }

  /** The rows of the completed table, in list order. */
  function Completed(ts: seq<Task>): (r: seq<Task>)
    ensures IsSubseq(r, ts)
    ensures forall t :: t in r <==> t in ts && t.completed
    ensures forall t {:trigger multiset(r)[t]} :: multiset(r)[t] == if t.completed then multiset(ts)[t] else 0
  {
    Filter(ts, (t: Task) => t.completed)
  }

  /** The two tables split the tasks: every task is in exactly one of them,
      as often as it is in the list. */
  lemma TablesPartition(ts: seq<Task>)
    ensures multiset(Completed(ts)) + multiset(Uncompleted(ts)) == multiset(ts)
    ensures |Completed(ts)| + |Uncompleted(ts)| == |ts|
    ensures forall t :: t in ts ==> (t in Completed(ts) <==> t !in Uncompleted(ts))
  {
    FilterPartition(ts, (t: Task) => t.completed, (t: Task) => !t.completed);
  }

  /** The tables' `formatTime`: an empty time shows as nothing, any other
      time as the list item shows it. */
  function TableTime(time: string): (r: string)
    ensures time == "" ==> r == ""
    ensures time != "" ==> r == FormatTime(time)
  {
    if time == "" then "" else FormatTime(time)
  }

  /** On a well-formed "HH:MM" the table shows an hour in 1..12 with PM
      exactly from noon on, and no two times alike. */
  lemma TableTimeOfClockTime(time: string, other: string)
    requires IsClockTime(time)
    ensures var c := FormatParts(time);
      && TableTime(time) == Render(c)
      && 1 <= c.hour <= 12 && (c.pm <==> HourOf(time) >= 12)
    ensures IsClockTime(other) && TableTime(time) == TableTime(other) ==> time == other
  {
    FormatPartsOfClockTime(time);
    if IsClockTime(other) && TableTime(time) == TableTime(other) {
      FormatTimeInjective(time, other);
    }
  }

  /** The update `toggleAlarm` sends: the alarm switched to the opposite of
      the state the row showed. */
  function AlarmPatch(currentAlarmState: bool): TaskPatch {
    NoChanges.(alarmSet := Some(!currentAlarmState))
  }

  /** The update changes the alarm of a task and nothing else. */
  lemma AlarmPatchOnlyFlipsAlarm(t: Task, currentAlarmState: bool)
    ensures Merge(t, AlarmPatch(currentAlarmState)) == t.(alarmSet := !currentAlarmState)
  {
  }

  /** Pressing the alarm button twice, each time on the state the row then
      shows, gives back the list: the first press touches only the alarms of
      the tasks with that id, and the second undoes it. */
  lemma ToggleAlarmTwice(ts: seq<Task>, id: string, b: bool)
    requires forall t :: t in ts && t.id == id ==> t.alarmSet == b
    ensures Updated(Updated(ts, id, AlarmPatch(b)), id, AlarmPatch(!b)) == ts
  {
    var once := Updated(ts, id, AlarmPatch(b));
    var twice := Updated(once, id, AlarmPatch(!b));
    forall i | 0 <= i < |ts| ensures twice[i] == ts[i] {
      if ts[i].id == id {
        assert ts[i] in ts;
        AlarmPatchOnlyFlipsAlarm(ts[i], b);
        AlarmPatchOnlyFlipsAlarm(once[i], !b);
      }
    }
  }

  /** `toggleAlarm`, which hands the update to the store. */
  method ToggleAlarm(store: TaskStore, taskId: string, currentAlarmState: bool)
    modifies store
    ensures store.tasks == Updated(old(store.tasks), taskId, AlarmPatch(currentAlarmState))
    ensures store.preferences == old(store.preferences) && store.activeFilter == old(store.activeFilter)
  {
    store.UpdateTask(taskId, NoChanges.(alarmSet := Some(!currentAlarmState)));
  }
}
