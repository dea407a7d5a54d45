/** The task store of `src/contexts/TaskContext.tsx`: the task list and the
    preferences it owns, the operations that replace the list (`addTask`,
    `updateTask`, `deleteTask`, `toggleTaskCompletion`), the preference
    merge, the `filteredTasks` view and the rule `checkAlarms` uses to decide
    which tasks ring. Clock readings are parameters: `today` is the current
    day number and `currentTime` the current minute of the day. */
module TaskContext {
  import opened Common
  import opened TimeText
  import opened TaskTypes

  const DefaultPreferences := Preferences(Today, true, true, false)

  function Abs(x: int): nat {
    if x < 0 then -x else x
  }

  // ---------------------------------------------------------------------
  // The new task lists the operations compute

  /** The caller-supplied part of a task. */
  function DataOf(t: Task): TaskData {
    TaskData(t.title, t.description, t.completed, t.dueDate, t.dueTime, t.alarmSet,
             t.category, t.recurring, t.frequency, t.missedCount)
  }

  /** The task `addTask` builds: `{ ...taskData, id, createdAt }`. */
  function NewTask(data: TaskData, id: string, now: Instant): (t: Task)
    ensures DataOf(t) == data && t.id == id && t.createdAt == now
  {
    Task(id, data.title, data.description, data.completed, data.dueDate, data.dueTime,
         data.alarmSet, now, data.category, data.recurring, data.frequency, data.missedCount)
  }

  predicate IdFresh(ts: seq<Task>, id: string) {
    forall t :: t in ts ==> t.id != id
  }

  predicate DistinctIds(ts: seq<Task>) {
    DistinctKeys(ts, (t: Task) => t.id)
  }

  /** The list `updateTask` produces. */
  function Updated(ts: seq<Task>, id: string, p: TaskPatch): (r: seq<Task>)
    ensures |r| == |ts|
    ensures forall i :: 0 <= i < |ts| && ts[i].id != id ==> r[i] == ts[i]
    ensures forall i :: 0 <= i < |ts| && ts[i].id == id ==> r[i] == Merge(ts[i], p)
  {
    MapWhere(ts, (t: Task) => t.id == id, (t: Task) => Merge(t, p))
  }

  /** The list `toggleTaskCompletion` produces. */
  function Toggled(ts: seq<Task>, id: string): (r: seq<Task>)
    ensures |r| == |ts|
    ensures forall i :: 0 <= i < |ts| && ts[i].id != id ==> r[i] == ts[i]
    ensures forall i :: 0 <= i < |ts| && ts[i].id == id ==> r[i] == ts[i].(completed := !ts[i].completed)
  {
    MapWhere(ts, (t: Task) => t.id == id, (t: Task) => t.(completed := !t.completed))
  }

  /** The list `deleteTask` produces once it has found the task. */
  function Removed(ts: seq<Task>, id: string): (r: seq<Task>)
    ensures IsSubseq(r, ts)
    ensures forall t :: t in r <==> t in ts && t.id != id
    ensures forall t {:trigger multiset(r)[t]} :: multiset(r)[t] == if t.id != id then multiset(ts)[t] else 0
  {
    Filter(ts, (t: Task) => t.id != id)
  }

  /** Updating the same task with the same fields twice is the same as once. */
  lemma UpdateIdempotent(ts: seq<Task>, id: string, p: TaskPatch)
    ensures Updated(Updated(ts, id, p), id, p) == Updated(ts, id, p)
  {
    var once := Updated(ts, id, p);
    var twice := Updated(once, id, p);
    forall i | 0 <= i < |ts| ensures twice[i] == once[i] {
      if ts[i].id == id {
        MergeIdempotent(ts[i], p);
      }
    }
  }

  /** An update with no fields leaves the list as it was. */
  lemma UpdateNothing(ts: seq<Task>, id: string)
    ensures Updated(ts, id, NoChanges) == ts
  {
    forall i | 0 <= i < |ts| ensures Updated(ts, id, NoChanges)[i] == ts[i] {
      MergeNoChanges(ts[i]);
    }
  }

  /** Toggling the same task twice restores the list. */
  lemma ToggleTwice(ts: seq<Task>, id: string)
    ensures Toggled(Toggled(ts, id), id) == ts
  {
    var twice := Toggled(Toggled(ts, id), id);
    assert forall i :: 0 <= i < |ts| ==> twice[i] == ts[i];
  }

  /** Deleting an id that no task carries leaves the list as it was. */
  lemma RemoveUnknown(ts: seq<Task>, id: string)
    requires IdFresh(ts, id)
    ensures Removed(ts, id) == ts
  {
    FilterKeepsAll(ts, (t: Task) => t.id != id);
  }

  /** Deleting a task just added with a fresh id gives back the earlier list. */
  lemma AddThenRemove(ts: seq<Task>, data: TaskData, id: string, now: Instant)
    requires IdFresh(ts, id)
    ensures Removed(ts + [NewTask(data, id, now)], id) == ts
  {
    FilterConcat(ts, [NewTask(data, id, now)], (t: Task) => t.id != id);
    FilterKeepsAll(ts, (t: Task) => t.id != id);
    FilterDropsAll([NewTask(data, id, now)], (t: Task) => t.id != id);
  }

  /** Every operation keeps the ids of the list distinct, provided `addTask`
      gets a fresh id and `updateTask` is not asked to change an id. */
  lemma OperationsKeepIdsDistinct(ts: seq<Task>, data: TaskData, id: string, now: Instant, p: TaskPatch)
    requires DistinctIds(ts)
    ensures IdFresh(ts, id) ==> DistinctIds(ts + [NewTask(data, id, now)])
    ensures p.id.None? ==> DistinctIds(Updated(ts, id, p))
    ensures DistinctIds(Toggled(ts, id))
    ensures DistinctIds(Removed(ts, id))
  {
    SubseqKeepsDistinct(Removed(ts, id), ts, (t: Task) => t.id);
    if IdFresh(ts, id) {
      var added := ts + [NewTask(data, id, now)];
      forall i, j | 0 <= i < j < |added| ensures added[i].id != added[j].id {
        if j == |ts| {
          assert added[i] in ts;
        }
      }
    }
  }

  // ---------------------------------------------------------------------
  // The filtered view

  /** The callback of `tasks.filter` that computes `filteredTasks`. */
  predicate Shown(t: Task, prefs: Preferences, view: View, today: Day) {
    if !prefs.showCompletedTasks && t.completed then false
    else match view
      case Today => t.dueDate.Some? && t.dueDate.value == today
      case Upcoming => t.dueDate.None? || t.dueDate.value > today
      case All => true
  }

  /** `filteredTasks`: an order-preserving selection of the tasks that never
      holds a completed task while completed tasks are hidden. */
  function Visible(ts: seq<Task>, prefs: Preferences, view: View, today: Day): (r: seq<Task>)
    ensures IsSubseq(r, ts)
    ensures !prefs.showCompletedTasks ==> forall t :: t in r ==> !t.completed
    ensures forall t {:trigger multiset(r)[t]} :: multiset(r)[t] == if Shown(t, prefs, view, today) then multiset(ts)[t] else 0
  {
    Filter(ts, (t: Task) => Shown(t, prefs, view, today))
  }

  /** The `today` view holds exactly the unhidden tasks due today. */
  lemma TodayViewExact(ts: seq<Task>, prefs: Preferences, today: Day)
    ensures forall t :: t in Visible(ts, prefs, Today, today) <==>
      t in ts && (prefs.showCompletedTasks || !t.completed) && t.dueDate == Some(today)
  {
  }

  /** The `upcoming` view holds exactly the unhidden tasks with no due date or
      one after today, so it shares no task with the `today` view. */
  lemma UpcomingViewExact(ts: seq<Task>, prefs: Preferences, today: Day)
    ensures forall t :: t in Visible(ts, prefs, Upcoming, today) <==>
      t in ts && (prefs.showCompletedTasks || !t.completed) && (t.dueDate.None? || t.dueDate.value > today)
    ensures forall t :: !(t in Visible(ts, prefs, Today, today) && t in Visible(ts, prefs, Upcoming, today))
  {
  }

  /** The `all` view is the whole list, or its uncompleted tasks while
      completed tasks are hidden. */
  lemma AllViewKeepsUnhidden(ts: seq<Task>, prefs: Preferences, today: Day)
    ensures Visible(ts, prefs, All, today) == if prefs.showCompletedTasks then ts else Filter(ts, (t: Task) => !t.completed)
  {
    if prefs.showCompletedTasks {
      FilterKeepsAll(ts, (t: Task) => Shown(t, prefs, All, today));
    } else {
      FilterSamePredicate(ts, (t: Task) => Shown(t, prefs, All, today), (t: Task) => !t.completed);
    }
  }

  // ---------------------------------------------------------------------
  // Alarms

  /** The minute of the day `checkAlarms` reads from a due time:
      `split(':').map(Number)` of its first two fields; `NaN` (`None`) when
      either is missing or not a number. */
  function ClockMinutes(time: string): Option<int> {
    var fields := Split(time, ':');
    var hours := NumberOf(fields[0]);
    var minutes := if |fields| > 1 then NumberOf(fields[1]) else None;
    if hours.Some? && minutes.Some? then Some(hours.value * 60 + minutes.value) else None
  }

  /** Whether a task's alarm rings at minute `currentTime` of day `today`
      (notifications being enabled). */
  predicate Rings(t: Task, today: Day, currentTime: int) {
    && t.alarmSet && t.dueDate.Some? && t.dueTime != "" && !t.completed
    && t.dueDate.value == today
    && ClockMinutes(t.dueTime).Some?
    && Abs(currentTime - ClockMinutes(t.dueTime).value) <= 1
  }

  lemma ClockMinutesOfClockTime(time: string)
    requires IsClockTime(time)
    ensures ClockMinutes(time) == Some(HourOf(time) * 60 + MinuteOf(time))
  {
    ClockTimeFields(time);
  }

  /** For a well-formed "HH:MM" due time, the alarm rings exactly when it is
      set, the task is open and due today, and the clock is within one
      minute of HH*60+MM. */
  lemma RingsOnClockTime(t: Task, today: Day, currentTime: int)
    requires IsClockTime(t.dueTime)
    ensures Rings(t, today, currentTime) <==>
      t.alarmSet && !t.completed && t.dueDate == Some(today) &&
      -1 <= currentTime - (HourOf(t.dueTime) * 60 + MinuteOf(t.dueTime)) <= 1
  {
    ClockMinutesOfClockTime(t.dueTime);
  }

  /** A task rings during at most three consecutive minutes of a day. */
  lemma RingingWindow(t: Task, today: Day, m1: int, m2: int)
    requires Rings(t, today, m1) && Rings(t, today, m2)
    ensures Abs(m1 - m2) <= 2
  {
  }

  // ---------------------------------------------------------------------
  // Preferences

  /** `{ ...prev, ...updates }` on the preferences. */
  function MergePreferences(prefs: Preferences, u: PreferencesPatch): Preferences {
    Preferences(
      u.defaultView.GetOr(prefs.defaultView),
      u.showCompletedTasks.GetOr(prefs.showCompletedTasks),
      u.enableNotifications.GetOr(prefs.enableNotifications),
      u.nightMode.GetOr(prefs.nightMode))
  }

  /** A merge keeps every field the update does not supply, sets every field
      it supplies, and applying it again changes nothing. */
  lemma MergePreferencesSpec(prefs: Preferences, u: PreferencesPatch)
    ensures var r := MergePreferences(prefs, u);
      && (u.defaultView.None? ==> r.defaultView == prefs.defaultView)
      && (u.defaultView.Some? ==> r.defaultView == u.defaultView.value)
      && (u.showCompletedTasks.None? ==> r.showCompletedTasks == prefs.showCompletedTasks)
      && (u.showCompletedTasks.Some? ==> r.showCompletedTasks == u.showCompletedTasks.value)
      && (u.enableNotifications.None? ==> r.enableNotifications == prefs.enableNotifications)
      && (u.enableNotifications.Some? ==> r.enableNotifications == u.enableNotifications.value)
      && (u.nightMode.None? ==> r.nightMode == prefs.nightMode)
      && (u.nightMode.Some? ==> r.nightMode == u.nightMode.value)
      && MergePreferences(r, u) == r
  {
  }

  // ---------------------------------------------------------------------
  // The store

  class TaskStore {
    var tasks: seq<Task>
    var preferences: Preferences
    var activeFilter: View

    /** The provider's initial state: the saved tasks, the saved preferences
        or the defaults, and the default view as the active filter. */
    constructor (savedTasks: seq<Task>, savedPreferences: Option<Preferences>)
      ensures tasks == savedTasks
      ensures preferences == savedPreferences.GetOr(DefaultPreferences)
      ensures activeFilter == preferences.defaultView
    {
      tasks := savedTasks;
      preferences := savedPreferences.GetOr(DefaultPreferences);
      activeFilter := savedPreferences.GetOr(DefaultPreferences).defaultView;
    }

    /** `filteredTasks`. */
    function FilteredTasks(today: Day): seq<Task>
      reads this
    {
      Visible(tasks, preferences, activeFilter, today)
    }

    /** `addTask`, with the fresh id and the creation instant as inputs. */
    method AddTask(data: TaskData, freshId: string, now: Instant)
      requires IdFresh(tasks, freshId)
      modifies this
      ensures tasks == old(tasks) + [NewTask(data, freshId, now)]
      ensures preferences == old(preferences) && activeFilter == old(activeFilter)
    {
      tasks := tasks + [NewTask(data, freshId, now)];
    }

    /** `updateTask`. */
    method UpdateTask(id: string, updates: TaskPatch)
      modifies this
      ensures tasks == Updated(old(tasks), id, updates)
      ensures preferences == old(preferences) && activeFilter == old(activeFilter)
    {
      tasks := Updated(tasks, id, updates);
    }

    /** `deleteTask`: nothing happens when no task has the id. */
    method DeleteTask(id: string)
      modifies this
      ensures IdFresh(old(tasks), id) ==> tasks == old(tasks)
      ensures tasks == Removed(old(tasks), id)
      ensures preferences == old(preferences) && activeFilter == old(activeFilter)
    {
      var toDelete := FindFirst(tasks, (t: Task) => t.id == id);
      if toDelete.None? {
        RemoveUnknown(tasks, id);
        return;
      }
      tasks := Removed(tasks, id);
    }

    /** `toggleTaskCompletion`. */
    method ToggleTaskCompletion(id: string)
      modifies this
      ensures tasks == Toggled(old(tasks), id)
      ensures preferences == old(preferences) && activeFilter == old(activeFilter)
    {
      tasks := Toggled(tasks, id);
    }

    /** `setActiveFilter`. */
    method SetActiveFilter(view: View)
      modifies this
      ensures activeFilter == view
      ensures tasks == old(tasks) && preferences == old(preferences)
    {
      activeFilter := view;
    }

    /** `updatePreferences`: a supplied default view also becomes the active filter. */
    method UpdatePreferences(updates: PreferencesPatch)
      modifies this
      ensures preferences == MergePreferences(old(preferences), updates)
      ensures activeFilter == updates.defaultView.GetOr(old(activeFilter))
      ensures tasks == old(tasks)
    {
      preferences := MergePreferences(preferences, updates);
      if updates.defaultView.Some? {
        activeFilter := updates.defaultView.value;
      }
    }

    /** `checkAlarms`: the tasks it raises a reminder for, in list order;
        none while notifications are disabled. */
    method CheckAlarms(today: Day, currentTime: int) returns (fired: seq<Task>)
      ensures !preferences.enableNotifications ==> fired == []
      ensures preferences.enableNotifications ==> fired == Filter(tasks, (t: Task) => Rings(t, today, currentTime))
    {
      fired := [];
      if !preferences.enableNotifications {
        return;
      }
      var i := 0;
      while i < |tasks|
        invariant 0 <= i <= |tasks|
        invariant fired == Filter(tasks[..i], (t: Task) => Rings(t, today, currentTime))
      {
        var task := tasks[i];
        FilterStep(tasks, i, (t: Task) => Rings(t, today, currentTime));
        if task.alarmSet && task.dueDate.Some? && task.dueTime != "" && !task.completed {
          if task.dueDate.value == today {
            var taskTime := ClockMinutes(task.dueTime);
            if taskTime.Some? && Abs(currentTime - taskTime.value) <= 1 {
              fired := fired + [task];
            }
          }
        }
        i := i + 1;
      }
      assert tasks[..|tasks|] == tasks;
    }
  }
}
