/** The list page of `src/components/TaskList.tsx`: the tasks it displays
    (the store's `filteredTasks`, topped up in the `today` view with the
    recurring tasks due today) and the handlers that pass the editor's
    record to the store. */
module TaskList {
  import opened Common
  import opened TaskTypes
  import opened TaskContext
  import opened TaskForm

  /** `getTodayRecurringTasks`: the recurring tasks due today, in list order. */
  function RecurringToday(ts: seq<Task>, today: Day): (r: seq<Task>)
    ensures IsSubseq(r, ts)
    ensures forall t :: t in r <==> t in ts && t.recurring && t.dueDate == Some(today)
    ensures forall t {:trigger multiset(r)[t]} :: multiset(r)[t] == if t.recurring && t.dueDate == Some(today) then multiset(ts)[t] else 0
  {
    Filter(ts, (t: Task) => t.recurring && t.dueDate.Some? && t.dueDate.value == today)
  }

  function IdSet(ts: seq<Task>): set<string> {
    set t | t in ts :: t.id
  }

  /** `displayTasks`: in the `today` view the filtered tasks followed by the
      recurring tasks due today whose ids are not among them; otherwise the
      filtered tasks alone. */
  function Display(filtered: seq<Task>, ts: seq<Task>, view: View, today: Day): (r: seq<Task>)
    ensures view != Today ==> r == filtered
    ensures |filtered| <= |r| && r[..|filtered|] == filtered
    ensures forall t :: t in r[|filtered|..] ==> t in ts && t.recurring && t.dueDate == Some(today) && t.id !in IdSet(filtered)
  {
    if view == Today then
      var filteredTaskIds := IdSet(filtered);
      var additional := Filter(RecurringToday(ts, today), (t: Task) => t.id !in filteredTaskIds);
      assert (filtered + additional)[|filtered|..] == additional;
      filtered + additional
    else filtered
  }

  /** When the ids are distinct and the filtered tasks come from the list,
      the displayed tasks have distinct ids too: nothing is shown twice. */
  lemma DisplayIdsDistinct(filtered: seq<Task>, ts: seq<Task>, view: View, today: Day)
    requires DistinctIds(ts) && IsSubseq(filtered, ts)
    ensures DistinctIds(Display(filtered, ts, view, today))
  {
    SubseqKeepsDistinct(filtered, ts, (t: Task) => t.id);
    if view == Today {
      var ids := IdSet(filtered);
      var recurring := RecurringToday(ts, today);
      var additional := Filter(recurring, (t: Task) => t.id !in ids);
      SubseqKeepsDistinct(recurring, ts, (t: Task) => t.id);
      SubseqKeepsDistinct(additional, recurring, (t: Task) => t.id);
      forall x, y | x in filtered && y in additional ensures x.id != y.id {
        assert x.id in ids;
      }
      ConcatKeepsDistinct(filtered, additional, (t: Task) => t.id);
      assert Display(filtered, ts, view, today) == filtered + additional;
    }
  }

  /** With distinct ids, the `today` view shows exactly the filtered tasks
      and the recurring tasks due today; in particular a completed recurring
      task due today is shown even while completed tasks are hidden. */
  lemma TodayDisplayMembers(filtered: seq<Task>, ts: seq<Task>, today: Day)
    requires DistinctIds(ts) && IsSubseq(filtered, ts)
    ensures forall t :: t in Display(filtered, ts, Today, today) <==> t in filtered || t in RecurringToday(ts, today)
  {
    var ids := IdSet(filtered);
    var recurring := RecurringToday(ts, today);
    var additional := Filter(recurring, (t: Task) => t.id !in ids);
    assert Display(filtered, ts, Today, today) == filtered + additional;
    SubseqMembers(filtered, ts);
    forall t | t in recurring && t !in filtered ensures t in additional {
      assert t.id !in ids;
    }
  }

  /** The page's own state: which dialogs are open and the task being edited. */
  class TaskListPage {
    const store: TaskStore
    var addTaskOpen: bool
    var editTaskOpen: bool
    var currentTask: Option<Task>

    constructor (store: TaskStore)
      ensures this.store == store
      ensures !addTaskOpen && !editTaskOpen && currentTask.None?
    {
      this.store := store;
      addTaskOpen := false;
      editTaskOpen := false;
      currentTask := None;
    }

    /** The list the page renders. */
    function DisplayTasks(today: Day): seq<Task>
      reads this, store
    {
      Display(store.FilteredTasks(today), store.tasks, store.activeFilter, today)
    }

    /** `handleAddTask`: the record becomes a new task and the dialog closes. */
    method HandleAddTask(data: Submitted, freshId: string, now: Instant)
      requires TaskContext.IdFresh(store.tasks, freshId)
      modifies this, store
      ensures store.tasks == old(store.tasks) + [NewTask(DataOfSubmitted(data), freshId, now)]
      ensures store.preferences == old(store.preferences) && store.activeFilter == old(store.activeFilter)
      ensures !addTaskOpen && editTaskOpen == old(editTaskOpen) && currentTask == old(currentTask)
    {
      store.AddTask(DataOfSubmitted(data), freshId, now);
      addTaskOpen := false;
    }

    /** `openEditModal`. */
    method OpenEditModal(task: Task)
      modifies this
      ensures currentTask == Some(task) && editTaskOpen && addTaskOpen == old(addTaskOpen)
    {
      currentTask := Some(task);
      editTaskOpen := true;
    }

    /** `handleEditTask`: nothing happens without a task being edited;
        otherwise that task takes the record's six fields and the dialog
        closes. */
    method HandleEditTask(data: Submitted)
      modifies this, store
      ensures old(currentTask).None? ==>
        store.tasks == old(store.tasks) && editTaskOpen == old(editTaskOpen)
      ensures old(currentTask).Some? ==>
        store.tasks == Updated(old(store.tasks), old(currentTask).value.id, PatchOf(data)) && !editTaskOpen
      ensures store.preferences == old(store.preferences) && store.activeFilter == old(store.activeFilter)
      ensures currentTask == old(currentTask) && addTaskOpen == old(addTaskOpen)
    {
      if currentTask.Some? {
        store.UpdateTask(currentTask.value.id, PatchOf(data));
        editTaskOpen := false;
      }
    }
  }

  /** An edit keeps what the editor does not show: the id, the creation
      instant, the category and the recurrence fields of every task. */
  lemma EditKeepsHiddenFields(ts: seq<Task>, id: string, data: Submitted)
    ensures var r := Updated(ts, id, PatchOf(data));
      forall i :: 0 <= i < |ts| ==>
        && r[i].id == ts[i].id && r[i].createdAt == ts[i].createdAt && r[i].category == ts[i].category
        && r[i].recurring == ts[i].recurring && r[i].frequency == ts[i].frequency && r[i].missedCount == ts[i].missedCount
  {
    var r := Updated(ts, id, PatchOf(data));
    forall i | 0 <= i < |ts| && ts[i].id == id
      ensures r[i].id == ts[i].id && r[i].createdAt == ts[i].createdAt && r[i].category == ts[i].category
      ensures r[i].recurring == ts[i].recurring && r[i].frequency == ts[i].frequency && r[i].missedCount == ts[i].missedCount
    {
      EditKeepsHiddenFieldsOf(ts[i], data);
    }
  }

  lemma EditKeepsHiddenFieldsOf(t: Task, data: Submitted)
    ensures var u := Merge(t, PatchOf(data));
      && u.id == t.id && u.createdAt == t.createdAt && u.category == t.category
      && u.recurring == t.recurring && u.frequency == t.frequency && u.missedCount == t.missedCount
  {
  }
}
