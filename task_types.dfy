/** The records of `src/types/task.ts`: a task, the fields a caller supplies
    when creating one, a partial update of one, and the user preferences.

    Calendar dates are day numbers (the local midnight the source compares
    with `setHours(0, 0, 0, 0)`), instants are milliseconds, and an absent
    optional string (`description`, `dueTime`, `category`) is "": every
    place that reads one of them tests it for truthiness, which treats
    `undefined` and "" alike. */
module TaskTypes {
  import opened Common

  type Day = int
  type Instant = int

  datatype Frequency = Daily | Weekly | Monthly

  datatype Task = Task(
    id: string,
    title: string,
    description: string,
    completed: bool,
    dueDate: Option<Day>,
    dueTime: string,
    alarmSet: bool,
    createdAt: Instant,
    category: string,
    recurring: bool,
    frequency: Option<Frequency>,
    missedCount: Option<int>)

  /** `Omit<Task, 'id' | 'createdAt'>`: what `addTask` receives. */
  datatype TaskData = TaskData(
    title: string,
    description: string,
    completed: bool,
    dueDate: Option<Day>,
    dueTime: string,
    alarmSet: bool,
    category: string,
    recurring: bool,
    frequency: Option<Frequency>,
    missedCount: Option<int>)

  /** `Partial<Task>`: a field that is `Some` overwrites the task's field. */
  datatype TaskPatch = TaskPatch(
    id: Option<string>,
    title: Option<string>,
    description: Option<string>,
    completed: Option<bool>,
    dueDate: Option<Option<Day>>,
    dueTime: Option<string>,
    alarmSet: Option<bool>,
    createdAt: Option<Instant>,
    category: Option<string>,
    recurring: Option<bool>,
    frequency: Option<Option<Frequency>>,
    missedCount: Option<Option<int>>)

  const NoChanges := TaskPatch(None, None, None, None, None, None, None, None, None, None, None, None)

  /** `{ ...task, ...updates }`. */
  function Merge(t: Task, p: TaskPatch): Task {
    Task(
      p.id.GetOr(t.id), p.title.GetOr(t.title), p.description.GetOr(t.description),
      p.completed.GetOr(t.completed), p.dueDate.GetOr(t.dueDate), p.dueTime.GetOr(t.dueTime),
      p.alarmSet.GetOr(t.alarmSet), p.createdAt.GetOr(t.createdAt), p.category.GetOr(t.category),
      p.recurring.GetOr(t.recurring), p.frequency.GetOr(t.frequency), p.missedCount.GetOr(t.missedCount))
  }

  /** Merging the same update a second time changes nothing more. */
  lemma MergeIdempotent(t: Task, p: TaskPatch)
    ensures Merge(Merge(t, p), p) == Merge(t, p)
  {
  }

  lemma MergeNoChanges(t: Task)
    ensures Merge(t, NoChanges) == t
  {
  }

  datatype View = Today | Upcoming | All

  datatype Preferences = Preferences(
    defaultView: View,
    showCompletedTasks: bool,
    enableNotifications: bool,
    nightMode: bool)

  /** `Partial<UserPreferences>`. */
  datatype PreferencesPatch = PreferencesPatch(
    defaultView: Option<View>,
    showCompletedTasks: Option<bool>,
    enableNotifications: Option<bool>,
    nightMode: Option<bool>)
}
