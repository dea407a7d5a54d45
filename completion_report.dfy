/** The report of `src/components/RecurringTasksCompletionReport.tsx`: for
    each recurring task, a status for each of the last ten days and a
    completion rate, plus the recurring tasks still open today.

    The report reads a task record richer than the store's: an
    `isRecurring` flag, a completion history, a priority, and creation and
    due dates as ISO texts. `ReportTask` is that record. Parsing a text
    (`parseISO`) is the parameter `parse`, `None` standing for an invalid
    date; the current instant is `now`; a day is `DayMs` milliseconds from
    its first to its last millisecond's end, with no time zone or daylight
    saving shift. */
module CompletionReport {
  import opened Common
  import opened TaskTypes

  const DayMs := 86400000

  datatype Completion = Completion(date: string, completed: bool)

  datatype ReportTask = ReportTask(
    id: string,
    title: string,
    completed: bool,
    isRecurring: bool,
    createdAt: string,
    dueDate: string,
    dueTime: string,
    priority: string,
    completionHistory: Option<seq<Completion>>)

  datatype Status = Completed | Missed | NotDue | NotApplicable

  /** `tasks.filter(task => task.isRecurring)`. */
  function RecurringTasks(ts: seq<ReportTask>): (r: seq<ReportTask>)
    ensures IsSubseq(r, ts)
    ensures forall t :: t in r <==> t in ts && t.isRecurring
    ensures forall t {:trigger multiset(r)[t]} :: multiset(r)[t] == if t.isRecurring then multiset(ts)[t] else 0
  {
    Filter(ts, (t: ReportTask) => t.isRecurring)
  }

  // ---------------------------------------------------------------------
  // Days and intervals

  /** The day an instant falls on. */
  function DayOf(t: Instant): Day {
    t / DayMs
  }

  /** `startOfDay`. */
  function DayStart(d: Day): Instant {
    d * DayMs
  }

  /** `endOfDay`: the day's last millisecond. */
  function DayEnd(d: Day): Instant {
    d * DayMs + DayMs - 1
  }

  lemma DayBounds(t: Instant, d: Day)
    ensures DayStart(d) <= t <= DayEnd(d) <==> DayOf(t) == d
  {
  }

  function Min(a: int, b: int): int {
    if a <= b then a else b
  }

  function Max(a: int, b: int): int {
    if a <= b then b else a
  }

  /** `isWithinInterval`: inclusive at both ends, the ends taken in
      ascending order whichever way they are given, and never true of an
      invalid date. */
  predicate Within(t: Option<Instant>, start: Instant, end: Instant) {
    t.Some? && Min(start, end) <= t.value <= Max(start, end)
  }

  function Reverse<T>(s: seq<T>): (r: seq<T>)
    ensures |r| == |s|
    ensures forall i :: 0 <= i < |s| ==> r[i] == s[|s| - 1 - i]
  {
    if s == [] then [] else Reverse(s[1..]) + [s[0]]
  }

  /** `last10Days`: today and the nine days before it, taken backwards from
      today and then reversed. */
  function Window(now: Instant): (w: seq<Day>)
    ensures |w| == 10
    ensures forall k :: 0 <= k < 10 ==> w[k] == DayOf(now) - 9 + k
  {
    Reverse(seq(10, i => DayOf(now) - i))
  }

  /** The window runs oldest first, one day at a time, and ends today. */
  lemma WindowConsecutive(now: Instant)
    ensures Window(now)[9] == DayOf(now)
    ensures forall k :: 0 < k < 10 ==> Window(now)[k] == Window(now)[k - 1] + 1
  {
  }

  // ---------------------------------------------------------------------
  // The status of one task on one day

  /** The creation instant the report uses: the parsed `createdAt`, or the
      current instant when the task has none. */
  function CreatedInstant(t: ReportTask, now: Instant, parse: string -> Option<Instant>): Option<Instant> {
    if t.createdAt == "" then Some(now) else parse(t.createdAt)
  }

  /** `taskExistedOnDay`: the creation instant does not lie between the
      day's end and now. */
  predicate ExistedOn(t: ReportTask, d: Day, now: Instant, parse: string -> Option<Instant>) {
    !Within(CreatedInstant(t, now, parse), DayEnd(d), now)
  }

  /** `wasCompleted`: some history entry marked completed is dated within the day. */
  predicate CompletedOn(t: ReportTask, d: Day, parse: string -> Option<Instant>) {
    t.completionHistory.Some? &&
    exists c :: c in t.completionHistory.value && Within(parse(c.date), DayStart(d), DayEnd(d)) && c.completed
  }

  /** `shouldBeCompleted`: the task has a due date and it lies within the day. */
  predicate DueOn(t: ReportTask, d: Day, parse: string -> Option<Instant>) {
    t.dueDate != "" && Within(parse(t.dueDate), DayStart(d), DayEnd(d))
  }

  function DayStatus(t: ReportTask, d: Day, now: Instant, parse: string -> Option<Instant>): Status {
    if !ExistedOn(t, d, now, parse) then NotApplicable
    else if DueOn(t, d, parse) then (if CompletedOn(t, d, parse) then Completed else Missed)
    else NotDue
  }

  /** `dayCompletions`: one status per day of the window, in window order. */
  function DayStatuses(t: ReportTask, w: seq<Day>, now: Instant, parse: string -> Option<Instant>): (r: seq<Status>)
    ensures |r| == |w|
    ensures forall i :: 0 <= i < |w| ==> r[i] == DayStatus(t, w[i], now, parse)
  {
    seq(|w|, i requires 0 <= i < |w| => DayStatus(t, w[i], now, parse))
  }

  /** A day that ended before now is not applicable exactly when the task
      was created after it ended (a task without a creation date never
      applies); today is not applicable exactly when the creation instant
      lies between now and the end of today. */
  lemma ApplicabilitySpec(t: ReportTask, d: Day, now: Instant, parse: string -> Option<Instant>)
    ensures DayEnd(d) <= now ==>
      (DayStatus(t, d, now, parse) == NotApplicable <==>
        t.createdAt == "" || (parse(t.createdAt).Some? && DayEnd(d) <= parse(t.createdAt).value <= now))
    ensures d == DayOf(now) ==>
      (DayStatus(t, d, now, parse) == NotApplicable <==>
        t.createdAt == "" || (parse(t.createdAt).Some? && now <= parse(t.createdAt).value <= DayEnd(d)))
  {
    if d == DayOf(now) {
      DayBounds(now, d);
    }
  }

  /** On an applicable day the task is completed or missed exactly when it is
      due that day, and completed exactly when it is also marked completed
      that day. */
  lemma ApplicableDaySpec(t: ReportTask, d: Day, now: Instant, parse: string -> Option<Instant>)
    requires ExistedOn(t, d, now, parse)
    ensures DayStatus(t, d, now, parse) in {Completed, Missed} <==>
      t.dueDate != "" && parse(t.dueDate).Some? && DayOf(parse(t.dueDate).value) == d
    ensures DayStatus(t, d, now, parse) == Completed <==> DueOn(t, d, parse) && CompletedOn(t, d, parse)
  {
    if parse(t.dueDate).Some? {
      DayBounds(parse(t.dueDate).value, d);
    }
  }

  // ---------------------------------------------------------------------
  // The completion rate

  predicate RequiresCompletion(s: Status) {
    s == Completed || s == Missed
  }

  /** `Math.round(done / required * 100)` for `0 <= done <= required`,
      `required > 0`: the nearest whole percentage, halves rounded up. */
  function RoundedPercent(done: nat, required: nat): (r: int)
    requires 0 < required && done <= required
    ensures 0 <= r <= 100
    ensures 2 * required * r <= 200 * done + required < 2 * required * (r + 1)
  {
    var x, m := 200 * done + required, 2 * required;
    DivBelow(x, m, 101);
    x / m
  }

  /** A quotient stays below `k` when the dividend stays below `m * k`. */
  lemma DivBelow(x: nat, m: nat, k: nat)
    requires 0 < m && x < m * k
    ensures x / m < k
  {
    if x / m >= k {
      MulMonotone(m, k, x / m);
    }
  }

  lemma MulMonotone(m: nat, a: nat, b: nat)
    requires a <= b
    ensures m * a <= m * b
  {
  }

  /** `completionRate`: 100 when no day requires completion, otherwise the
      rounded percentage of such days that were completed. */
  function Rate(ss: seq<Status>): (r: int)
    ensures 0 <= r <= 100
    ensures var required := |Filter(ss, (s: Status) => RequiresCompletion(s))|;
      var done := |Filter(ss, (s: Status) => s == Completed)|;
      && done <= required
      && (required == 0 ==> r == 100)
      && (required > 0 ==> 2 * required * r <= 200 * done + required < 2 * required * (r + 1))
  {
    var required := |Filter(ss, (s: Status) => RequiresCompletion(s))|;
    var done := |Filter(ss, (s: Status) => s == Completed)|;
    FilterWeaker(ss, (s: Status) => s == Completed, (s: Status) => RequiresCompletion(s));
    if required > 0 then RoundedPercent(done, required) else 100
  }

  /** A task is due on one day at most. */
  lemma DueOnOneDay(t: ReportTask, d1: Day, d2: Day, parse: string -> Option<Instant>)
    ensures DueOn(t, d1, parse) && DueOn(t, d2, parse) ==> d1 == d2
  {
    if DueOn(t, d1, parse) && DueOn(t, d2, parse) {
      DayBounds(parse(t.dueDate).value, d1);
      DayBounds(parse(t.dueDate).value, d2);
    }
  }

  /** The window's days are disjoint and a task has one due date, so at most
      one day of the report requires completion, and the rate is all or
      nothing. */
  lemma AtMostOneDueDay(t: ReportTask, now: Instant, parse: string -> Option<Instant>)
    ensures |Filter(DayStatuses(t, Window(now), now, parse), (s: Status) => RequiresCompletion(s))| <= 1
    ensures Rate(DayStatuses(t, Window(now), now, parse)) in {0, 100}
  {
    var w := Window(now);
    var ss := DayStatuses(t, w, now, parse);
    forall i, j | 0 <= i < j < |ss| && RequiresCompletion(ss[i]) ensures !RequiresCompletion(ss[j]) {
      DueOnOneDay(t, w[i], w[j], parse);
    }
    FilterAtMostOne(ss, (s: Status) => RequiresCompletion(s));
    var required := |Filter(ss, (s: Status) => RequiresCompletion(s))|;
    var done := |Filter(ss, (s: Status) => s == Completed)|;
    FilterWeaker(ss, (s: Status) => s == Completed, (s: Status) => RequiresCompletion(s));
    if required == 1 {
      assert done == 0 || done == 1;
    }
  }

  /** One row of the report. */
  datatype Row = Row(task: ReportTask, dayCompletions: seq<Status>, completionRate: int)

  /** The row of one task: its statuses over the window and its rate,
      which is 0 or 100. */
  function RowOf(t: ReportTask, now: Instant, parse: string -> Option<Instant>): (row: Row)
    ensures row.task == t && row.dayCompletions == DayStatuses(t, Window(now), now, parse)
    ensures row.completionRate in {0, 100}
  {
    var dayCompletions := DayStatuses(t, Window(now), now, parse);
    AtMostOneDueDay(t, now, parse);
    Row(t, dayCompletions, Rate(dayCompletions))
  }

  /** `taskCompletionData`: one row per recurring task, in list order. */
  function Report(ts: seq<ReportTask>, now: Instant, parse: string -> Option<Instant>): (rows: seq<Row>)
    ensures |rows| == |RecurringTasks(ts)|
    ensures forall i :: 0 <= i < |rows| ==> rows[i] == RowOf(RecurringTasks(ts)[i], now, parse)
  {
    var recurring := RecurringTasks(ts);
    seq(|recurring|, i requires 0 <= i < |recurring| => RowOf(recurring[i], now, parse))
  }

  // ---------------------------------------------------------------------
  // Today's remaining tasks

  /** `getTodaysRemainingTasks`, with today's date text as input: the
      recurring tasks due on that date and not completed. */
  function RemainingToday(ts: seq<ReportTask>, todayText: string): (r: seq<ReportTask>)
    ensures IsSubseq(r, RecurringTasks(ts))
    ensures forall t {:trigger multiset(r)[t]} ::
      multiset(r)[t] == if t.isRecurring && t.dueDate != "" && t.dueDate == todayText && !t.completed then multiset(ts)[t] else 0
  {
    Filter(RecurringTasks(ts), (t: ReportTask) => t.dueDate != "" && t.dueDate == todayText && !t.completed)
  }

  /** The remaining tasks are exactly the open recurring tasks due today, in
      the order of the task list. */
  lemma RemainingTodaySpec(ts: seq<ReportTask>, todayText: string)
    ensures RemainingToday(ts, todayText) ==
      Filter(ts, (t: ReportTask) => t.isRecurring && t.dueDate != "" && t.dueDate == todayText && !t.completed)
    ensures forall t :: t in RemainingToday(ts, todayText) <==>
      t in ts && t.isRecurring && t.dueDate != "" && t.dueDate == todayText && !t.completed
  {
    FilterFilter(ts, (t: ReportTask) => t.isRecurring,
      (t: ReportTask) => t.dueDate != "" && t.dueDate == todayText && !t.completed,
      (t: ReportTask) => t.isRecurring && t.dueDate != "" && t.dueDate == todayText && !t.completed);
  }
}
