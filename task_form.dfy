/** The task editor of `src/components/TaskForm.tsx`: the form's fields, the
    reset when the dialog opens, the time input that switches the alarm on,
    the title check of the schema, and the submit handler that switches the
    alarm off again when no time is set. Also the two ways the task list
    hands the submitted record to the store: as the data of a new task and
    as a partial update of an existing one. */
module TaskForm {
  import opened Common
  import opened TaskTypes

  /** The form's values; an unset optional text is "". */
  datatype FormValues = FormValues(
    title: string,
    description: string,
    dueDate: Option<Day>,
    dueTime: string,
    alarmSet: bool,
    completed: bool)

  /** The values of an empty form. */
  const Defaults := FormValues("", "", None, "", false, false)

  /** The record `handleFormSubmit` passes on: exactly these six keys. */
  datatype Submitted = Submitted(
    title: string,
    description: string,
    completed: bool,
    dueDate: Option<Day>,
    dueTime: string,
    alarmSet: bool)

  /** The schema's only constraint: a title of at least one character. */
  predicate Valid(v: FormValues) {
    |v.title| >= 1
  }

  /** The values the form is reset to on opening: the defaults in add mode,
      the task's own fields in edit mode. */
  function ResetValues(initial: Option<Task>): (v: FormValues)
    ensures initial.None? ==> v == Defaults
    ensures initial.Some? ==>
      && v.title == initial.value.title && v.description == initial.value.description
      && v.dueDate == initial.value.dueDate && v.dueTime == initial.value.dueTime
      && v.alarmSet == initial.value.alarmSet && v.completed == initial.value.completed
  {
    match initial
    case None => Defaults
    case Some(t) => FormValues(t.title, t.description, t.dueDate, t.dueTime, t.alarmSet, t.completed)
  }

  /** The values after the time input changes to `time`. */
  function TimeChanged(v: FormValues, time: string): (r: FormValues)
    ensures r.dueTime == time
    ensures time != "" ==> r.alarmSet
    ensures time == "" ==> r.alarmSet == v.alarmSet
    ensures r.title == v.title && r.description == v.description && r.dueDate == v.dueDate && r.completed == v.completed
  {
    v.(dueTime := time, alarmSet := if time != "" then true else v.alarmSet)
  }

  /** The record `handleFormSubmit` builds from valid values: an alarm without
      a time is switched off, and every other field is passed through. */
  function SubmittedOf(v: FormValues): (s: Submitted)
    ensures s.alarmSet ==> s.dueTime != ""
    ensures s.alarmSet ==> v.alarmSet
    ensures v.alarmSet && v.dueTime != "" ==> s.alarmSet
    ensures s.title == v.title && s.description == v.description && s.completed == v.completed
    ensures s.dueDate == v.dueDate && s.dueTime == v.dueTime
  {
    Submitted(v.title, v.description, v.completed, v.dueDate, v.dueTime, v.alarmSet && v.dueTime != "")
  }

  /** Whatever the alarm switch said before, after the time input changes the
      submitted alarm is on exactly when a time was entered. */
  lemma TimeDecidesAlarm(v: FormValues, time: string)
    ensures SubmittedOf(TimeChanged(v, time)).alarmSet <==> time != ""
  {
  }

  /** `handleAddTask` passes the record to `addTask`: the keys the form does
      not have are absent from the new task. */
  function DataOfSubmitted(s: Submitted): (d: TaskData)
    ensures d.title == s.title && d.description == s.description && d.completed == s.completed
    ensures d.dueDate == s.dueDate && d.dueTime == s.dueTime && d.alarmSet == s.alarmSet
    ensures d.category == "" && !d.recurring && d.frequency.None? && d.missedCount.None?
  {
    TaskData(s.title, s.description, s.completed, s.dueDate, s.dueTime, s.alarmSet, "", false, None, None)
  }

  /** `handleEditTask` passes the record to `updateTask`: it overwrites the
      six keys it has and no other. */
  function PatchOf(s: Submitted): (p: TaskPatch)
    ensures forall t :: Merge(t, p) == t.(title := s.title, description := s.description, completed := s.completed,
                                          dueDate := s.dueDate, dueTime := s.dueTime, alarmSet := s.alarmSet)
  {
    TaskPatch(None, Some(s.title), Some(s.description), Some(s.completed), Some(s.dueDate), Some(s.dueTime),
              Some(s.alarmSet), None, None, None, None, None)
  }

  /** Opening the editor on a task and saving without changes leaves the
      task as it was, unless it had an alarm but no time: then exactly that
      alarm is switched off. */
  lemma EditRoundTrip(t: Task)
    ensures Merge(t, PatchOf(SubmittedOf(ResetValues(Some(t))))) == t.(alarmSet := t.alarmSet && t.dueTime != "")
  {
  }

  /** The state react-hook-form keeps for the dialog. */
  class TaskFormState {
    var values: FormValues

    constructor ()
      ensures values == Defaults
    {
      values := Defaults;
    }

    /** The reset effect: runs only while the dialog is open. */
    method Reset(open: bool, initialData: Option<Task>)
      modifies this
      ensures values == if open then ResetValues(initialData) else old(values)
    {
      if open {
        if initialData.Some? {
          var t := initialData.value;
          values := FormValues(t.title, t.description, t.dueDate, t.dueTime, t.alarmSet, t.completed);
        } else {
          values := Defaults;
        }
      }
    }

    /** `handleTimeChange`. */
    method HandleTimeChange(time: string)
      modifies this
      ensures values == TimeChanged(old(values), time)
    {
      values := values.(dueTime := time);
      if time != "" {
        values := values.(alarmSet := true);
      }
    }

    /** Submitting: the schema rejects an empty title and nothing is passed
        on; otherwise `handleFormSubmit` clears an alarm that has no time
        and passes the record on. */
    method Submit() returns (r: Option<Submitted>)
      ensures r.None? <==> |values.title| == 0
      ensures r.Some? ==> r.value == SubmittedOf(values)
    {
      if !Valid(values) {
        return None;
      }
      var data := values;
      if data.alarmSet && data.dueTime == "" {
        data := data.(alarmSet := false);
      }
      r := Some(Submitted(data.title, data.description, data.completed, data.dueDate, data.dueTime, data.alarmSet));
    }
  }
}
