/**
 * The task form dialog: five field states, reset or prefilled whenever the
 * dialog opens, and a submit sequence that raises `isLoading`, hands the
 * payload to the page's callback, then lowers `isLoading` and asks to close.
 */
module TaskDialog {
  import opened Domain

  /** The dialog's field state, as the five `useState` hooks hold it. */
  datatype Fields = Fields(
    title: string,
    description: string,
    status: Status,
    priority: Priority,
    dueDate: string)

  /** The blank form: empty texts, status `todo`, priority `medium`. */
  const Blank: Fields := Fields("", "", Todo, Medium, "")

  /**
   * What the open effect puts in the fields: the initial task's values
   * (a null description or due date shown as ""), or the blank form.
   */
  function Prefill(initialData: Option<Task>): (f: Fields)
    ensures initialData.None? ==> f == Blank
    ensures initialData.Some? ==>
              f.title == initialData.value.title &&
              f.status == initialData.value.status &&
              f.priority == initialData.value.priority &&
              f.description == EmptyIfNull(initialData.value.description) &&
              f.dueDate == EmptyIfNull(initialData.value.dueDate)
  {
    match initialData
    case None => Blank
    case Some(t) => Fields(t.title, EmptyIfNull(t.description), t.status, t.priority, EmptyIfNull(t.dueDate))
  }

  /** The object `handleSubmit` passes to `onSubmit`: every field as held, an empty due date as null. */
  function Payload(f: Fields): (p: TaskForm)
    ensures p.title == f.title && p.description == f.description
    ensures p.status == f.status && p.priority == f.priority
    ensures p.dueDate.None? <==> f.dueDate == ""
    ensures p.dueDate.Some? ==> p.dueDate.value == f.dueDate
  {
    TaskForm(f.title, f.description, f.status, f.priority, NullIfEmpty(f.dueDate))
  }

  /**
   * Prefill followed by an unedited submit gives back the task's title,
   * status and priority, its description with null shown as "", and its due
   * date with "" read back as null.
   */
  lemma PrefillThenSubmit(t: Task)
    ensures Payload(Prefill(Some(t))) ==
              TaskForm(t.title, EmptyIfNull(t.description), t.status, t.priority, Normalized(t.dueDate))
  {
  }

  class Dialog {
    var isLoading: bool
    var taskTitle: string
    var description: string
    var status: Status
    var priority: Priority
    var dueDate: string

    /** The field state as one value. */
    function FieldValues(): Fields
      reads this
    {
      Fields(taskTitle, description, status, priority, dueDate)
    }

    /** The dialog as first rendered: not loading, blank fields. */
    constructor ()
      ensures !isLoading && FieldValues() == Blank
    {
      isLoading := false;
      taskTitle, description, status, priority, dueDate := "", "", Todo, Medium, "";
    }

    /**
     * The effect that runs when `open` or `initialData` changes: an open
     * dialog is prefilled or reset; a closed one keeps its fields.
     */
    method OpenEffect(open: bool, initialData: Option<Task>)
      modifies this
      ensures open ==> FieldValues() == Prefill(initialData)
      ensures !open ==> FieldValues() == old(FieldValues())
      ensures isLoading == old(isLoading)
    {
      if open && initialData.Some? {
        var t := initialData.value;
        taskTitle := t.title;
        description := EmptyIfNull(t.description);
        status := t.status;
        priority := t.priority;
        dueDate := EmptyIfNull(t.dueDate);
      } else if open {
        taskTitle := "";
        description := "";
        status := Todo;
        priority := Medium;
        dueDate := "";
      }
    }

    /** Typing in the title input (disabled while loading). */
    method SetTitle(value: string)
      requires !isLoading
      modifies this`taskTitle
      ensures FieldValues() == old(FieldValues()).(title := value)
    {
      taskTitle := value;
    }

    /** Typing in the description textarea (disabled while loading). */
    method SetDescription(value: string)
      requires !isLoading
      modifies this`description
      ensures FieldValues() == old(FieldValues()).(description := value)
    {
      description := value;
    }

    /** Choosing a status in the select (disabled while loading). */
    method SetStatus(value: Status)
      requires !isLoading
      modifies this`status
      ensures FieldValues() == old(FieldValues()).(status := value)
    {
      status := value;
    }

    /** Choosing a priority in the select (disabled while loading). */
    method SetPriority(value: Priority)
      requires !isLoading
      modifies this`priority
      ensures FieldValues() == old(FieldValues()).(priority := value)
    {
      priority := value;
    }

    /** Picking a date, or clearing it to "" (disabled while loading). */
    method SetDueDate(value: string)
      requires !isLoading
      modifies this`dueDate
      ensures FieldValues() == old(FieldValues()).(dueDate := value)
    {
      dueDate := value;
    }

    /**
     * The first half of `handleSubmit`, up to the awaited callback: the
     * submit button is enabled and the required title is filled in; the
     * dialog goes into loading and hands over the payload.
     */
    method BeginSubmit() returns (payload: TaskForm)
      requires !isLoading && taskTitle != ""
      modifies this`isLoading
      ensures isLoading
      ensures payload == Payload(FieldValues())
      ensures payload.title != ""
    {
      isLoading := true;
      payload := Payload(FieldValues());
    }

    /**
     * The second half of `handleSubmit`, once the callback has settled. A
     * callback that resolved (whether or not its backend call failed) is
     * followed by clearing `isLoading` and asking the page to close the
     * dialog; a rejected one skips both.
     */
    method FinishSubmit(rejected: bool) returns (closeRequested: bool)
      requires isLoading
      modifies this`isLoading
      ensures closeRequested <==> !rejected
      ensures isLoading <==> rejected
      ensures FieldValues() == old(FieldValues())
    {
      closeRequested := false;
      if !rejected {
        isLoading := false;
        closeRequested := true;
      }
    }
  }
}
