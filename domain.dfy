/**
 * Entities shared by the pages, the dialogs and the cards: the rows of the
 * two hosted tables (`projects`, `tasks`), the three-valued status and
 * priority enums, the payloads a dialog hands to its page, and what a call
 * to the hosted backend can answer.
 */
module Domain {

  datatype Option<T> = None | Some(value: T)

  /** The `status` column of a task. */
  datatype Status = Todo | InProgress | Done

  /** The `priority` column of a task. */
  datatype Priority = Low | Medium | High

  /** The value stored in the `status` column, also the key of every lookup table. */
  function StatusKey(s: Status): string {
    match s
    case Todo => "todo"
    case InProgress => "in-progress"
    case Done => "done"
  }

  /** The value stored in the `priority` column. */
  function PriorityKey(p: Priority): string {
    match p
    case Low => "low"
    case Medium => "medium"
    case High => "high"
  }

  /** A row of `tasks` as the detail page holds it (nullable columns are `Option`s). */
  datatype Task = Task(
    id: string,
    title: string,
    description: Option<string>,
    status: Status,
    priority: Priority,
    dueDate: Option<string>)

  /** A row of `projects` as the pages hold it. */
  datatype Project = Project(id: string, name: string, description: Option<string>)

  /** The per-project tally: exactly one entry per status. */
  datatype TaskCounts = TaskCounts(todo: nat, inProgress: nat, done: nat) {
    function Count(s: Status): nat {
      match s
      case Todo => todo
      case InProgress => inProgress
      case Done => done
    }
  }

  /** A project as the dashboard lists it: the fetched row plus the optional `task_counts`. */
  datatype ProjectView = ProjectView(project: Project, taskCounts: Option<TaskCounts>)

  /** What the task dialog hands to its page's submit handler. */
  datatype TaskForm = TaskForm(
    title: string,
    description: string,
    status: Status,
    priority: Priority,
    dueDate: Option<string>)

  /** What the project dialog hands to its page's submit handler. */
  datatype ProjectForm = ProjectForm(name: string, description: string)

  /** The answer of a mutation call: success, or the error object's message. */
  datatype Outcome = Ok | Err(message: string)

  /** The answer of a read call: the `data` field, or the error object's message. */
  datatype Fetch<T> = Fetched(data: T) | FetchError(message: string)

  /** A notification: title, description and whether it is the `destructive` variant. */
  datatype Toast = Toast(title: string, description: string, destructive: bool)

  function ErrorToast(message: string): Toast {
    Toast("Error", message, true)
  }

  function SuccessToast(description: string): Toast {
    Toast("Success", description, false)
  }

  /**
   * What one mutation handler does: the backend call it makes (if any), the
   * notification it shows (if any), and whether it starts a full re-fetch.
   */
  datatype Effects<M> = Effects(call: Option<M>, toast: Option<Toast>, refetch: bool)

  /** A handler that returned before calling the backend. */
  function NoEffects<M>(): Effects<M> {
    Effects(None, None, false)
  }

  /**
   * The uniform tail of every mutation handler: the call is made; success
   * shows `successText` and re-fetches, failure shows the error's message
   * and leaves everything else alone.
   */
  function Settle<M>(call: M, reply: Outcome, successText: string): (fx: Effects<M>)
    ensures fx.call == Some(call)
    ensures fx.refetch <==> reply.Ok?
    ensures fx.toast.Some? && (fx.toast.value.destructive <==> reply.Err?)
    ensures reply.Ok? ==> fx.toast == Some(SuccessToast(successText))
    ensures reply.Err? ==> fx.toast == Some(ErrorToast(reply.message))
  {
    match reply
    case Ok => Effects(Some(call), Some(SuccessToast(successText)), true)
    case Err(m) => Effects(Some(call), Some(ErrorToast(m)), false)
  }

  /** JavaScript truthiness of a nullable string: neither null nor "". */
  predicate Truthy(o: Option<string>) {
    o.Some? && o.value != ""
  }

  /** JavaScript's `s || null` on a string: the empty string is falsy. */
  function NullIfEmpty(s: string): (r: Option<string>)
    ensures r.None? <==> s == ""
    ensures r.Some? ==> r.value == s
  {
    if s == "" then None else Some(s)
  }

  /** JavaScript's `o || ""` on a nullable string. */
  function EmptyIfNull(o: Option<string>): (r: string)
    ensures r == "" <==> o.None? || o == Some("")
    ensures o.Some? ==> r == o.value
  {
    match o
    case None => ""
    case Some(s) => s
  }

  /** `data || []` on a query's rows: null data reads as no rows. */
  function RowsOrEmpty<T>(data: Option<seq<T>>): (r: seq<T>)
    ensures data.Some? ==> r == data.value
    ensures data.None? ==> r == []
  {
    match data
    case None => []
    case Some(rows) => rows
  }

  /**
   * A nullable text after a trip through a form field and back
   * (`o || ""`, then `s || null`): every value survives except the empty
   * string, which comes back as null.
   */
  function Normalized(o: Option<string>): (r: Option<string>)
    ensures r == (if o == Some("") then None else o)
    ensures r == o <==> o != Some("")
  {
    NullIfEmpty(EmptyIfNull(o))
  }
}
