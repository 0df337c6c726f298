/**
 * The project detail page: the status filter behind the tabs and their
 * counts, and the page's state machine (the fetched project and tasks, the
 * edit and delete candidates, the two dialog flags, `loading`) with the
 * handlers that build each backend call and react to its outcome.
 */
module ProjectDetail {
  import opened Domain
  import TaskCard
  import TaskDialog

  // ---------------------------------------------------------------------
  // Grouping by status
  // ---------------------------------------------------------------------

  /** `getTasksByStatus`: `tasks.filter(task => task.status === s)`. */
  function TasksByStatus(tasks: seq<Task>, s: Status): (r: seq<Task>)
    ensures |r| <= |tasks|
    ensures forall t :: t in r ==> t in tasks && t.status == s
  {
    if tasks == [] then []
    else
      var n := |tasks| - 1;
      assert tasks == tasks[..n] + [tasks[n]];
      TasksByStatus(tasks[..n], s) + (if tasks[n].status == s then [tasks[n]] else [])
  }

  /** The positions of the tasks with status `s`, in increasing order: the reference for the filter. */
  function StatusPositions(tasks: seq<Task>, s: Status): (idx: seq<nat>)
    ensures forall k :: 0 <= k < |idx| ==> idx[k] < |tasks| && tasks[idx[k]].status == s
    ensures forall k, l :: 0 <= k < l < |idx| ==> idx[k] < idx[l]
    ensures forall i :: 0 <= i < |tasks| && tasks[i].status == s ==> i in idx
  {
    if tasks == [] then []
    else
      var n := |tasks| - 1;
      StatusPositions(tasks[..n], s) + (if tasks[n].status == s then [n] else [])
  }

  /**
   * The filter is stable: its k-th element is the task at the k-th position
   * holding status `s`, so it keeps exactly those tasks, in their order.
   */
  lemma {:induction false} TasksByStatusIsStable(tasks: seq<Task>, s: Status)
    ensures |TasksByStatus(tasks, s)| == |StatusPositions(tasks, s)|
    ensures forall k :: 0 <= k < |StatusPositions(tasks, s)| ==>
              TasksByStatus(tasks, s)[k] == tasks[StatusPositions(tasks, s)[k]]
  {
    if tasks != [] {
      var n := |tasks| - 1;
      TasksByStatusIsStable(tasks[..n], s);
      forall k | 0 <= k < |StatusPositions(tasks[..n], s)|
        ensures tasks[..n][StatusPositions(tasks[..n], s)[k]] == tasks[StatusPositions(tasks[..n], s)[k]]
      {
      }
    }
  }

  /** A task is in the group of `s` exactly when it is in the list and has status `s`. */
  lemma TasksByStatusMembers(tasks: seq<Task>, s: Status)
    ensures forall t :: t in TasksByStatus(tasks, s) <==> t in tasks && t.status == s
  {
    TasksByStatusIsStable(tasks, s);
    var idx := StatusPositions(tasks, s);
    forall t | t in tasks && t.status == s
      ensures t in TasksByStatus(tasks, s)
    {
      var i :| 0 <= i < |tasks| && tasks[i] == t;
      var k :| 0 <= k < |idx| && idx[k] == i;
      assert TasksByStatus(tasks, s)[k] == t;
    }
  }

  /** Appending a task adds it to its own group and leaves the other groups alone. */
  lemma TasksByStatusAppend(tasks: seq<Task>, t: Task, s: Status)
    ensures TasksByStatus(tasks + [t], s) == TasksByStatus(tasks, s) + (if t.status == s then [t] else [])
  {
    assert (tasks + [t])[..|tasks|] == tasks;
  }

  /**
   * Together the three groups hold every task exactly as often as the list
   * does.
   */
  lemma {:induction false} StatusGroupsCover(tasks: seq<Task>)
    ensures multiset(TasksByStatus(tasks, Todo)) + multiset(TasksByStatus(tasks, InProgress))
            + multiset(TasksByStatus(tasks, Done)) == multiset(tasks)
  {
    if tasks != [] {
      var n := |tasks| - 1;
      var init, last := tasks[..n], tasks[n];
      assert tasks == init + [last];
      StatusGroupsCover(init);
      TasksByStatusAppend(init, last, Todo);
      TasksByStatusAppend(init, last, InProgress);
      TasksByStatusAppend(init, last, Done);
    }
  }

  /**
   * The three groups partition the list: no task is in two of them, none
   * is left out, and their sizes add up to the length of the list.
   */
  lemma StatusGroupsPartition(tasks: seq<Task>)
    ensures multiset(TasksByStatus(tasks, Todo)) + multiset(TasksByStatus(tasks, InProgress))
            + multiset(TasksByStatus(tasks, Done)) == multiset(tasks)
    ensures |TasksByStatus(tasks, Todo)| + |TasksByStatus(tasks, InProgress)|
            + |TasksByStatus(tasks, Done)| == |tasks|
    ensures forall a, b, t :: a != b && t in TasksByStatus(tasks, a) ==> t !in TasksByStatus(tasks, b)
  {
    StatusGroupsCover(tasks);
    assert |multiset(tasks)| == |tasks|;
  }

  /** The tabs, left to right. */
  datatype Tab = AllTab | StatusTab(status: Status)

  /** The text of a tab's trigger, before its count. */
  function TabLabel(tab: Tab): string {
    match tab
    case AllTab => "All Tasks"
    case StatusTab(s) => TaskCard.StatusLabel(s)
  }

  /** The four tab triggers read differently, so no two tabs can be confused. */
  lemma TabLabelsDistinct(a: Tab, b: Tab)
    ensures TabLabel(a) == TabLabel(b) <==> a == b
  {
    if a.StatusTab? && b.StatusTab? {
      TaskCard.LabelsDistinct(a.status, b.status, Low, Low);
    } else if a.StatusTab? || b.StatusTab? {
      var s := if a.StatusTab? then a.status else b.status;
      assert |TaskCard.StatusLabel(s)| != |"All Tasks"|;
    }
  }

  /** The cards a tab lists: every task, or one status group. */
  function TabTasks(tasks: seq<Task>, tab: Tab): seq<Task> {
    match tab
    case AllTab => tasks
    case StatusTab(s) => TasksByStatus(tasks, s)
  }

  /** The number in parentheses on a tab's trigger. */
  function TabCount(tasks: seq<Task>, tab: Tab): nat {
    |TabTasks(tasks, tab)|
  }

  /**
   * "To Do", "In Progress" and "Done" add up to "All Tasks"; and the All
   * tab shows the empty state exactly when every status tab does.
   */
  lemma TabCountsAddUp(tasks: seq<Task>)
    ensures TabCount(tasks, StatusTab(Todo)) + TabCount(tasks, StatusTab(InProgress))
            + TabCount(tasks, StatusTab(Done)) == TabCount(tasks, AllTab)
    ensures TabTasks(tasks, AllTab) == [] <==> forall s :: TabTasks(tasks, StatusTab(s)) == []
  {
    StatusGroupsPartition(tasks);
    if tasks != [] {
      assert tasks[0] in TasksByStatus(tasks, tasks[0].status) by {
        TasksByStatusMembers(tasks, tasks[0].status);
      }
    }
  }

  /** One todo, one done and one in-progress task read "All Tasks (3)", "To Do (1)", "In Progress (1)", "Done (1)". */
  lemma TabCountsExample(a: Task, b: Task, c: Task)
    requires a.status == Todo && b.status == Done && c.status == InProgress
    ensures TabCount([a, b, c], AllTab) == 3
    ensures forall s :: TabCount([a, b, c], StatusTab(s)) == 1
  {
    forall s
      ensures |TasksByStatus([a, b, c], s)| == 1
    {
      var two := TasksByStatus([a, b], s);
      assert [a] == [] + [a];
      TasksByStatusAppend([], a, s);
      assert [a, b] == [a] + [b];
      TasksByStatusAppend([a], b, s);
      assert |two| == (if s == Todo || s == Done then 1 else 0);
      assert [a, b, c] == [a, b] + [c];
      TasksByStatusAppend([a, b], c, s);
    }
  }

  // ---------------------------------------------------------------------
  // Calls to the backend
  // ---------------------------------------------------------------------

  /** The row inserted by `handleCreateTask`. */
  datatype NewTaskRow = NewTaskRow(
    title: string,
    description: Option<string>,
    status: Status,
    priority: Priority,
    dueDate: Option<string>,
    projectId: string,
    userId: Option<string>)

  /** The columns an update sets: the five editable ones, or the status alone. */
  datatype TaskPatch =
    | FullEdit(title: string, description: Option<string>, status: Status, priority: Priority, dueDate: Option<string>)
    | StatusOnly(status: Status)

  /** A mutation of the `tasks` table. */
  datatype TaskCall = InsertTask(row: NewTaskRow) | UpdateTask(id: string, patch: TaskPatch) | DeleteTask(id: string)

  /** A read issued by `fetchProjectAndTasks`. */
  datatype Query = GetProject(id: string) | ListTasks(projectId: string)

  /** The handler the task dialog's `onSubmit` is bound to. */
  datatype SubmitHandler = CreateHandler | UpdateHandler

  /** The patch `handleUpdateTask` sends: the dialog's values, an empty description as null. */
  function EditPatch(data: TaskForm): (p: TaskPatch)
    ensures p.FullEdit?
    ensures p.title == data.title && p.status == data.status && p.priority == data.priority
    ensures p.dueDate == data.dueDate
    ensures p.description.None? <==> data.description == ""
    ensures p.description.Some? ==> p.description.value == data.description
  {
    FullEdit(data.title, NullIfEmpty(data.description), data.status, data.priority, data.dueDate)
  }

  /**
   * Opening the dialog on a task and saving it untouched sends back the
   * task's own values, except that an empty description or due date is sent
   * as null; it is an exact round trip precisely when neither is "".
   */
  lemma UneditedSaveRoundTrip(t: Task)
    ensures EditPatch(TaskDialog.Payload(TaskDialog.Prefill(Some(t))))
            == FullEdit(t.title, Normalized(t.description), t.status, t.priority, Normalized(t.dueDate))
    ensures EditPatch(TaskDialog.Payload(TaskDialog.Prefill(Some(t))))
            == FullEdit(t.title, t.description, t.status, t.priority, t.dueDate)
            <==> t.description != Some("") && t.dueDate != Some("")
  {
    TaskDialog.PrefillThenSubmit(t);
  }

  // ---------------------------------------------------------------------
  // The page
  // ---------------------------------------------------------------------

  class Page {
    /** The `:id` route parameter. */
    const routeId: string
    /** The signed-in user's id (`user?.id`). */
    const userId: Option<string>

    var project: Option<Project>
    var tasks: seq<Task>
    var loading: bool
    var dialogOpen: bool
    var editingTask: Option<Task>
    var deleteDialogOpen: bool
    var taskToDelete: Option<string>

    /**
     * What every interaction keeps true: an edit candidate only exists while
     * the task dialog is open, and the confirm dialog is only open with a
     * delete candidate.
     */
    ghost predicate Valid()
      reads this
    {
      (editingTask.Some? ==> dialogOpen) && (deleteDialogOpen ==> taskToDelete.Some?)
    }

    /** The page as first rendered: loading, nothing fetched, nothing open. */
    constructor (routeId: string, userId: Option<string>)
      ensures Valid()
      ensures this.routeId == routeId && this.userId == userId
      ensures project.None? && tasks == [] && loading
      ensures !dialogOpen && editingTask.None? && !deleteDialogOpen && taskToDelete.None?
    {
      this.routeId := routeId;
      this.userId := userId;
      project := None;
      tasks := [];
      loading := true;
      dialogOpen := false;
      editingTask := None;
      deleteDialogOpen := false;
      taskToDelete := None;
    }

    /**
     * `fetchProjectAndTasks`. The project is read first; if that fails the
     * task list is never asked for. Either failure shows its message and
     * redirects to "/". Null task data counts as no tasks. `loading` ends
     * false whatever happened.
     */
    method FetchProjectAndTasks(projectReply: Fetch<Project>, tasksReply: Fetch<Option<seq<Task>>>)
      returns (queries: seq<Query>, toast: Option<Toast>, navigateTo: Option<string>)
      modifies this`project, this`tasks, this`loading
      ensures !loading
      ensures queries == [GetProject(routeId)] + (if projectReply.Fetched? then [ListTasks(routeId)] else [])
      ensures project == (if projectReply.Fetched? then Some(projectReply.data) else old(project))
      ensures tasks == (if projectReply.Fetched? && tasksReply.Fetched? then RowsOrEmpty(tasksReply.data)
                        else old(tasks))
      ensures navigateTo.Some? <==> projectReply.FetchError? || tasksReply.FetchError?
      ensures navigateTo.Some? ==> navigateTo.value == "/"
      ensures toast == (if projectReply.FetchError? then Some(ErrorToast(projectReply.message))
                        else if tasksReply.FetchError? then Some(ErrorToast(tasksReply.message))
                        else None)
    {
      queries := [GetProject(routeId)];
      toast, navigateTo := None, None;
      if projectReply.FetchError? {
        toast := Some(ErrorToast(projectReply.message));
        navigateTo := Some("/");
      } else {
        project := Some(projectReply.data);
        queries := queries + [ListTasks(routeId)];
        if tasksReply.FetchError? {
          toast := Some(ErrorToast(tasksReply.message));
          navigateTo := Some("/");
        } else {
          tasks := RowsOrEmpty(tasksReply.data);
        }
      }
      loading := false;
    }

    /** `handleCreateTask`: inserts the dialog's values into this project; touches no page state. */
    method HandleCreateTask(data: TaskForm, reply: Outcome) returns (fx: Effects<TaskCall>)
      ensures fx.call == Some(InsertTask(NewTaskRow(data.title, NullIfEmpty(data.description), data.status,
                                                    data.priority, data.dueDate, routeId, userId)))
      ensures fx.refetch <==> reply.Ok?
      ensures fx.toast == Some(if reply.Ok? then SuccessToast("Task created successfully")
                               else ErrorToast(reply.message))
    {
      var row := NewTaskRow(data.title, NullIfEmpty(data.description), data.status, data.priority,
                            data.dueDate, routeId, userId);
      fx := Settle(InsertTask(row), reply, "Task created successfully");
    }

    /**
     * `handleUpdateTask`: without an edit candidate it returns before any
     * call; otherwise it updates the five editable columns of the candidate,
     * and clears the candidate only on success.
     */
    method HandleUpdateTask(data: TaskForm, reply: Outcome) returns (fx: Effects<TaskCall>)
      requires Valid()
      modifies this`editingTask
      ensures Valid()
      ensures old(editingTask).None? ==> fx == NoEffects() && editingTask.None?
      ensures old(editingTask).Some? ==>
                fx.call == Some(UpdateTask(old(editingTask).value.id, EditPatch(data))) &&
                (fx.refetch <==> reply.Ok?) &&
                fx.toast == Some(if reply.Ok? then SuccessToast("Task updated successfully")
                                 else ErrorToast(reply.message)) &&
                editingTask == (if reply.Ok? then None else old(editingTask))
    {
      if editingTask.None? {
        return NoEffects();
      }
      fx := Settle(UpdateTask(editingTask.value.id, EditPatch(data)), reply, "Task updated successfully");
      if reply.Ok? {
        editingTask := None;
      }
    }

    /**
     * `handleDeleteTask`: without a candidate (null, or the falsy id "") it
     * does nothing; otherwise it deletes the candidate, and on success clears
     * it and closes the confirm dialog; on failure both stay as they were.
     */
    method HandleDeleteTask(reply: Outcome) returns (fx: Effects<TaskCall>)
      requires Valid()
      modifies this`taskToDelete, this`deleteDialogOpen
      ensures Valid()
      ensures !Truthy(old(taskToDelete)) ==>
                fx == NoEffects() && taskToDelete == old(taskToDelete) && deleteDialogOpen == old(deleteDialogOpen)
      ensures Truthy(old(taskToDelete)) ==>
                fx.call == Some(DeleteTask(old(taskToDelete).value)) &&
                (fx.refetch <==> reply.Ok?) &&
                fx.toast == Some(if reply.Ok? then SuccessToast("Task deleted successfully")
                                 else ErrorToast(reply.message))
      ensures Truthy(old(taskToDelete)) && reply.Ok? ==> taskToDelete.None? && !deleteDialogOpen
      ensures reply.Err? ==> taskToDelete == old(taskToDelete) && deleteDialogOpen == old(deleteDialogOpen)
    {
      if !Truthy(taskToDelete) {
        return NoEffects();
      }
      fx := Settle(DeleteTask(taskToDelete.value), reply, "Task deleted successfully");
      if reply.Ok? {
        taskToDelete := None;
        deleteDialogOpen := false;
      }
    }

    /** `handleStatusChange`: an update of the status column alone; touches no page state. */
    method HandleStatusChange(taskId: string, newStatus: Status, reply: Outcome) returns (fx: Effects<TaskCall>)
      ensures fx.call == Some(UpdateTask(taskId, StatusOnly(newStatus)))
      ensures fx.refetch <==> reply.Ok?
      ensures fx.toast == Some(if reply.Ok? then SuccessToast("Task status updated")
                               else ErrorToast(reply.message))
    {
      fx := Settle(UpdateTask(taskId, StatusOnly(newStatus)), reply, "Task status updated");
    }

    /** The handler bound to the dialog's `onSubmit`: update exactly when a task is being edited. */
    function ActiveSubmitHandler(): (h: SubmitHandler)
      reads this
      ensures h == UpdateHandler <==> editingTask.Some?
    {
      if editingTask.Some? then UpdateHandler else CreateHandler
    }

    /** The dialog's title follows the same choice. */
    function DialogTitle(): (title: string)
      reads this
      ensures title == (if ActiveSubmitHandler() == UpdateHandler then "Edit Task" else "Create New Task")
    {
      if editingTask.Some? then "Edit Task" else "Create New Task"
    }

    /** The dialog's `onSubmit`: dispatches to the update handler exactly when a task is being edited. */
    method SubmitDialog(data: TaskForm, reply: Outcome) returns (fx: Effects<TaskCall>)
      requires Valid()
      modifies this`editingTask
      ensures Valid()
      ensures fx.call.Some?
      ensures fx.call.value.UpdateTask? <==> old(editingTask).Some?
      ensures fx.call.value.InsertTask? <==> old(editingTask).None?
      ensures old(editingTask).Some? ==> fx.call.value == UpdateTask(old(editingTask).value.id, EditPatch(data))
      ensures editingTask == (if old(editingTask).Some? && reply.Ok? then None else old(editingTask))
    {
      if editingTask.Some? {
        fx := HandleUpdateTask(data, reply);
      } else {
        fx := HandleCreateTask(data, reply);
      }
    }

    /** "New Task" (or the empty state's "Create Task"): opens the dialog, in create mode if it was closed. */
    method OpenNewTaskDialog()
      requires Valid()
      modifies this`dialogOpen
      ensures Valid() && dialogOpen
      ensures !old(dialogOpen) ==> ActiveSubmitHandler() == CreateHandler
    {
      dialogOpen := true;
    }

    /** A card's `onEdit`: the task becomes the edit candidate and the dialog opens. */
    method EditTask(task: Task)
      requires Valid()
      modifies this`editingTask, this`dialogOpen
      ensures Valid()
      ensures editingTask == Some(task) && dialogOpen
      ensures ActiveSubmitHandler() == UpdateHandler
    {
      editingTask := Some(task);
      dialogOpen := true;
    }

    /** A card's `onDelete`: the task's id becomes the delete candidate and the confirm dialog opens. */
    method RequestDelete(task: Task)
      requires Valid()
      modifies this`taskToDelete, this`deleteDialogOpen
      ensures Valid()
      ensures taskToDelete == Some(task.id) && deleteDialogOpen
    {
      taskToDelete := Some(task.id);
      deleteDialogOpen := true;
    }

    /** The task dialog's `onOpenChange`: closing it also drops the edit candidate. */
    method DialogOpenChange(open: bool)
      requires Valid()
      modifies this`dialogOpen, this`editingTask
      ensures Valid()
      ensures dialogOpen == open
      ensures editingTask == (if open then old(editingTask) else None)
    {
      dialogOpen := open;
      if !open {
        editingTask := None;
      }
    }

    /**
     * The confirm dialog's `onOpenChange(false)` (Cancel, Escape, outside
     * click): it only closes; the delete candidate is kept.
     */
    method DismissDeleteDialog()
      requires Valid()
      modifies this`deleteDialogOpen
      ensures Valid()
      ensures !deleteDialogOpen && taskToDelete == old(taskToDelete)
    {
      deleteDialogOpen := false;
    }

    /** The wiring of a card's three callbacks to the page. */
    method CardIntent(task: Task, intent: TaskCard.CardIntent, reply: Outcome) returns (fx: Effects<TaskCall>)
      requires Valid()
      modifies this`editingTask, this`dialogOpen, this`taskToDelete, this`deleteDialogOpen
      ensures Valid()
      ensures intent.StatusChange? ==> fx.call == Some(UpdateTask(task.id, StatusOnly(intent.status)))
      ensures intent.StatusChange? ==>
                (fx.refetch <==> reply.Ok?) &&
                fx.toast == Some(if reply.Ok? then SuccessToast("Task status updated") else ErrorToast(reply.message)) &&
                editingTask == old(editingTask) && dialogOpen == old(dialogOpen) &&
                taskToDelete == old(taskToDelete) && deleteDialogOpen == old(deleteDialogOpen)
      ensures !intent.StatusChange? ==> fx == NoEffects()
      ensures intent == TaskCard.EditIntent ==>
                editingTask == Some(task) && dialogOpen &&
                taskToDelete == old(taskToDelete) && deleteDialogOpen == old(deleteDialogOpen)
      ensures intent == TaskCard.DeleteIntent ==>
                taskToDelete == Some(task.id) && deleteDialogOpen &&
                editingTask == old(editingTask) && dialogOpen == old(dialogOpen)
    {
      match intent
      case EditIntent =>
        EditTask(task);
        fx := NoEffects();
      case DeleteIntent =>
        RequestDelete(task);
        fx := NoEffects();
      case StatusChange(s) =>
        fx := HandleStatusChange(task.id, s, reply);
    }
  }

  /**
   * Choosing "Move to X" on a card sends an update of that task's status
   * column to exactly X and nothing else; the page's own state is left as it
   * was until the re-fetch.
   */
  method MoveToFromMenu(page: Page, task: Task, item: TaskCard.MenuItem, reply: Outcome)
    returns (fx: Effects<TaskCall>)
    requires page.Valid() && item.MoveTo?
    modifies page
    ensures fx.call == Some(UpdateTask(task.id, StatusOnly(item.target)))
    ensures fx.refetch <==> reply.Ok?
    ensures unchanged(page)
  {
    fx := page.CardIntent(task, TaskCard.Intent(item), reply);
  }

  /**
   * Editing a task and saving without changes, on a fresh page and dialog:
   * the update sent carries the task's own values (an empty description or
   * due date as null), and afterwards the dialog is closed with no candidate.
   */
  method EditAndSaveUnchanged(routeId: string, userId: Option<string>, t: Task, reply: Outcome)
    returns (fx: Effects<TaskCall>, editingAfter: Option<Task>, dialogOpenAfter: bool)
    requires t.title != ""
    ensures fx.call == Some(UpdateTask(t.id, FullEdit(t.title, Normalized(t.description), t.status,
                                                      t.priority, Normalized(t.dueDate))))
    ensures editingAfter.None? && !dialogOpenAfter
  {
    var page := new Page(routeId, userId);
    var dialog := new TaskDialog.Dialog();
    page.EditTask(t);
    dialog.OpenEffect(page.dialogOpen, page.editingTask);
    var data := dialog.BeginSubmit();
    fx := page.SubmitDialog(data, reply);
    var close := dialog.FinishSubmit(false);
    if close {
      page.DialogOpenChange(false);
    }
    UneditedSaveRoundTrip(t);
    editingAfter, dialogOpenAfter := page.editingTask, page.dialogOpen;
  }
}
