/**
 * The dashboard: the per-project `task_counts` derived from each project's
 * task statuses, and the page's state machine (the project list, the edit
 * and delete candidates, the two dialog flags, `loading`) with its handlers.
 */
module Dashboard {
  import opened Domain
  import ProjectCard
  import ProjectDialog

  // ---------------------------------------------------------------------
  // Counting
  // ---------------------------------------------------------------------

  /** `rows.filter(t => t.status === s).length` over the `status` column of one project's tasks. */
  function StatusCount(rows: seq<Status>, s: Status): (n: nat)
    ensures n <= |rows|
    ensures n == 0 <==> s !in rows
  {
    if rows == [] then 0
    else (if rows[0] == s then 1 else 0) + StatusCount(rows[1..], s)
  }

  /**
   * The `task_counts` object of one project. Null task data (the fetch's
   * error is never looked at) gives zero everywhere.
   */
  function CountsOf(data: Option<seq<Status>>): (c: TaskCounts)
    ensures data.None? ==> c == TaskCounts(0, 0, 0)
    ensures data.Some? ==> forall s :: c.Count(s) == StatusCount(data.value, s)
  {
    match data
    case None => TaskCounts(0, 0, 0)
    case Some(rows) => TaskCounts(StatusCount(rows, Todo), StatusCount(rows, InProgress), StatusCount(rows, Done))
  }

  /** Each row lands in exactly one of the three tallies, so they add up to the number of rows. */
  lemma {:induction false} CountsAddUp(rows: seq<Status>)
    ensures StatusCount(rows, Todo) + StatusCount(rows, InProgress) + StatusCount(rows, Done) == |rows|
  {
    if rows != [] {
      CountsAddUp(rows[1..]);
    }
  }

  /** The tally of a project adds up to the number of its tasks, and to zero without data. */
  lemma CountsOfTotal(data: Option<seq<Status>>)
    ensures CountsOf(data).todo + CountsOf(data).inProgress + CountsOf(data).done
            == (if data.Some? then |data.value| else 0)
  {
    if data.Some? {
      CountsAddUp(data.value);
    }
  }

  /**
   * The `map` of `fetchProjects`: the same projects in the same order, each
   * with its own fields and the tally of its own task rows.
   */
  function WithCounts(projects: seq<Project>, taskData: seq<Option<seq<Status>>>): (r: seq<ProjectView>)
    requires |taskData| == |projects|
    ensures |r| == |projects|
    ensures forall i :: 0 <= i < |r| ==>
              r[i].project == projects[i] && r[i].taskCounts == Some(CountsOf(taskData[i]))
  {
    if projects == [] then []
    else [ProjectView(projects[0], Some(CountsOf(taskData[0])))] + WithCounts(projects[1..], taskData[1..])
  }

  // ---------------------------------------------------------------------
  // Calls to the backend
  // ---------------------------------------------------------------------

  /** The row inserted by `handleCreateProject`. */
  datatype NewProjectRow = NewProjectRow(name: string, description: Option<string>, userId: Option<string>)

  /** The columns `handleUpdateProject` sets: name and description, nothing else. */
  datatype ProjectPatch = ProjectPatch(name: string, description: Option<string>)

  /** A mutation of the `projects` table. */
  datatype ProjectCall =
    | InsertProject(row: NewProjectRow)
    | UpdateProject(id: string, patch: ProjectPatch)
    | DeleteProject(id: string)

  /** A read issued by `fetchProjects`: the project list, then one status query per project. */
  datatype Query = ListProjects | TaskStatuses(projectId: string)

  datatype SubmitHandler = CreateHandler | UpdateHandler

  /** One status query per project, in the projects' order. */
  function CountQueries(projects: seq<Project>): (q: seq<Query>)
    ensures |q| == |projects|
    ensures forall i :: 0 <= i < |q| ==> q[i] == TaskStatuses(projects[i].id)
  {
    if projects == [] then [] else [TaskStatuses(projects[0].id)] + CountQueries(projects[1..])
  }

  /** The patch `handleUpdateProject` sends: the name, and the description with "" as null. */
  function EditPatch(data: ProjectForm): (p: ProjectPatch)
    ensures p.name == data.name
    ensures p.description.None? <==> data.description == ""
    ensures p.description.Some? ==> p.description.value == data.description
  {
    ProjectPatch(data.name, NullIfEmpty(data.description))
  }

  /**
   * Opening the dialog on a project and saving it untouched sends back the
   * project's own name and description, except that an empty description is
   * sent as null; it is an exact round trip precisely when it is not "".
   */
  lemma UneditedSaveRoundTrip(p: Project)
    ensures EditPatch(ProjectDialog.Payload(ProjectDialog.Prefill(Some(p))))
            == ProjectPatch(p.name, Normalized(p.description))
    ensures EditPatch(ProjectDialog.Payload(ProjectDialog.Prefill(Some(p)))) == ProjectPatch(p.name, p.description)
            <==> p.description != Some("")
  {
    ProjectDialog.PrefillThenSubmit(p);
  }

  // ---------------------------------------------------------------------
  // The page
  // ---------------------------------------------------------------------

  class Page {
    /** The signed-in user's id (`user?.id`). */
    const userId: Option<string>

    var projects: seq<ProjectView>
    var loading: bool
    var dialogOpen: bool
    var editingProject: Option<ProjectView>
    var deleteDialogOpen: bool
    var projectToDelete: Option<string>

    /**
     * What every interaction keeps true: an edit candidate only exists while
     * the project dialog is open, and the confirm dialog is only open with a
     * delete candidate.
     */
    ghost predicate Valid()
      reads this
    {
      (editingProject.Some? ==> dialogOpen) && (deleteDialogOpen ==> projectToDelete.Some?)
    }

    constructor (userId: Option<string>)
      ensures Valid()
      ensures this.userId == userId
      ensures projects == [] && loading
      ensures !dialogOpen && editingProject.None? && !deleteDialogOpen && projectToDelete.None?
    {
      this.userId := userId;
      projects := [];
      loading := true;
      dialogOpen := false;
      editingProject := None;
      deleteDialogOpen := false;
      projectToDelete := None;
    }

    /**
     * `fetchProjects`. `taskData[i]` is the `data` of the status query for
     * the i-th fetched project (null when that query failed). A failed
     * project fetch shows its message and keeps the list; otherwise the list
     * becomes the fetched projects with their tallies. `loading` ends false.
     */
    method FetchProjects(projectsReply: Fetch<Option<seq<Project>>>, taskData: seq<Option<seq<Status>>>)
      returns (queries: seq<Query>, toast: Option<Toast>)
      requires projectsReply.Fetched? ==> |taskData| == |RowsOrEmpty(projectsReply.data)|
      modifies this`projects, this`loading
      ensures !loading
      ensures projectsReply.FetchError? ==>
                projects == old(projects) && queries == [ListProjects] &&
                toast == Some(ErrorToast(projectsReply.message))
      ensures projectsReply.Fetched? ==>
                projects == WithCounts(RowsOrEmpty(projectsReply.data), taskData) &&
                queries == [ListProjects] + CountQueries(RowsOrEmpty(projectsReply.data)) &&
                toast.None?
    {
      queries := [ListProjects];
      toast := None;
      if projectsReply.FetchError? {
        toast := Some(ErrorToast(projectsReply.message));
      } else {
        var rows := RowsOrEmpty(projectsReply.data);
        queries := queries + CountQueries(rows);
        projects := WithCounts(rows, taskData);
      }
      loading := false;
    }

    /** `handleCreateProject`: inserts the dialog's values for the signed-in user; touches no page state. */
    method HandleCreateProject(data: ProjectForm, reply: Outcome) returns (fx: Effects<ProjectCall>)
      ensures fx.call == Some(InsertProject(NewProjectRow(data.name, NullIfEmpty(data.description), userId)))
      ensures fx.refetch <==> reply.Ok?
      ensures fx.toast == Some(if reply.Ok? then SuccessToast("Project created successfully")
                               else ErrorToast(reply.message))
    {
      fx := Settle(InsertProject(NewProjectRow(data.name, NullIfEmpty(data.description), userId)),
                   reply, "Project created successfully");
    }

    /**
     * `handleUpdateProject`: without an edit candidate it returns before any
     * call; otherwise it updates the candidate's name and description, and
     * clears the candidate only on success.
     */
    method HandleUpdateProject(data: ProjectForm, reply: Outcome) returns (fx: Effects<ProjectCall>)
      requires Valid()
      modifies this`editingProject
      ensures Valid()
      ensures old(editingProject).None? ==> fx == NoEffects() && editingProject.None?
      ensures old(editingProject).Some? ==>
                fx.call == Some(UpdateProject(old(editingProject).value.project.id, EditPatch(data))) &&
                (fx.refetch <==> reply.Ok?) &&
                fx.toast == Some(if reply.Ok? then SuccessToast("Project updated successfully")
                                 else ErrorToast(reply.message)) &&
                editingProject == (if reply.Ok? then None else old(editingProject))
    {
      if editingProject.None? {
        return NoEffects();
      }
      fx := Settle(UpdateProject(editingProject.value.project.id, EditPatch(data)), reply,
                   "Project updated successfully");
      if reply.Ok? {
        editingProject := None;
      }
    }

    /**
     * `handleDeleteProject`: without a candidate (null, or the falsy id "")
     * it does nothing; otherwise it deletes the candidate, and on success
     * clears it and closes the confirm dialog; on failure both stay as they
     * were.
     */
    method HandleDeleteProject(reply: Outcome) returns (fx: Effects<ProjectCall>)
      requires Valid()
      modifies this`projectToDelete, this`deleteDialogOpen
      ensures Valid()
      ensures !Truthy(old(projectToDelete)) ==>
                fx == NoEffects() && projectToDelete == old(projectToDelete) &&
                deleteDialogOpen == old(deleteDialogOpen)
      ensures Truthy(old(projectToDelete)) ==>
                fx.call == Some(DeleteProject(old(projectToDelete).value)) &&
                (fx.refetch <==> reply.Ok?) &&
                fx.toast == Some(if reply.Ok? then SuccessToast("Project deleted successfully")
                                 else ErrorToast(reply.message))
      ensures Truthy(old(projectToDelete)) && reply.Ok? ==> projectToDelete.None? && !deleteDialogOpen
      ensures reply.Err? ==> projectToDelete == old(projectToDelete) && deleteDialogOpen == old(deleteDialogOpen)
    {
      if !Truthy(projectToDelete) {
        return NoEffects();
      }
      fx := Settle(DeleteProject(projectToDelete.value), reply, "Project deleted successfully");
      if reply.Ok? {
        projectToDelete := None;
        deleteDialogOpen := false;
      }
    }

    /** The handler bound to the dialog's `onSubmit`: update exactly when a project is being edited. */
    function ActiveSubmitHandler(): (h: SubmitHandler)
      reads this
      ensures h == UpdateHandler <==> editingProject.Some?
    {
      if editingProject.Some? then UpdateHandler else CreateHandler
    }

    /** The dialog's title follows the same choice. */
    function DialogTitle(): (title: string)
      reads this
      ensures title == (if ActiveSubmitHandler() == UpdateHandler then "Edit Project" else "Create New Project")
    {
      if editingProject.Some? then "Edit Project" else "Create New Project"
    }

    /** The dialog's `onSubmit`: dispatches to the update handler exactly when a project is being edited. */
    method SubmitDialog(data: ProjectForm, reply: Outcome) returns (fx: Effects<ProjectCall>)
      requires Valid()
      modifies this`editingProject
      ensures Valid()
      ensures fx.call.Some?
      ensures fx.call.value.UpdateProject? <==> old(editingProject).Some?
      ensures fx.call.value.InsertProject? <==> old(editingProject).None?
      ensures old(editingProject).Some? ==>
                fx.call.value == UpdateProject(old(editingProject).value.project.id, EditPatch(data))
      ensures editingProject == (if old(editingProject).Some? && reply.Ok? then None else old(editingProject))
    {
      if editingProject.Some? {
        fx := HandleUpdateProject(data, reply);
      } else {
        fx := HandleCreateProject(data, reply);
      }
    }

    /** "New Project" (or the empty state's "Create Project"): opens the dialog, in create mode if it was closed. */
    method OpenNewProjectDialog()
      requires Valid()
      modifies this`dialogOpen
      ensures Valid() && dialogOpen
      ensures !old(dialogOpen) ==> ActiveSubmitHandler() == CreateHandler
    {
      dialogOpen := true;
    }

    /** A card's `onEdit`: the project becomes the edit candidate and the dialog opens. */
    method EditProject(p: ProjectView)
      requires Valid()
      modifies this`editingProject, this`dialogOpen
      ensures Valid()
      ensures editingProject == Some(p) && dialogOpen
      ensures ActiveSubmitHandler() == UpdateHandler
    {
      editingProject := Some(p);
      dialogOpen := true;
    }

    /** A card's `onDelete`: the project's id becomes the delete candidate and the confirm dialog opens. */
    method RequestDelete(p: ProjectView)
      requires Valid()
      modifies this`projectToDelete, this`deleteDialogOpen
      ensures Valid()
      ensures projectToDelete == Some(p.project.id) && deleteDialogOpen
    {
      projectToDelete := Some(p.project.id);
      deleteDialogOpen := true;
    }

    /** The project dialog's `onOpenChange`: closing it also drops the edit candidate. */
    method DialogOpenChange(open: bool)
      requires Valid()
      modifies this`dialogOpen, this`editingProject
      ensures Valid()
      ensures dialogOpen == open
      ensures editingProject == (if open then old(editingProject) else None)
    {
      dialogOpen := open;
      if !open {
        editingProject := None;
      }
    }

    /** The confirm dialog's `onOpenChange(false)`: it only closes; the delete candidate is kept. */
    method DismissDeleteDialog()
      requires Valid()
      modifies this`deleteDialogOpen
      ensures Valid()
      ensures !deleteDialogOpen && projectToDelete == old(projectToDelete)
    {
      deleteDialogOpen := false;
    }

    /**
     * The wiring of a card's clicks: the body selects (navigates to the
     * project's page), the menu items edit or ask to delete, the trigger
     * only opens the menu. No click does two of these.
     */
    method CardClick(p: ProjectView, target: ProjectCard.ClickTarget) returns (navigateTo: Option<string>)
      requires Valid()
      modifies this`editingProject, this`dialogOpen, this`projectToDelete, this`deleteDialogOpen
      ensures Valid()
      ensures navigateTo.Some? <==> target == ProjectCard.CardBody
      ensures navigateTo.Some? ==> navigateTo.value == "/project/" + p.project.id
      ensures target == ProjectCard.EditItem ==>
                editingProject == Some(p) && dialogOpen &&
                projectToDelete == old(projectToDelete) && deleteDialogOpen == old(deleteDialogOpen)
      ensures target == ProjectCard.DeleteItem ==>
                projectToDelete == Some(p.project.id) && deleteDialogOpen &&
                editingProject == old(editingProject) && dialogOpen == old(dialogOpen)
      ensures target == ProjectCard.CardBody || target == ProjectCard.MenuTrigger ==>
                editingProject == old(editingProject) && dialogOpen == old(dialogOpen) &&
                projectToDelete == old(projectToDelete) && deleteDialogOpen == old(deleteDialogOpen)
    {
      var intents := ProjectCard.ClickIntents(target);
      navigateTo := None;
      if ProjectCard.SelectIntent in intents {
        navigateTo := Some("/project/" + p.project.id);
      }
      if ProjectCard.EditIntent in intents {
        EditProject(p);
      }
      if ProjectCard.DeleteIntent in intents {
        RequestDelete(p);
      }
    }
  }

  /**
   * Deleting a project through the confirm dialog on a fresh page. The
   * dialog's Delete button closes the dialog as it runs the handler, so the
   * dialog is closed afterwards whatever the reply. A project with a real
   * (non-empty) id gets exactly one delete call, a re-fetch iff it
   * succeeded, and keeps its candidate only after a failure; the falsy id ""
   * makes no call at all.
   */
  method ConfirmDelete(userId: Option<string>, p: ProjectView, reply: Outcome)
    returns (fx: Effects<ProjectCall>, candidateAfter: Option<string>, dialogOpenAfter: bool)
    ensures p.project.id != "" ==> fx.call == Some(DeleteProject(p.project.id)) && (fx.refetch <==> reply.Ok?)
    ensures p.project.id == "" ==> fx == NoEffects() && candidateAfter == Some("")
    ensures p.project.id != "" ==> candidateAfter == (if reply.Ok? then None else Some(p.project.id))
    ensures !dialogOpenAfter
  {
    var page := new Page(userId);
    var _ := page.CardClick(p, ProjectCard.DeleteItem);
    page.DismissDeleteDialog();
    fx := page.HandleDeleteProject(reply);
    candidateAfter, dialogOpenAfter := page.projectToDelete, page.deleteDialogOpen;
  }

  /**
   * Editing a project and saving without changes, on a fresh page and
   * dialog: the update carries the project's own name and description (an
   * empty one as null), and afterwards the dialog is closed with no
   * candidate.
   */
  method EditAndSaveUnchanged(userId: Option<string>, p: ProjectView, reply: Outcome)
    returns (fx: Effects<ProjectCall>, editingAfter: Option<ProjectView>, dialogOpenAfter: bool)
    requires p.project.name != ""
    ensures fx.call == Some(UpdateProject(p.project.id, ProjectPatch(p.project.name, Normalized(p.project.description))))
    ensures editingAfter.None? && !dialogOpenAfter
  {
    var page := new Page(userId);
    var dialog := new ProjectDialog.Dialog();
    var _ := page.CardClick(p, ProjectCard.EditItem);
    dialog.OpenEffect(page.dialogOpen, if page.editingProject.Some? then Some(page.editingProject.value.project) else None);
    var data := dialog.BeginSubmit();
    fx := page.SubmitDialog(data, reply);
    var close := dialog.FinishSubmit(false);
    if close {
      page.DialogOpenChange(false);
    }
    UneditedSaveRoundTrip(p.project);
    editingAfter, dialogOpenAfter := page.editingProject, page.dialogOpen;
  }
}
