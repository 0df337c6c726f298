# Task Flow: a Dafny model of the client-side logic

Task Flow is a browser front end for managing projects and their tasks.
Every row lives in a hosted database: a `projects` table and a `tasks`
table. Each task has a status (`todo`, `in-progress`, `done`) and a
priority (`low`, `medium`, `high`). The client itself holds very little
logic, and this project models and proves that logic:

- **Grouping and counting.** The detail page filters its tasks by status
  to fill its tabs and count them. The dashboard tallies each project's
  task statuses into `task_counts`. The project card sums the tally and
  picks which badges to show.
- **Form dialogs.** The task dialog and the project dialog are small
  state machines. When a dialog opens, it is prefilled from the entity
  being edited or reset to blanks. On submit, it raises `isLoading`, hands a
  payload to the page, then lowers `isLoading` and asks to close.
- **Page state machines.** The two pages hold the fetched list, an edit
  candidate, a delete candidate, the dialog flags and `loading`. Each
  handler builds one backend call from the dialog's payload and reacts to
  the call's outcome.
- **Lookup tables.** The task card maps status and priority to labels and
  style classes, and its menu emits one intent per entry.

The backend is not modelled. Every call becomes an input to the handler
that makes it: `Outcome` (`Ok` | `Err(message)`) for a mutation, or
`Fetch<T>` (`Fetched(data)` | `FetchError(message)`) for a read. Each
handler returns an `Effects` value that records three things:

- the call it made, if any;
- the notification it shows, if any;
- whether it starts a full re-fetch.

The re-fetch itself is a separate call of the page's fetch method, with
its own replies.

Modules (one per source file, plus shared and cross-page ones):

| module | file | models |
|---|---|---|
| `Domain` | domain.dfy | the table rows, the enums, the dialog payloads, the backend's answers, and JavaScript's `x \|\| null` and `x \|\| ""` on strings |
| `TaskCard` | task_card.dfy | src/components/TaskCard.tsx |
| `ProjectCard` | project_card.dfy | src/components/ProjectCard.tsx |
| `TaskDialog` | task_dialog.dfy | src/components/TaskDialog.tsx (a class) |
| `ProjectDialog` | project_dialog.dfy | src/components/ProjectDialog.tsx (a class) |
| `ProjectDetail` | project_detail.dfy | src/pages/ProjectDetail.tsx: a pure filter, plus the page as a class |
| `Dashboard` | dashboard.dfy | src/pages/Dashboard.tsx: pure counting, plus the page as a class |
| `PageAgreement` | page_agreement.dfy | lemmas relating the dashboard's tallies and the cards to the detail page's tabs |

Each page class has an invariant `Valid()` that every interaction keeps:

- an edit candidate exists only while the form dialog is open;
- the confirm dialog is open only while there is a delete candidate.

Two consequences follow. First, "New Task" / "New Project" does not clear
the candidate, yet it always opens a create form when the dialog was
closed. Second, a null delete candidate never reaches the delete handlers
from the interface. The handlers' guard (`if (!taskToDelete) return;`)
also rejects the id "", which is falsy in JavaScript, and the model
follows that guard (`Domain.Truthy`).

Behaviour of the code worth knowing:

- Dismissing the delete confirmation only closes it
  (`onOpenChange={setDeleteDialogOpen}`); the candidate id is kept. See
  `DismissDeleteDialog`.
- On the detail page, an error from the task-list read also redirects to
  "/". Both reads share one `catch`, and by then the project has already
  been stored.
- An unedited edit is not an exact round trip. An empty description goes
  back as null, through the dialog's `|| ""` followed by the page's
  `|| null`. An empty due date also goes back as null, through the
  dialog's `|| ""` when it prefills and its own `dueDate || null` when it
  submits; the page passes the due date on unchanged.
  `UneditedSaveRoundTrip` proves that the round trip is exact precisely
  when neither value is "".
- If the submit callback rejected, the dialog's `handleSubmit` would skip
  both `setIsLoading(false)` and the close request, leaving the dialog
  open and loading. This never happens here, because every page handler
  catches its own errors. `FinishSubmit(rejected)` models both paths.

## Model

| member | source | states |
|---|---|---|
| Domain.NullIfEmpty | src/pages/ProjectDetail.tsx:100 | `s \|\| null` gives null exactly for "" and the string itself otherwise |
| Domain.EmptyIfNull | src/components/TaskDialog.tsx:41 | `o \|\| ""` gives "" exactly for null or "" and the value otherwise |
| Domain.Normalized | src/components/TaskDialog.tsx:41-62 | a nullable text sent through a form field and back is unchanged unless it was "", which comes back null |
| Domain.RowsOrEmpty | src/pages/ProjectDetail.tsx:77 | `data \|\| []`: rows are passed through as fetched, and null data becomes the empty list (also src/pages/Dashboard.tsx line 62) |
| Domain.Settle | src/pages/ProjectDetail.tsx:107-122 | after a call, success shows the success toast with the handler's text and re-fetches; failure shows the error's message in a destructive toast and does not re-fetch |
| TaskCard.StatusLabel | src/components/TaskCard.tsx:40-44 | every status has a non-empty label |
| TaskCard.UpperChar | src/components/TaskCard.tsx:91 | `toUpperCase` on one character: a lower-case ASCII letter becomes its capital (32 code points lower), any other character is kept |
| TaskCard.Capitalize | src/components/TaskCard.tsx:91 | same length, first character upper-cased, the rest unchanged |
| TaskCard.PriorityLabel | src/components/TaskCard.tsx:91 | the priority label is its key with the first letter turned into the corresponding capital |
| TaskCard.PriorityLabels | src/components/TaskCard.tsx:91 | low, medium, high read "Low", "Medium", "High" |
| TaskCard.LabelsDistinct | src/components/TaskCard.tsx:40-44 | no two statuses share a label, and no two priorities share one |
| TaskCard.StyleClasses | src/components/TaskCard.tsx:28-38 | every style entry starts with "bg-", and its colour token follows right after it |
| TaskCard.StatusStyle | src/components/TaskCard.tsx:28-32 | `statusColors` has an entry for every status, built from the token "status-" plus its key |
| TaskCard.PriorityStyle | src/components/TaskCard.tsx:34-38 | `priorityColors` has an entry for every priority, built from the token "priority-" plus its key |
| TaskCard.StylesDistinct | src/components/TaskCard.tsx:28-38 | distinct enum values get distinct style strings |
| TaskCard.Badges | src/components/TaskCard.tsx:86-98 | a status badge and a priority badge are always shown, and a due-date badge is shown iff the due date is non-null and non-empty |
| TaskCard.Intent | src/components/TaskCard.tsx:65-81 | an item emits `onStatusChange` iff it is a "Move to" item, and then with exactly its target; Edit emits `onEdit` |
| TaskCard.MoveToItemUnique | src/components/TaskCard.tsx:69-77 | for each status exactly one menu item moves there, labelled "Move to " plus that status's label |
| ProjectCard.TotalTasks | src/components/ProjectCard.tsx:29-32 | a missing tally gives 0; each entry is at most the total; the total is 0 iff every entry (missing counts as 0) is 0 |
| ProjectCard.Badges | src/components/ProjectCard.tsx:73-91 | the badges are non-empty iff the total is > 0; none for a missing tally; a badge for status s iff its count is > 0, showing that count |
| ProjectCard.BadgesAddUpToTotal | src/components/ProjectCard.tsx:29-32 | the numbers on the shown badges add up to the card's total |
| ProjectCard.ClickIntents | src/components/ProjectCard.tsx:37-63 | `onSelect` fires iff the click is on the card body; the menu trigger fires nothing; Edit and Delete fire only their own callback |
| TaskDialog.Prefill | src/components/TaskDialog.tsx:38-52 | with initial data, the fields take its values (null description or due date as ""); without it, the fields are "", "", todo, medium, "" |
| TaskDialog.Payload | src/components/TaskDialog.tsx:57-63 | title, description, status and priority are passed unchanged, and the due date is null iff the field is "" |
| TaskDialog.PrefillThenSubmit | src/components/TaskDialog.tsx:39-63 | prefill then an unedited submit returns the task's title, status and priority, its description with null as "", and its due date normalised |
| TaskDialog.Dialog.constructor | src/components/TaskDialog.tsx:31-36 | starts not loading, with blank fields |
| TaskDialog.Dialog.OpenEffect | src/components/TaskDialog.tsx:38-52 | opening sets the fields to `Prefill(initialData)`; when closed, every field is unchanged; `isLoading` is untouched |
| TaskDialog.Dialog.SetTitle | src/components/TaskDialog.tsx:80-83 | only the title changes; not possible while loading |
| TaskDialog.Dialog.SetDescription | src/components/TaskDialog.tsx:91-94 | only the description changes; not possible while loading |
| TaskDialog.Dialog.SetStatus | src/components/TaskDialog.tsx:100 | only the status changes; not possible while loading |
| TaskDialog.Dialog.SetPriority | src/components/TaskDialog.tsx:113 | only the priority changes; not possible while loading |
| TaskDialog.Dialog.SetDueDate | src/components/TaskDialog.tsx:127-133 | only the due date changes; not possible while loading |
| TaskDialog.Dialog.BeginSubmit | src/components/TaskDialog.tsx:54-63 | with a non-empty title and not loading, `isLoading` becomes true and the payload is `Payload` of the fields |
| TaskDialog.Dialog.FinishSubmit | src/components/TaskDialog.tsx:57-65 | once the callback resolves, `isLoading` is false and a close is requested; after a rejection neither happens; the fields are unchanged |
| ProjectDialog.Prefill | src/components/ProjectDialog.tsx:22-30 | with initial data, the name and the description (null as "") are copied; without it, both are "" |
| ProjectDialog.Payload | src/components/ProjectDialog.tsx:35 | name and description are passed exactly as held |
| ProjectDialog.PrefillThenSubmit | src/components/ProjectDialog.tsx:23-35 | prefill then an unedited submit returns the name, and the description with null as "" |
| ProjectDialog.Dialog.constructor | src/components/ProjectDialog.tsx:18-20 | starts not loading, with blank fields |
| ProjectDialog.Dialog.OpenEffect | src/components/ProjectDialog.tsx:22-30 | opening sets the fields to `Prefill(initialData)`; when closed, the fields are unchanged |
| ProjectDialog.Dialog.SetName | src/components/ProjectDialog.tsx:52-55 | only the name changes; not possible while loading |
| ProjectDialog.Dialog.SetDescription | src/components/ProjectDialog.tsx:62-65 | only the description changes; not possible while loading |
| ProjectDialog.Dialog.BeginSubmit | src/components/ProjectDialog.tsx:32-35 | with a non-empty name and not loading, `isLoading` becomes true and the payload is the fields |
| ProjectDialog.Dialog.FinishSubmit | src/components/ProjectDialog.tsx:35-37 | once the callback resolves, `isLoading` is false and a close is requested; after a rejection neither happens |
| ProjectDetail.TasksByStatus | src/pages/ProjectDetail.tsx:216-218 | the result holds only tasks of the list that have status s, and is no longer than the list |
| ProjectDetail.StatusPositions | src/pages/ProjectDetail.tsx:216-218 | strictly increasing positions, each holding status s, and including every position that holds s |
| ProjectDetail.TasksByStatusIsStable | src/pages/ProjectDetail.tsx:216-218 | the k-th filtered task is the task at the k-th position holding s: exactly those tasks, in their original order |
| ProjectDetail.TasksByStatusMembers | src/pages/ProjectDetail.tsx:216-218 | a task is in the group of s iff it is in the list with status s |
| ProjectDetail.TasksByStatusAppend | src/pages/ProjectDetail.tsx:216-218 | appending a task extends only its own status group |
| ProjectDetail.StatusGroupsCover | src/pages/ProjectDetail.tsx:216-218 | the three groups together hold the list's multiset of tasks |
| ProjectDetail.StatusGroupsPartition | src/pages/ProjectDetail.tsx:257-260 | the groups are disjoint, cover the list, and their sizes sum to its length |
| ProjectDetail.TabLabelsDistinct | src/pages/ProjectDetail.tsx:257-260 | two tab triggers read the same iff they are the same tab ("All Tasks" and the three status labels) |
| ProjectDetail.TabCountsAddUp | src/pages/ProjectDetail.tsx:257-289 | To Do + In Progress + Done equals All Tasks; the All tab is empty iff every status tab is |
| ProjectDetail.TabCountsExample | src/pages/ProjectDetail.tsx:257-260 | a todo, a done and an in-progress task give tab counts 3, 1, 1, 1 |
| ProjectDetail.EditPatch | src/pages/ProjectDetail.tsx:137-143 | an update sets exactly the five editable columns: dialog values, with an empty description sent as null |
| ProjectDetail.UneditedSaveRoundTrip | src/pages/ProjectDetail.tsx:137-143 | an unedited save sends the task's own values normalised, and reproduces them exactly iff neither description nor due date is "" |
| ProjectDetail.Page.constructor | src/pages/ProjectDetail.tsx:40-46 | starts loading, with nothing fetched and nothing open |
| ProjectDetail.Page.FetchProjectAndTasks | src/pages/ProjectDetail.tsx:57-88 | a failed project read skips the task read, and either error toasts and navigates to "/"; null tasks become []; `loading` ends false |
| ProjectDetail.Page.HandleCreateTask | src/pages/ProjectDetail.tsx:90-123 | inserts title, status, priority and due date as given, the description with "" as null, the route's project id and the user id; re-fetches iff the call succeeded |
| ProjectDetail.Page.HandleUpdateTask | src/pages/ProjectDetail.tsx:125-162 | no call without a candidate; otherwise updates the candidate's five columns and clears the candidate only on success |
| ProjectDetail.Page.HandleDeleteTask | src/pages/ProjectDetail.tsx:164-190 | no call, toast or state change when the candidate is null or the falsy id ""; otherwise deletes that id; on success the candidate is cleared and the dialog closed; on error both are unchanged |
| ProjectDetail.Page.HandleStatusChange | src/pages/ProjectDetail.tsx:192-214 | sends an update of that task's status alone |
| ProjectDetail.Page.ActiveSubmitHandler | src/pages/ProjectDetail.tsx:321 | the update handler is bound iff a task is being edited |
| ProjectDetail.Page.DialogTitle | src/pages/ProjectDetail.tsx:323 | "Edit Task" exactly with the update handler, otherwise "Create New Task" |
| ProjectDetail.Page.SubmitDialog | src/pages/ProjectDetail.tsx:321 | the dialog's submit makes an update for the candidate iff one exists, and an insert otherwise |
| ProjectDetail.Page.OpenNewTaskDialog | src/pages/ProjectDetail.tsx:249-252 | opens the dialog; if it was closed, the create handler is the one bound |
| ProjectDetail.Page.EditTask | src/pages/ProjectDetail.tsx:272-275 | the task becomes the edit candidate and the dialog opens |
| ProjectDetail.Page.RequestDelete | src/pages/ProjectDetail.tsx:276-279 | the task's id becomes the delete candidate and the confirmation opens |
| ProjectDetail.Page.DialogOpenChange | src/pages/ProjectDetail.tsx:317-320 | sets the open flag; closing also clears the edit candidate |
| ProjectDetail.Page.DismissDeleteDialog | src/pages/ProjectDetail.tsx:326 | closes the confirmation and keeps the candidate |
| ProjectDetail.Page.CardIntent | src/pages/ProjectDetail.tsx:269-281 | a card's edit, delete and status-change callbacks reach the edit wiring, the delete wiring and the status handler; Edit leaves the delete pair alone, Delete leaves the edit pair alone, and a status change touches no page state and toasts and re-fetches as the handler does |
| ProjectDetail.MoveToFromMenu | src/pages/ProjectDetail.tsx:280 | choosing "Move to X" sends an update of that task's status to exactly X, re-fetches iff it succeeded, and leaves the page's state unchanged |
| ProjectDetail.EditAndSaveUnchanged | src/pages/ProjectDetail.tsx:272-324 | editing a task and saving it unchanged sends its own values normalised, and leaves the dialog closed with no candidate |
| Dashboard.StatusCount | src/pages/Dashboard.tsx:69-71 | at most the number of rows, and 0 iff no row has that status |
| Dashboard.CountsOf | src/pages/Dashboard.tsx:63-72 | each entry counts the rows with its status; null data (the unchecked error) gives all zeros |
| Dashboard.CountsAddUp | src/pages/Dashboard.tsx:68-72 | the three tallies sum to the number of rows |
| Dashboard.CountsOfTotal | src/pages/Dashboard.tsx:63-72 | the tallies sum to the number of rows, or to 0 without data |
| Dashboard.WithCounts | src/pages/Dashboard.tsx:61-76 | same length and order as the fetched projects; each keeps its fields and gets its own rows' tally |
| Dashboard.CountQueries | src/pages/Dashboard.tsx:62-66 | one status query per project, for that project's id, in order |
| Dashboard.EditPatch | src/pages/Dashboard.tsx:123-126 | an update sets the name and the description (with "" as null) and nothing else |
| Dashboard.UneditedSaveRoundTrip | src/pages/Dashboard.tsx:123-126 | an unedited save sends the project's name and normalised description, exactly its own iff the description is not "" |
| Dashboard.Page.constructor | src/pages/Dashboard.tsx:34-39 | starts loading, with no projects and nothing open |
| Dashboard.Page.FetchProjects | src/pages/Dashboard.tsx:50-88 | on error the list is unchanged and the message shown; otherwise the list is the fetched projects with their tallies; `loading` ends false |
| Dashboard.Page.HandleCreateProject | src/pages/Dashboard.tsx:90-115 | inserts the name, the description with "" as null, and the user id; re-fetches iff the call succeeded |
| Dashboard.Page.HandleUpdateProject | src/pages/Dashboard.tsx:117-145 | no call without a candidate; otherwise updates only its name and description and clears the candidate only on success |
| Dashboard.Page.HandleDeleteProject | src/pages/Dashboard.tsx:147-173 | no call, toast or state change when the candidate is null or the falsy id ""; otherwise deletes that id; on success the candidate is cleared and the dialog closed; on error both are unchanged |
| Dashboard.Page.ActiveSubmitHandler | src/pages/Dashboard.tsx:242 | the update handler is bound iff a project is being edited |
| Dashboard.Page.DialogTitle | src/pages/Dashboard.tsx:244 | "Edit Project" exactly with the update handler, otherwise "Create New Project" |
| Dashboard.Page.SubmitDialog | src/pages/Dashboard.tsx:242 | the dialog's submit makes an update for the candidate iff one exists, and an insert otherwise |
| Dashboard.Page.OpenNewProjectDialog | src/pages/Dashboard.tsx:195-198 | opens the dialog; if it was closed, the create handler is the one bound |
| Dashboard.Page.EditProject | src/pages/Dashboard.tsx:222-225 | the project becomes the edit candidate and the dialog opens |
| Dashboard.Page.RequestDelete | src/pages/Dashboard.tsx:226-229 | the project's id becomes the delete candidate and the confirmation opens |
| Dashboard.Page.DialogOpenChange | src/pages/Dashboard.tsx:238-241 | sets the open flag; closing also clears the edit candidate |
| Dashboard.Page.DismissDeleteDialog | src/pages/Dashboard.tsx:247 | closes the confirmation and keeps the candidate |
| Dashboard.Page.CardClick | src/pages/Dashboard.tsx:218-230 | only a body click navigates, to "/project/<id>"; Edit sets the edit candidate and opens the form, leaving the delete pair alone; Delete sets the delete candidate and opens the confirmation, leaving the edit pair alone; the trigger changes nothing |
| Dashboard.ConfirmDelete | src/pages/Dashboard.tsx:147-173 | the confirmation is closed afterwards whatever the reply; a project with a non-empty id gets exactly one delete call for that id, a re-fetch iff it succeeded, and keeps its candidate only after a failure; the id "" makes no call |
| Dashboard.EditAndSaveUnchanged | src/pages/Dashboard.tsx:222-245 | editing a project and saving it unchanged sends its own name and description normalised, and leaves the dialog closed |
| PageAgreement.TallyMatchesTab | src/pages/Dashboard.tsx:69-71 | for the same tasks, the dashboard's tally of a status equals the size of the detail page's group for it |
| PageAgreement.CountsMatchTabs | src/pages/ProjectDetail.tsx:258-260 | the whole `task_counts` object agrees with the detail page's three status tabs |
| PageAgreement.CardReflectsRows | src/components/ProjectCard.tsx:29-89 | on the dashboard, a card's total is its project's row count, and a badge for s shows iff some row has status s |

## Left out

- Table storage, row-level ownership, ordering by `created_at` and cascade
  deletes all happen in the hosted database. Each read and write is an
  input (`Fetch`/`Outcome`); re-fetched rows are whatever the next read
  returns.
- Concurrency: `Promise.all` over the per-project queries is modelled as
  a sequential map whose replies are given in project order. The race
  where a page unmounts while a read is pending is not modelled.
- Notifications and navigation are recorded as output values, not
  delivered. `useAuth` becomes the page's `userId` constant, and the route
  parameter becomes `routeId`.
- The mount effects (`if (user && id)` / `if (user)` before the first
  fetch) are not modelled. The fetch methods are called by whoever drives
  the model.
- The due date's display format (`format(new Date(...), "MMM d, yyyy")`)
  depends on date parsing and time zones. `TaskCard.Badges` keeps the
  stored string.
- The native `required` check on the title and name inputs is browser
  behaviour. It appears only as a precondition of `BeginSubmit`.
- TaskCard.UpperChar: upper-cases the ASCII letters only, where
  `toUpperCase` is Unicode-aware. The priority keys are ASCII, so the
  labels agree.
- The confirmation's Delete button (src/pages/Dashboard.tsx:257) closes
  its dialog through `onOpenChange` as it runs the handler. This is
  UI-toolkit behaviour. `Dashboard.ConfirmDelete` composes it as
  `DismissDeleteDialog` followed by the handler; the handlers themselves
  change the dialog flag only as their own code does.
- The dialogs' Cancel buttons only call `onOpenChange(false)`. This is
  modelled as the pages' `DialogOpenChange(false)`.
- Rendering is not modelled: JSX markup, CSS classes beyond the two style
  tables, the empty-state component, the layout component with its
  sign-out button, and the text of the project card's badges (a number
  printed in decimal).
