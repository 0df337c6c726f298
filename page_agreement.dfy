/**
 * What the two pages and the project card agree on: the tally the
 * dashboard computes from a project's status column is the count the detail
 * page's tabs show for the same tasks, and the card's total and badges
 * follow from the fetched rows.
 */
module PageAgreement {
  import opened Domain
  import Dashboard
  import ProjectDetail
  import ProjectCard

  /** The `status` column of a list of tasks, as the dashboard's query selects it. */
  function Statuses(tasks: seq<Task>): (r: seq<Status>)
    ensures |r| == |tasks|
    ensures forall i :: 0 <= i < |tasks| ==> r[i] == tasks[i].status
  {
    seq(|tasks|, i requires 0 <= i < |tasks| => tasks[i].status)
  }

  lemma {:induction false} StatusCountAppend(rows: seq<Status>, x: Status, s: Status)
    ensures Dashboard.StatusCount(rows + [x], s) == Dashboard.StatusCount(rows, s) + (if x == s then 1 else 0)
  {
    if rows != [] {
      assert (rows + [x])[1..] == rows[1..] + [x];
      StatusCountAppend(rows[1..], x, s);
    }
  }

  /**
   * For the same tasks, the dashboard's tally of a status equals the size of
   * the detail page's group for it (the number on that status's tab).
   */
  lemma {:induction false} TallyMatchesTab(tasks: seq<Task>, s: Status)
    ensures Dashboard.StatusCount(Statuses(tasks), s) == |ProjectDetail.TasksByStatus(tasks, s)|
  {
    if tasks != [] {
      var n := |tasks| - 1;
      TallyMatchesTab(tasks[..n], s);
      assert Statuses(tasks) == Statuses(tasks[..n]) + [tasks[n].status];
      StatusCountAppend(Statuses(tasks[..n]), tasks[n].status, s);
    }
  }

  /** The whole `task_counts` object agrees with the three status tabs. */
  lemma CountsMatchTabs(tasks: seq<Task>)
    ensures forall s :: Dashboard.CountsOf(Some(Statuses(tasks))).Count(s)
                        == ProjectDetail.TabCount(tasks, ProjectDetail.StatusTab(s))
  {
    forall s
      ensures Dashboard.CountsOf(Some(Statuses(tasks))).Count(s)
              == ProjectDetail.TabCount(tasks, ProjectDetail.StatusTab(s))
    {
      TallyMatchesTab(tasks, s);
    }
  }

  /**
   * On the dashboard, the i-th card's total is the number of task rows
   * fetched for that project (zero when its query gave no data); a status
   * badge shows exactly when some row has that status; the badge row shows
   * exactly when the project has a task.
   */
  lemma CardReflectsRows(projects: seq<Project>, taskData: seq<Option<seq<Status>>>, i: nat)
    requires |taskData| == |projects| && i < |projects|
    ensures ProjectCard.TotalTasks(Dashboard.WithCounts(projects, taskData)[i].taskCounts)
            == (if taskData[i].Some? then |taskData[i].value| else 0)
    ensures forall s :: ProjectCard.StatusBadgeGuard(Dashboard.WithCounts(projects, taskData)[i], s)
                        <==> taskData[i].Some? && s in taskData[i].value
    ensures ProjectCard.BadgeRowShown(Dashboard.WithCounts(projects, taskData)[i])
            <==> taskData[i].Some? && taskData[i].value != []
  {
    Dashboard.CountsOfTotal(taskData[i]);
  }
}
