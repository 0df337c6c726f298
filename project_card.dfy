/**
 * The project card: the total of a project's task counts, which status
 * badges it shows, and which intents a click on the card fires.
 */
module ProjectCard {
  import opened Domain

  /** `project.task_counts?.[s] || 0`: a missing tally counts as zero. */
  function CountOrZero(counts: Option<TaskCounts>, s: Status): nat {
    match counts
    case None => 0
    case Some(c) => c.Count(s)
  }

  /** `totalTasks`: the sum of the three entries, each missing one counting as zero. */
  function TotalTasks(counts: Option<TaskCounts>): (n: nat)
    ensures counts.None? ==> n == 0
    ensures forall s :: CountOrZero(counts, s) <= n
    ensures n == 0 <==> forall s :: CountOrZero(counts, s) == 0
  {
    CountOrZero(counts, Todo) + CountOrZero(counts, InProgress) + CountOrZero(counts, Done)
  }

  /** `totalTasks > 0`: whether the badge row is rendered at all. */
  predicate BadgeRowShown(p: ProjectView) {
    TotalTasks(p.taskCounts) > 0
  }

  /** `project.task_counts && project.task_counts[s] > 0` */
  predicate StatusBadgeGuard(p: ProjectView, s: Status) {
    p.taskCounts.Some? && p.taskCounts.value.Count(s) > 0
  }

  /** One status badge: the status and the count it displays. */
  datatype Badge = Badge(status: Status, count: nat)

  function BadgeIf(p: ProjectView, s: Status): seq<Badge> {
    if StatusBadgeGuard(p, s) then [Badge(s, p.taskCounts.value.Count(s))] else []
  }

  /**
   * The badges the card renders, in the order todo, in progress, done:
   * none when the row is hidden, otherwise one per status whose count is
   * positive.
   */
  function Badges(p: ProjectView): (r: seq<Badge>)
    ensures |r| <= 3
    ensures r != [] <==> BadgeRowShown(p)
    ensures p.taskCounts.None? ==> r == []
    ensures forall b :: b in r ==> b.count > 0 && b.count == CountOrZero(p.taskCounts, b.status)
    ensures forall s :: (exists b :: b in r && b.status == s) <==> CountOrZero(p.taskCounts, s) > 0
  {
    if !BadgeRowShown(p) then []
    else
      var r := BadgeIf(p, Todo) + BadgeIf(p, InProgress) + BadgeIf(p, Done);
      assert forall s :: CountOrZero(p.taskCounts, s) > 0 ==> Badge(s, CountOrZero(p.taskCounts, s)) in r;
      r
  }

  function BadgeSum(bs: seq<Badge>): nat {
    if bs == [] then 0 else bs[0].count + BadgeSum(bs[1..])
  }

  lemma {:induction false} BadgeSumAppend(a: seq<Badge>, b: seq<Badge>)
    ensures BadgeSum(a + b) == BadgeSum(a) + BadgeSum(b)
  {
    if a == [] {
      assert a + b == b;
    } else {
      assert (a + b)[1..] == a[1..] + b;
      BadgeSumAppend(a[1..], b);
    }
  }

  /**
   * Hiding the zero entries loses nothing: the numbers on the badges add
   * up to the card's total.
   */
  lemma {:induction false} BadgesAddUpToTotal(p: ProjectView)
    ensures BadgeSum(Badges(p)) == TotalTasks(p.taskCounts)
  {
    if BadgeRowShown(p) {
      BadgeSumAppend(BadgeIf(p, Todo), BadgeIf(p, InProgress));
      BadgeSumAppend(BadgeIf(p, Todo) + BadgeIf(p, InProgress), BadgeIf(p, Done));
      forall s ensures BadgeSum(BadgeIf(p, s)) == CountOrZero(p.taskCounts, s) {
        if StatusBadgeGuard(p, s) {
          assert BadgeIf(p, s)[1..] == [];
        }
      }
    }
  }

  /** Where on the card a click lands. */
  datatype ClickTarget = CardBody | MenuTrigger | EditItem | DeleteItem

  /** What the card reports to its page: `onSelect`, `onEdit` or `onDelete`. */
  datatype CardIntent = SelectIntent | EditIntent | DeleteIntent

  /** The target's own handler: the trigger only opens the menu, which is not reported. */
  function OwnIntents(t: ClickTarget): seq<CardIntent> {
    match t
    case CardBody => []
    case MenuTrigger => []
    case EditItem => [EditIntent]
    case DeleteItem => [DeleteIntent]
  }

  /** The trigger and both menu items call `e.stopPropagation()`. */
  predicate StopsPropagation(t: ClickTarget) {
    t != CardBody
  }

  /**
   * The intents one click fires: the target's own handler, then the card's
   * `onClick` (which is `onSelect`) unless the click was stopped on the way.
   */
  function ClickIntents(t: ClickTarget): (r: seq<CardIntent>)
    ensures |r| <= 1
    ensures SelectIntent in r <==> t == CardBody
    ensures EditIntent in r <==> t == EditItem
    ensures DeleteIntent in r <==> t == DeleteItem
  {
    OwnIntents(t) + (if StopsPropagation(t) then [] else [SelectIntent])
  }
}
