/**
 * The task card: the lookup tables that turn a task's status and priority
 * into labels and style classes, the badges it shows, and the intents its
 * menu emits. Nothing here holds state.
 */
module TaskCard {
  import opened Domain

  /** `statusLabels`: the text of the status badge. */
  function StatusLabel(s: Status): (r: string)
    ensures r != []
  {
    match s
    case Todo => "To Do"
    case InProgress => "In Progress"
    case Done => "Done"
  }

  /** Upper-casing of one character, for the ASCII letters the priority keys use. */
  function UpperChar(c: char): (r: char)
    ensures 'a' <= c <= 'z' ==> 'A' <= r <= 'Z' && r as int == c as int - 32
    ensures !('a' <= c <= 'z') ==> r == c
  {
    if 'a' <= c <= 'z' then (c as int - 32) as char else c
  }

  /** `s.charAt(0).toUpperCase() + s.slice(1)` */
  function Capitalize(s: string): (r: string)
    ensures |r| == |s|
    ensures s != [] ==> r[0] == UpperChar(s[0]) && r[1..] == s[1..]
  {
    if s == [] then [] else [UpperChar(s[0])] + s[1..]
  }

  /** The text of the priority badge: the column value with its first letter capitalised. */
  function PriorityLabel(p: Priority): (r: string)
    ensures |r| == |PriorityKey(p)| && r[1..] == PriorityKey(p)[1..]
    ensures 'A' <= r[0] <= 'Z' && r[0] as int == PriorityKey(p)[0] as int - 32
  {
    Capitalize(PriorityKey(p))
  }

  /** The capitalisation gives exactly the three words the dialog's priority menu shows. */
  lemma PriorityLabels()
    ensures PriorityLabel(Low) == "Low"
    ensures PriorityLabel(Medium) == "Medium"
    ensures PriorityLabel(High) == "High"
  {
    assert PriorityLabel(Low) == [UpperChar('l')] + "ow";
    assert PriorityLabel(Medium) == [UpperChar('m')] + "edium";
    assert PriorityLabel(High) == [UpperChar('h')] + "igh";
  }

  /** Different statuses, and different priorities, never share a label. */
  lemma LabelsDistinct(a: Status, b: Status, p: Priority, q: Priority)
    ensures StatusLabel(a) == StatusLabel(b) ==> a == b
    ensures PriorityLabel(p) == PriorityLabel(q) ==> p == q
  {
    PriorityLabels();
    if StatusLabel(a) == StatusLabel(b) {
      assert StatusLabel(a)[0] == StatusLabel(b)[0];
    }
    if PriorityLabel(p) == PriorityLabel(q) {
      assert PriorityLabel(p)[0] == PriorityLabel(q)[0];
    }
  }

  /**
   * The pattern every entry of the two style tables follows: background,
   * text and border classes of one colour token. The token sits right
   * after the leading "bg-".
   */
  function StyleClasses(token: string): (r: string)
    ensures |r| > 3 + |token| && r[..3] == "bg-" && r[3..3 + |token|] == token
  {
    var r := "bg-" + token + "/10 text-" + token + " border-" + token + "/20";
    assert r == "bg-" + token + ("/10 text-" + token + " border-" + token + "/20");
    assert ("bg-" + token)[3..] == token;
    assert ("bg-" + token)[..3] == "bg-";
    r
  }

  /** `statusColors`: the entry of every status is built from the token "status-<key>". */
  function StatusStyle(s: Status): (r: string)
    ensures |r| > 10 + |StatusKey(s)| && r[3..10 + |StatusKey(s)|] == "status-" + StatusKey(s)
  {
    StyleClasses("status-" + StatusKey(s))
  }

  /** `priorityColors`: the entry of every priority is built from the token "priority-<key>". */
  function PriorityStyle(p: Priority): (r: string)
    ensures |r| > 12 + |PriorityKey(p)| && r[3..12 + |PriorityKey(p)|] == "priority-" + PriorityKey(p)
  {
    StyleClasses("priority-" + PriorityKey(p))
  }

  /** Both style tables give every enum value a style of its own. */
  lemma {:induction false} StylesDistinct(a: Status, b: Status, p: Priority, q: Priority)
    ensures StatusStyle(a) == StatusStyle(b) ==> a == b
    ensures PriorityStyle(p) == PriorityStyle(q) ==> p == q
  {
    // The character right after each prefix is the first letter of the key,
    // and the keys' first letters differ.
    assert StatusStyle(a)[10] == ("status-" + StatusKey(a))[7];
    assert StatusStyle(b)[10] == ("status-" + StatusKey(b))[7];
    assert PriorityStyle(p)[12] == ("priority-" + PriorityKey(p))[9];
    assert PriorityStyle(q)[12] == ("priority-" + PriorityKey(q))[9];
  }

  /** A badge under the card's title. The due date is kept as stored (its formatting is not modelled). */
  datatype Badge =
    | StatusBadge(text: string, style: string)
    | PriorityBadge(text: string, style: string)
    | DueDateBadge(date: string)

  /** Whether `task.due_date` is truthy: present and not the empty string. */
  predicate HasDueDate(t: Task) {
    t.dueDate.Some? && t.dueDate.value != ""
  }

  /** The badge row: status, then priority, then the due date when there is one. */
  function Badges(t: Task): (r: seq<Badge>)
    ensures 2 <= |r| <= 3
    ensures r[0] == StatusBadge(StatusLabel(t.status), StatusStyle(t.status))
    ensures r[1] == PriorityBadge(PriorityLabel(t.priority), PriorityStyle(t.priority))
    ensures |r| == 3 <==> t.dueDate.Some? && t.dueDate.value != ""
    ensures |r| == 3 ==> r[2] == DueDateBadge(t.dueDate.value)
  {
    [StatusBadge(StatusLabel(t.status), StatusStyle(t.status)),
     PriorityBadge(PriorityLabel(t.priority), PriorityStyle(t.priority))]
    + (if HasDueDate(t) then [DueDateBadge(t.dueDate.value)] else [])
  }

  /** The entries of the card's dropdown menu. */
  datatype MenuItem = EditItem | MoveTo(target: Status) | DeleteItem

  /** The menu, top to bottom. */
  const Menu: seq<MenuItem> := [EditItem, MoveTo(Todo), MoveTo(InProgress), MoveTo(Done), DeleteItem]

  function MenuText(i: MenuItem): string {
    match i
    case EditItem => "Edit"
    case MoveTo(s) => "Move to " + StatusLabel(s)
    case DeleteItem => "Delete"
  }

  /** What the card reports to its page: `onEdit`, `onDelete` or `onStatusChange(status)`. */
  datatype CardIntent = EditIntent | DeleteIntent | StatusChange(status: Status)

  /** The callback a menu item calls when chosen. */
  function Intent(i: MenuItem): (e: CardIntent)
    ensures e.StatusChange? <==> i.MoveTo?
    ensures i.MoveTo? ==> e.status == i.target
    ensures e == EditIntent <==> i == EditItem
  {
    match i
    case EditItem => EditIntent
    case MoveTo(s) => StatusChange(s)
    case DeleteItem => DeleteIntent
  }

  /**
   * For every status the menu has exactly one item that moves the task
   * there; it is labelled with that status's label and emits exactly it.
   */
  lemma MoveToItemUnique(s: Status)
    ensures exists k :: 0 <= k < |Menu| && Menu[k] == MoveTo(s)
    ensures forall k, j ::
              (0 <= k < |Menu| && 0 <= j < |Menu| &&
               Intent(Menu[k]) == StatusChange(s) && Intent(Menu[j]) == StatusChange(s)) ==> k == j
    ensures forall k :: 0 <= k < |Menu| && Intent(Menu[k]) == StatusChange(s) ==>
              MenuText(Menu[k]) == "Move to " + StatusLabel(s)
  {
    var k := match s case Todo => 1 case InProgress => 2 case Done => 3;
    assert Menu[k] == MoveTo(s);
  }
}
