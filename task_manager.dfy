/** The task list of the TaskManager component: task records held in component
    state, the handlers that create, edit, toggle and delete them, the filter
    that chooses what the list shows, and the counts shown above it.

    Dates are JavaScript Date values: milliseconds since the Unix epoch, UTC.
    The current time (`new Date()`, `Date.now()`) is a parameter. */
module TaskManager {
  import opened Seqs
  import opened Text

  datatype Priority = Low | Medium | High

  datatype Status = Todo | InProgress | Completed

  /** The string the component stores for a priority. */
  function PriorityName(p: Priority): string
  {
    match p
    case Low => "low"
    case Medium => "medium"
    case High => "high"
  }

  /** The string the component stores for a status. */
  function StatusName(s: Status): string
  {
    match s
    case Todo => "todo"
    case InProgress => "in-progress"
    case Completed => "completed"
  }

  datatype Task = Task(
    id: string,
    title: string,
    description: string,
    priority: Priority,
    status: Status,
    dueDate: int,
    tags: seq<string>,
    createdAt: int)

  /** The fields of the task dialog. `dueDate` is the value of the date input:
      None while it is empty, otherwise the instant `new Date("YYYY-MM-DD")`
      gives for the chosen day (its UTC midnight). `tags` is the raw text. */
  datatype TaskForm = TaskForm(
    title: string,
    description: string,
    priority: Priority,
    status: Status,
    dueDate: Option<int>,
    tags: string)

  /** The fields a submitted form writes into a task (`taskData`). */
  datatype TaskData = TaskData(
    title: string,
    description: string,
    priority: Priority,
    status: Status,
    dueDate: int,
    tags: seq<string>)

  /** The form as first shown and as `resetForm` leaves it. */
  const EmptyForm := TaskForm("", "", Medium, Todo, None, "")

  const MsPerDay := 86400000

  /** Start of the UTC day holding instant `d`: what the date input shows for
      `d` (`toISOString().split('T')[0]`) read back by `new Date(...)`. */
  function DayStart(d: int): (r: int)
    ensures r <= d < r + MsPerDay
    ensures r % MsPerDay == 0
  {
    d - d % MsPerDay
  }

  /* ---------------------------------------------------------------------
     Tag parsing
     --------------------------------------------------------------------- */

  predicate IsNonEmpty(s: string)
  {
    |s| > 0
  }

  /** A tag as parsing leaves it: not empty, no comma, nothing to trim. */
  predicate IsCleanTag(t: string)
  {
    t != "" && ',' !in t && Trim(t) == t
  }

  /** The tag text split at commas, each piece trimmed, empty pieces dropped. */
  function ParseTags(s: string): (r: seq<string>)
    ensures forall i :: 0 <= i < |r| ==> IsCleanTag(r[i])
  {
    var pieces := Split(s, ',');
    var trimmed := Map(Trim, pieces);
    var r := Filter(IsNonEmpty, trimmed);
    FilterCounts(IsNonEmpty, trimmed);
    assert forall i :: 0 <= i < |trimmed| ==> ',' !in trimmed[i] && Trim(trimmed[i]) == trimmed[i] by {
      forall i | 0 <= i < |trimmed|
        ensures ',' !in trimmed[i] && Trim(trimmed[i]) == trimmed[i]
      {
        TrimSubset(pieces[i]);
        TrimTrimmed(Trim(pieces[i]));
      }
    }
    assert forall i :: 0 <= i < |r| ==> IsCleanTag(r[i]) by {
      forall i | 0 <= i < |r|
        ensures IsCleanTag(r[i])
      {
        assert r[i] in r;
      }
    }
    r
  }

  /** The parsed tags are the trimmed pieces of the text, in the order of the
      text: every non-empty trimmed piece is kept, as often as it occurs, and
      only the empty ones are dropped. */
  lemma ParseTagsInOrder(s: string)
    ensures IsSubsequence(ParseTags(s), Map(Trim, Split(s, ',')))
    ensures forall x :: (multiset(ParseTags(s))[x] ==
      if x != "" then multiset(Map(Trim, Split(s, ',')))[x] else 0)
  {
    FilterIsSubsequence(IsNonEmpty, Map(Trim, Split(s, ',')));
    FilterCounts(IsNonEmpty, Map(Trim, Split(s, ',')));
  }

  lemma ParseTagsOfEmpty()
    ensures ParseTags("") == []
  {
    assert Split("", ',') == [""];
    assert Map(Trim, [""]) == [""];
  }

  /** A single clean tag parses to itself. */
  lemma ParseTagsOfTag(t: string)
    requires IsCleanTag(t)
    ensures ParseTags(t) == [t]
  {
    SplitPrefix(t, "", ',');
    assert t + "" == t;
    assert Split(t, ',') == [t];
    assert Map(Trim, [t]) == [t];
  }

  /** A leading space changes only the first piece, which trimming restores. */
  lemma TrimmedPiecesAfterSpace(x: string)
    ensures Map(Trim, Split(" " + x, ',')) == Map(Trim, Split(x, ','))
  {
    SplitPrefix(" ", x, ',');
    var a := Split(" " + x, ',');
    var b := Split(x, ',');
    TrimLeadingSpace(b[0]);
    assert forall i :: 0 <= i < |a| ==> Trim(a[i]) == Trim(b[i]);
  }

  /** A clean tag followed by ", " and more text parses to that tag followed
      by what the rest parses to. */
  lemma ParseTagsCons(t: string, x: string)
    requires IsCleanTag(t)
    ensures ParseTags(t + ", " + x) == [t] + ParseTags(x)
  {
    var rest := " " + x;
    assert t + ", " + x == t + ([','] + rest);
    assert ([','] + rest)[1..] == rest;
    var tail := Split([','] + rest, ',');
    assert tail == [""] + Split(rest, ',');
    SplitPrefix(t, [','] + rest, ',');
    assert t + tail[0] == t;
    var pieces := [t] + Split(rest, ',');
    assert Split(t + ", " + x, ',') == pieces;
    TrimmedPiecesAfterSpace(x);
    TrimTrimmed(t);
    assert Map(Trim, pieces) == [t] + Map(Trim, Split(x, ','));
  }

  /** The edit dialog shows the tags joined by ", "; submitting that text
      unchanged gives back the same tags. */
  lemma {:induction false} ParseTagsOfJoined(tags: seq<string>)
    requires forall i :: 0 <= i < |tags| ==> IsCleanTag(tags[i])
    ensures ParseTags(Join(tags, ", ")) == tags
    decreases |tags|
  {
    if |tags| == 0 {
      ParseTagsOfEmpty();
    } else if |tags| == 1 {
      ParseTagsOfTag(tags[0]);
    } else {
      var rest := Join(tags[1..], ", ");
      assert Join(tags, ", ") == tags[0] + ", " + rest;
      ParseTagsOfJoined(tags[1..]);
      ParseTagsCons(tags[0], rest);
      assert [tags[0]] + tags[1..] == tags;
    }
  }

  /* ---------------------------------------------------------------------
     The handlers as functions of the task list
     --------------------------------------------------------------------- */

  /** The task data a submitted form carries. */
  function FormData(f: TaskForm): (d: TaskData)
    requires f.dueDate.Some?
    ensures d.title == f.title && d.description == f.description
    ensures d.priority == f.priority && d.status == f.status
    ensures d.dueDate == f.dueDate.value && d.tags == ParseTags(f.tags)
  {
    TaskData(f.title, f.description, f.priority, f.status, f.dueDate.value, ParseTags(f.tags))
  }

  /** `{ ...task, ...taskData }`: the submitted fields replace the task's;
      its id and creation time stay. */
  function Overwrite(t: Task, d: TaskData): Task
  {
    t.(title := d.title, description := d.description, priority := d.priority,
       status := d.status, dueDate := d.dueDate, tags := d.tags)
  }

  /** The task a submission creates. */
  function NewTask(d: TaskData, id: string, now: int): Task
  {
    Task(id, d.title, d.description, d.priority, d.status, d.dueDate, d.tags, now)
  }

  /** What edit mode of `handleSubmit` does to one task. */
  function EditOne(id: string, d: TaskData): Task -> Task
  {
    (t: Task) => if t.id == id then Overwrite(t, d) else t
  }

  /** The list after saving an edit of the task with id `id`. */
  function WithEdited(ts: seq<Task>, id: string, d: TaskData): (r: seq<Task>)
    ensures |r| == |ts|
    ensures forall i :: 0 <= i < |ts| && ts[i].id == id ==>
      && r[i].id == id && r[i].createdAt == ts[i].createdAt
      && r[i].title == d.title && r[i].description == d.description
      && r[i].priority == d.priority && r[i].status == d.status
      && r[i].dueDate == d.dueDate && r[i].tags == d.tags
    ensures forall i :: 0 <= i < |ts| && ts[i].id != id ==> r[i] == ts[i]
  {
    Map(EditOne(id, d), ts)
  }

  /** The status toggle: a completed task goes back to "todo"; any other
      task, in progress or not, becomes completed. */
  function Toggled(s: Status): Status
  {
    if s == Completed then Todo else Completed
  }

  function ToggleOne(id: string): Task -> Task
  {
    (t: Task) => if t.id == id then t.(status := Toggled(t.status)) else t
  }

  /** The list after `handleToggleComplete(id)`. */
  function WithToggled(ts: seq<Task>, id: string): (r: seq<Task>)
    ensures |r| == |ts|
    ensures forall i :: 0 <= i < |ts| ==> r[i].(status := ts[i].status) == ts[i]
    ensures forall i :: 0 <= i < |ts| && ts[i].id == id ==>
      (r[i].status == Completed <==> ts[i].status != Completed)
    ensures forall i :: 0 <= i < |ts| && ts[i].id == id ==>
      (ts[i].status == Completed ==> r[i].status == Todo)
    ensures forall i :: 0 <= i < |ts| && ts[i].id != id ==> r[i] == ts[i]
  {
    Map(ToggleOne(id), ts)
  }

  /** Toggling twice restores exactly the tasks that were not in progress: an
      in-progress task comes back as "todo". */
  lemma ToggleTwice(ts: seq<Task>, id: string)
    ensures forall i :: 0 <= i < |ts| && ts[i].id == id ==>
      WithToggled(WithToggled(ts, id), id)[i].status ==
        (if ts[i].status == InProgress then Todo else ts[i].status)
    ensures WithToggled(WithToggled(ts, id), id) == ts <==>
      forall i :: 0 <= i < |ts| && ts[i].id == id ==> ts[i].status != InProgress
  {
    var once := WithToggled(ts, id);
    var twice := WithToggled(once, id);
    forall i | 0 <= i < |ts| && ts[i].id == id
      ensures twice[i].status == (if ts[i].status == InProgress then Todo else ts[i].status)
    {
      assert once[i].(status := ts[i].status) == ts[i];
    }
    if forall i :: 0 <= i < |ts| && ts[i].id == id ==> ts[i].status != InProgress {
      forall i | 0 <= i < |ts|
        ensures twice[i] == ts[i]
      {
        assert once[i].(status := ts[i].status) == ts[i];
        assert twice[i].(status := once[i].status) == once[i];
      }
    }
  }

  predicate HasOtherId(id: string, t: Task)
  {
    t.id != id
  }

  function KeepsOtherIds(id: string): Task -> bool
  {
    (t: Task) => HasOtherId(id, t)
  }

  /** The list after `handleDelete(id)`: every task with that id is gone, every
      other task stays, as often as before and in the same order. */
  function WithoutTask(ts: seq<Task>, id: string): (r: seq<Task>)
    ensures IsSubsequence(r, ts)
    ensures forall t :: t in r <==> t in ts && t.id != id
    ensures forall t: Task :: t.id != id ==> multiset(r)[t] == multiset(ts)[t]
    ensures (forall i :: 0 <= i < |ts| ==> ts[i].id != id) ==> r == ts
  {
    FilterCounts(KeepsOtherIds(id), ts);
    FilterIsSubsequence(KeepsOtherIds(id), ts);
    Filter(KeepsOtherIds(id), ts)
  }

  /** Whether a task has the given id. */
  function HasId(id: string): Task -> bool
  {
    (t: Task) => t.id == id
  }

  /** The first task with the given id (`tasks.find`). */
  function FindTask(ts: seq<Task>, id: string): (r: Option<Task>)
    ensures r.None? <==> forall i :: 0 <= i < |ts| ==> ts[i].id != id
    ensures r.Some? ==> r.value.id == id && exists i :: IsFirst(HasId(id), ts, i) && ts[i] == r.value
  {
    Find(HasId(id), ts)
  }

  /** The form `handleEdit` fills in for a task. */
  function PrefillForm(t: Task): TaskForm
  {
    TaskForm(t.title, t.description, t.priority, t.status, Some(DayStart(t.dueDate)), Join(t.tags, ", "))
  }

  /** Saving the edit dialog without changing anything leaves a task with
      clean tags as it was, except that its due date moves back to the start
      of its UTC day. */
  lemma SaveUnchangedEdit(t: Task)
    requires forall i :: 0 <= i < |t.tags| ==> IsCleanTag(t.tags[i])
    ensures Overwrite(t, FormData(PrefillForm(t))) == t.(dueDate := DayStart(t.dueDate))
  {
    ParseTagsOfJoined(t.tags);
  }

  /* ---------------------------------------------------------------------
     The filter
     --------------------------------------------------------------------- */

  /** The search: the lower-cased term occurs in the lower-cased title, the
      description or one of the tags. */
  predicate MatchesSearch(t: Task, term: string)
  {
    var q := Lower(term);
    || Contains(Lower(t.title), q)
    || Contains(Lower(t.description), q)
    || exists i :: 0 <= i < |t.tags| && Contains(Lower(t.tags[i]), q)
  }

  /** Whether the list shows a task: every selector that is on holds. The
      search is off when the term is empty, a selector when it is "all". */
  predicate Shown(t: Task, searchTerm: string, filterStatus: string, filterPriority: string)
  {
    && (searchTerm != "" ==> MatchesSearch(t, searchTerm))
    && (filterStatus != "all" ==> StatusName(t.status) == filterStatus)
    && (filterPriority != "all" ==> PriorityName(t.priority) == filterPriority)
  }

  function ShownBy(searchTerm: string, filterStatus: string, filterPriority: string): Task -> bool
  {
    (t: Task) => Shown(t, searchTerm, filterStatus, filterPriority)
  }

  /** The first `n` selectors of `Shown`, in the order `filterTasks` applies them. */
  predicate ShownUpTo(n: nat, t: Task, searchTerm: string, filterStatus: string, filterPriority: string)
  {
    && (n >= 1 && searchTerm != "" ==> MatchesSearch(t, searchTerm))
    && (n >= 2 && filterStatus != "all" ==> StatusName(t.status) == filterStatus)
    && (n >= 3 && filterPriority != "all" ==> PriorityName(t.priority) == filterPriority)
  }

  function ShownUpToBy(n: nat, searchTerm: string, filterStatus: string, filterPriority: string): Task -> bool
  {
    (t: Task) => ShownUpTo(n, t, searchTerm, filterStatus, filterPriority)
  }

  function SearchBy(searchTerm: string): Task -> bool
  {
    (t: Task) => MatchesSearch(t, searchTerm)
  }

  function StatusIs(filterStatus: string): Task -> bool
  {
    (t: Task) => StatusName(t.status) == filterStatus
  }

  function PriorityIs(filterPriority: string): Task -> bool
  {
    (t: Task) => PriorityName(t.priority) == filterPriority
  }

  /** The tasks the list shows. */
  function VisibleTasks(ts: seq<Task>, searchTerm: string, filterStatus: string, filterPriority: string): (r: seq<Task>)
    ensures IsSubsequence(r, ts)
    ensures forall t :: t in r <==> t in ts && Shown(t, searchTerm, filterStatus, filterPriority)
    ensures forall t :: (multiset(r)[t] ==
      if Shown(t, searchTerm, filterStatus, filterPriority) then multiset(ts)[t] else 0)
    ensures searchTerm == "" && filterStatus == "all" && filterPriority == "all" ==> r == ts
  {
    var p := ShownBy(searchTerm, filterStatus, filterPriority);
    FilterCounts(p, ts);
    FilterIsSubsequence(p, ts);
    Filter(p, ts)
  }

  /** The search does not depend on the case of the term. */
  lemma SearchIgnoresCase(t: Task, term: string)
    ensures MatchesSearch(t, term) == MatchesSearch(t, Lower(term))
  {
    LowerIdempotent(term);
  }

  /** Every task matches an empty search, which is why skipping the search
      for an empty term changes nothing. */
  lemma EmptySearchMatches(t: Task)
    ensures MatchesSearch(t, "")
  {
    ContainsEmpty(Lower(t.title));
  }

  /* ---------------------------------------------------------------------
     The counts
     --------------------------------------------------------------------- */

  predicate IsCompleted(t: Task)
  {
    t.status == Completed
  }

  predicate IsInProgress(t: Task)
  {
    t.status == InProgress
  }

  /** Past its due date and not completed (also TaskCard's `isOverdue`). */
  predicate IsOverdue(now: int, t: Task)
  {
    now > t.dueDate && t.status != Completed
  }

  function OverdueAt(now: int): Task -> bool
  {
    (t: Task) => IsOverdue(now, t)
  }

  datatype TaskStats = TaskStats(total: nat, completed: nat, inProgress: nat, overdue: nat)

  /** `getTaskStats`: the number of tasks, of completed ones, of ones in
      progress and of overdue ones at time `now`. */
  function GetTaskStats(ts: seq<Task>, now: int): (r: TaskStats)
    ensures r.total == |ts|
    ensures r.completed + r.inProgress <= r.total
    ensures r.overdue + r.completed <= r.total
    ensures r.completed == multiset(Map(IsCompleted, ts))[true]
    ensures r.inProgress == multiset(Map(IsInProgress, ts))[true]
    ensures r.overdue == multiset(Map(OverdueAt(now), ts))[true]
  {
    FilterLengthDisjoint(IsCompleted, IsInProgress, ts);
    FilterLengthDisjoint(OverdueAt(now), IsCompleted, ts);
    CountMatches(IsCompleted, ts);
    CountMatches(IsInProgress, ts);
    CountMatches(OverdueAt(now), ts);
    TaskStats(|ts|, |Filter(IsCompleted, ts)|, |Filter(IsInProgress, ts)|, |Filter(OverdueAt(now), ts)|)
  }

  /** The length of a filter is the number of elements the predicate accepts. */
  lemma {:induction false} CountMatches(p: Task -> bool, ts: seq<Task>)
    ensures |Filter(p, ts)| == multiset(Map(p, ts))[true]
    decreases |ts|
  {
    if ts != [] {
      CountMatches(p, ts[1..]);
      assert Map(p, ts) == [p(ts[0])] + Map(p, ts[1..]);
    }
  }

  /** A task that is overdue stays overdue as time passes. */
  lemma OverdueGrows(ts: seq<Task>, earlier: int, later: int)
    requires earlier <= later
    ensures GetTaskStats(ts, earlier).overdue <= GetTaskStats(ts, later).overdue
  {
    FilterLengthMonotonic(OverdueAt(earlier), OverdueAt(later), ts);
  }

  /** The completion rate shown: `Math.round(completed / total * 100)`, or 0
      for an empty list. The result is the integer nearest to the exact
      percentage, halves rounded up. */
  function CompletionRate(stats: TaskStats): (r: int)
    ensures stats.total == 0 ==> r == 0
    ensures stats.total > 0 ==>
      2 * r * stats.total - stats.total <= 200 * stats.completed < 2 * r * stats.total + stats.total
    ensures stats.completed <= stats.total ==> 0 <= r <= 100
  {
    if stats.total > 0 then
      var r := (200 * stats.completed + stats.total) / (2 * stats.total);
      RoundedPercent(stats.completed, stats.total);
      r
    else 0
  }

  /** floor(100 * c / t + 1/2), computed on integers, is the rounded percentage. */
  lemma RoundedPercent(c: nat, t: nat)
    requires t > 0
    ensures var r := (200 * c + t) / (2 * t);
      && 2 * r * t - t <= 200 * c < 2 * r * t + t
      && (c <= t ==> 0 <= r <= 100)
  {
    var n, d := 200 * c + t, 2 * t;
    var r, m := n / d, n % d;
    assert n == d * r + m && 0 <= m < d;
    assert d * r == 2 * r * t;
    QuotientBounds(n, d, r, m);
    if c <= t {
      assert n < 101 * d;
    }
  }

  /** The quotient of a non-negative dividend is non-negative, and it is at
      most 100 when the dividend is below 101 divisors. */
  lemma QuotientBounds(n: int, d: int, r: int, m: int)
    requires d > 0 && n == d * r + m && 0 <= m < d
    ensures n >= 0 ==> r >= 0
    ensures n < 101 * d ==> r <= 100
  {
    if r < 0 {
      assert d * r == d * (r + 1) - d;
      ProductNonPositive(d, r + 1);
    }
    if r > 100 {
      assert d * r == d * (r - 101) + 101 * d;
      ProductNonNegative(d, r - 101);
    }
  }

  lemma ProductNonPositive(a: int, b: int)
    requires a >= 0 && b <= 0
    ensures a * b <= 0
  {
  }

  lemma ProductNonNegative(a: int, b: int)
    requires a >= 0 && b >= 0
    ensures a * b >= 0
  {
  }

  /* ---------------------------------------------------------------------
     The component
     --------------------------------------------------------------------- */

  /** The tasks loaded when the component mounts. */
  const SampleTasks: seq<Task> := [
    Task("1", "Implement crypto portfolio tracking",
         "Add functionality to track user portfolio performance",
         High, InProgress, 20113 * MsPerDay, ["development", "crypto"], 20108 * MsPerDay),
    Task("2", "Design responsive mobile layout",
         "Optimize the UI for mobile devices and tablets",
         Medium, Todo, 20118 * MsPerDay, ["design", "mobile", "ui"], 20107 * MsPerDay),
    Task("3", "Set up automated testing",
         "Implement unit and integration tests",
         Medium, Completed, 20110 * MsPerDay, ["testing", "automation"], 20106 * MsPerDay),
    Task("4", "Add price alerts feature",
         "Allow users to set custom price alerts for cryptocurrencies",
         Low, Todo, 20124 * MsPerDay, ["feature", "notifications"], 20105 * MsPerDay)
  ]

  /** Selecting "completed" with no search and every priority shows exactly
      the one completed sample task. */
  lemma SampleCompletedOnly()
    ensures VisibleTasks(SampleTasks, "", "completed", "all") == [SampleTasks[2]]
  {
    var p := ShownBy("", "completed", "all");
    var s := SampleTasks;
    assert !p(s[0]) && !p(s[1]) && p(s[2]) && !p(s[3]);
    assert Filter(p, s[4..]) == [];
    assert s[3..][1..] == s[4..];
    assert Filter(p, s[3..]) == [];
    assert s[2..][1..] == s[3..];
    assert Filter(p, s[2..]) == [s[2]];
    assert s[1..][1..] == s[2..];
    assert Filter(p, s[1..]) == [s[2]];
    assert Filter(p, s) == [s[2]];
  }

  /** All tags of all tasks are as tag parsing leaves them. */
  ghost predicate CleanTags(ts: seq<Task>)
  {
    forall i :: 0 <= i < |ts| ==> HasCleanTags(ts[i])
  }

  ghost predicate HasCleanTags(t: Task)
  {
    forall k :: 0 <= k < |t.tags| ==> IsCleanTag(t.tags[k])
  }

  /** A non-empty word of lower-case ASCII letters, as the sample tags are. */
  predicate IsLowerWord(w: string)
  {
    |w| > 0 && forall j :: 0 <= j < |w| ==> 'a' <= w[j] <= 'z'
  }

  lemma LowerWordFacts(w: string)
    requires IsLowerWord(w)
    ensures w != [] && ',' !in w && !IsWhitespace(w[0]) && !IsWhitespace(w[|w| - 1])
  {
  }

  /** A non-empty string without commas and without whitespace at its ends
      is a clean tag. */
  lemma CleanFromEnds(w: string)
    requires w != [] && ',' !in w && !IsWhitespace(w[0]) && !IsWhitespace(w[|w| - 1])
    ensures IsCleanTag(w)
  {
    TrimTrimmed(w);
  }

  /** A word of lower-case letters is a clean tag. */
  lemma LowerWordIsClean(w: string)
    requires IsLowerWord(w)
    ensures IsCleanTag(w)
  {
    LowerWordFacts(w);
    CleanFromEnds(w);
  }

  /** A task whose tags are lower-case words has clean tags. */
  lemma LowerWordTagsClean(t: Task)
    requires forall k :: 0 <= k < |t.tags| ==> IsLowerWord(t.tags[k])
    ensures HasCleanTags(t)
  {
    forall k | 0 <= k < |t.tags|
      ensures IsCleanTag(t.tags[k])
    {
      LowerWordIsClean(t.tags[k]);
    }
  }

  /** The tags of the sample tasks are clean. */
  lemma SampleTagsClean()
    ensures CleanTags(SampleTasks)
  {
    var s := SampleTasks;
    forall i | 0 <= i < |s|
      ensures HasCleanTags(s[i])
    {
      LowerWordTagsClean(s[i]);
    }
  }

  /** Saving an edit with clean tags keeps every tag clean. */
  lemma EditKeepsTagsClean(ts: seq<Task>, id: string, d: TaskData)
    requires CleanTags(ts)
    requires forall k :: 0 <= k < |d.tags| ==> IsCleanTag(d.tags[k])
    ensures CleanTags(WithEdited(ts, id, d))
  {
    var r := WithEdited(ts, id, d);
    forall i | 0 <= i < |r|
      ensures HasCleanTags(r[i])
    {
      if ts[i].id != id {
        assert r[i] == ts[i];
      }
    }
  }

  /** Appending a task with clean tags keeps every tag clean. */
  lemma AppendKeepsTagsClean(ts: seq<Task>, t: Task)
    requires CleanTags(ts) && HasCleanTags(t)
    ensures CleanTags(ts + [t])
  {
    var a := ts + [t];
    forall i | 0 <= i < |a|
      ensures HasCleanTags(a[i])
    {
      if i < |ts| {
        assert a[i] == ts[i];
      }
    }
  }

  /** Submitting a form, in either mode, keeps every tag clean: parsing
      leaves only clean tags. */
  lemma SubmitKeepsTagsClean(ts: seq<Task>, editing: Option<Task>, f: TaskForm, newId: string, now: int)
    requires CleanTags(ts) && f.dueDate.Some?
    ensures editing.Some? ==> CleanTags(WithEdited(ts, editing.value.id, FormData(f)))
    ensures editing.None? ==> CleanTags(ts + [NewTask(FormData(f), newId, now)])
  {
    var d := FormData(f);
    if editing.Some? {
      EditKeepsTagsClean(ts, editing.value.id, d);
    } else {
      AppendKeepsTagsClean(ts, NewTask(d, newId, now));
    }
  }

  /** Toggling and deleting keep every tag clean. */
  lemma ToggleDeleteKeepTagsClean(ts: seq<Task>, id: string)
    requires CleanTags(ts)
    ensures CleanTags(WithToggled(ts, id))
    ensures CleanTags(WithoutTask(ts, id))
  {
    var r := WithToggled(ts, id);
    forall i | 0 <= i < |r|
      ensures HasCleanTags(r[i])
    {
      assert r[i].tags == ts[i].tags;
    }
    var w := WithoutTask(ts, id);
    forall i | 0 <= i < |w|
      ensures HasCleanTags(w[i])
    {
      assert w[i] in ts;
      var j :| 0 <= j < |ts| && ts[j] == w[i];
    }
  }

  /** The state of one TaskManager component. */
  class TaskBoard {
    var tasks: seq<Task>
    var filteredTasks: seq<Task>
    var editingTask: Option<Task>
    var searchTerm: string
    var filterStatus: string
    var filterPriority: string
    var form: TaskForm
    var dialogOpen: bool

    /** Every task's tags come from tag parsing, so editing round-trips them. */
    ghost predicate Valid()
      reads this`tasks
    {
      CleanTags(tasks)
    }

    constructor ()
      ensures Valid()
      ensures tasks == [] && filteredTasks == [] && editingTask == None
      ensures searchTerm == "" && filterStatus == "all" && filterPriority == "all"
      ensures form == EmptyForm && !dialogOpen
    {
      tasks, filteredTasks, editingTask := [], [], None;
      searchTerm, filterStatus, filterPriority := "", "all", "all";
      form, dialogOpen := EmptyForm, false;
    }

    /** The mount effect: the sample tasks replace the list. */
    method LoadSampleTasks()
      modifies this
      ensures Valid()
      ensures tasks == SampleTasks
      ensures filteredTasks == old(filteredTasks) && editingTask == old(editingTask)
      ensures searchTerm == old(searchTerm) && filterStatus == old(filterStatus)
      ensures filterPriority == old(filterPriority)
      ensures form == old(form) && dialogOpen == old(dialogOpen)
    {
      tasks := SampleTasks;
      SampleTagsClean();
    }

    /** `filterTasks`, which the component runs whenever the list, the search
        term or a selector changes: the search, then the status selector, then
        the priority selector, each applied only when it is on. */
    method FilterTasks()
      modifies this
      ensures filteredTasks == VisibleTasks(tasks, searchTerm, filterStatus, filterPriority)
      ensures tasks == old(tasks) && editingTask == old(editingTask)
      ensures searchTerm == old(searchTerm) && filterStatus == old(filterStatus)
      ensures filterPriority == old(filterPriority)
      ensures form == old(form) && dialogOpen == old(dialogOpen)
    {
      var filtered := tasks;
      ghost var term, st, pr := searchTerm, filterStatus, filterPriority;
      assert filtered == Filter(ShownUpToBy(0, term, st, pr), tasks);

      if searchTerm != "" {
        FilterFilter(ShownUpToBy(0, term, st, pr), SearchBy(term), ShownUpToBy(1, term, st, pr), tasks);
        filtered := Filter(SearchBy(searchTerm), filtered);
      } else {
        FilterExtensional(ShownUpToBy(0, term, st, pr), ShownUpToBy(1, term, st, pr), tasks);
      }
      assert filtered == Filter(ShownUpToBy(1, term, st, pr), tasks);

      if filterStatus != "all" {
        FilterFilter(ShownUpToBy(1, term, st, pr), StatusIs(st), ShownUpToBy(2, term, st, pr), tasks);
        filtered := Filter(StatusIs(filterStatus), filtered);
      } else {
        FilterExtensional(ShownUpToBy(1, term, st, pr), ShownUpToBy(2, term, st, pr), tasks);
      }
      assert filtered == Filter(ShownUpToBy(2, term, st, pr), tasks);

      if filterPriority != "all" {
        FilterFilter(ShownUpToBy(2, term, st, pr), PriorityIs(pr), ShownUpToBy(3, term, st, pr), tasks);
        filtered := Filter(PriorityIs(filterPriority), filtered);
      } else {
        FilterExtensional(ShownUpToBy(2, term, st, pr), ShownUpToBy(3, term, st, pr), tasks);
      }
      FilterExtensional(ShownUpToBy(3, term, st, pr), ShownBy(term, st, pr), tasks);
      filteredTasks := filtered;
    }

    /** The search box's change handler. */
    method SetSearchTerm(term: string)
      modifies this`searchTerm
      ensures searchTerm == term
    {
      searchTerm := term;
    }

    /** The status selector's change handler. */
    method SetFilterStatus(value: string)
      modifies this`filterStatus
      ensures filterStatus == value
    {
      filterStatus := value;
    }

    /** The priority selector's change handler. */
    method SetFilterPriority(value: string)
      modifies this`filterPriority
      ensures filterPriority == value
    {
      filterPriority := value;
    }

    /** The change handlers of the dialog's inputs: title, description,
        priority, status, due date and tag text. */
    method SetForm(f: TaskForm)
      modifies this`form
      ensures form == f
    {
      form := f;
    }

    /** `resetForm`: the "Add Task" button empties the form and leaves edit mode. */
    method ResetForm()
      modifies this
      ensures form == EmptyForm && editingTask == None
      ensures tasks == old(tasks) && filteredTasks == old(filteredTasks)
      ensures searchTerm == old(searchTerm) && filterStatus == old(filterStatus)
      ensures filterPriority == old(filterPriority) && dialogOpen == old(dialogOpen)
    {
      form := EmptyForm;
      editingTask := None;
    }

    /** `handleEdit(id)`: when a task has that id, the first one becomes the
        task being edited, the form shows its fields and the dialog opens;
        otherwise nothing happens. */
    method StartEdit(id: string)
      modifies this
      ensures FindTask(tasks, id).Some? ==>
        editingTask == FindTask(tasks, id) && form == PrefillForm(FindTask(tasks, id).value) && dialogOpen
      ensures FindTask(tasks, id).None? ==>
        editingTask == old(editingTask) && form == old(form) && dialogOpen == old(dialogOpen)
      ensures tasks == old(tasks) && filteredTasks == old(filteredTasks)
      ensures searchTerm == old(searchTerm) && filterStatus == old(filterStatus)
      ensures filterPriority == old(filterPriority)
    {
      var found := FindTask(tasks, id);
      if found.Some? {
        editingTask := found;
        form := PrefillForm(found.value);
        dialogOpen := true;
      }
    }

    /** `handleSubmit`. In edit mode every task with the edited task's id takes
        the form's fields; otherwise one new task, with id `newId` and created
        at `now`, is appended. Then the form is reset and the dialog closed.
        The browser submits only with a title and a due date, both marked
        `required`. */
    method Submit(newId: string, now: int)
      requires Valid()
      requires form.title != "" && form.dueDate.Some?
      modifies this
      ensures Valid()
      ensures old(editingTask).Some? ==>
        tasks == WithEdited(old(tasks), old(editingTask).value.id, FormData(old(form)))
      ensures old(editingTask).None? ==>
        tasks == old(tasks) + [NewTask(FormData(old(form)), newId, now)]
      ensures form == EmptyForm && editingTask == None && !dialogOpen
      ensures filteredTasks == old(filteredTasks)
      ensures searchTerm == old(searchTerm) && filterStatus == old(filterStatus)
      ensures filterPriority == old(filterPriority)
    {
      SubmitKeepsTagsClean(tasks, editingTask, form, newId, now);
      var data := FormData(form);
      if editingTask.Some? {
        tasks := WithEdited(tasks, editingTask.value.id, data);
      } else {
        tasks := tasks + [NewTask(data, newId, now)];
      }
      form := EmptyForm;
      editingTask := None;
      dialogOpen := false;
    }

    /** `handleToggleComplete(id)`. */
    method ToggleComplete(id: string)
      requires Valid()
      modifies this
      ensures Valid()
      ensures tasks == WithToggled(old(tasks), id)
      ensures filteredTasks == old(filteredTasks) && editingTask == old(editingTask)
      ensures searchTerm == old(searchTerm) && filterStatus == old(filterStatus)
      ensures filterPriority == old(filterPriority)
      ensures form == old(form) && dialogOpen == old(dialogOpen)
    {
      ToggleDeleteKeepTagsClean(tasks, id);
      tasks := WithToggled(tasks, id);
    }

    /** `handleDelete(id)`. */
    method Delete(id: string)
      requires Valid()
      modifies this
      ensures Valid()
      ensures tasks == WithoutTask(old(tasks), id)
      ensures filteredTasks == old(filteredTasks) && editingTask == old(editingTask)
      ensures searchTerm == old(searchTerm) && filterStatus == old(filterStatus)
      ensures filterPriority == old(filterPriority)
      ensures form == old(form) && dialogOpen == old(dialogOpen)
    {
      ToggleDeleteKeepTagsClean(tasks, id);
      tasks := WithoutTask(tasks, id);
    }
  }
}
