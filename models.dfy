/** The records the task side of ProductivityCake stores: tasks, projects and
    categories, and the figures a project computes from its tasks. Every
    DateTimeOffset is an integer count of seconds (UTC). */
module Models {
  import opened Text
  import opened Seqs

  /** The three columns of the board; the enum has no other values. */
  datatype TaskStatus = ToDo | Doing | Done

  /** The colour a category gets when none is given (a blue). */
  const DefaultCategoryColor: string := "#2196F3"

  datatype Category = Category(id: int, name: string, color: string)

  /** A task. `category` and `tags` are the [JsonIgnore] navigation
      properties resolved from `categoryId` and `tagIds` after loading. */
  datatype TodoItem = TodoItem(
    id: int,
    title: string,
    description: Option<string>,
    isComplete: bool,
    createdAt: int,
    dueDate: Option<int>,
    completedAt: Option<int>,
    projectId: Option<int>,
    estimatedPomodoros: int,
    completedPomodoros: int,
    status: TaskStatus,
    categoryId: Option<int>,
    category: Option<Category>,
    tagIds: seq<int>,
    tags: seq<Category>)

  /** A project; `tasks` is the [JsonIgnore] list the project service fills
      in from the task store. */
  datatype Project = Project(
    id: int,
    name: string,
    description: Option<string>,
    createdAt: int,
    isArchived: bool,
    tasks: seq<TodoItem>)

  /** The fields of `new TodoItem { ... }` that the initialiser does not set. */
  function BlankTodoItem(now: int): (t: TodoItem)
    ensures t.id == 0 && t.title == "" && t.status == ToDo && !t.isComplete
    ensures t.createdAt == now && t.completedAt == None && t.estimatedPomodoros == 1
    ensures t.tagIds == [] && t.tags == [] && t.category == None
  {
    TodoItem(0, "", None, false, now, None, None, None, 1, 0, ToDo, None, None, [], [])
  }

  /** What of a task survives the JSON file: every property except the
      [JsonIgnore] ones, which read back empty. */
  function PersistedItem(t: TodoItem): (r: TodoItem)
    ensures r.category == None && r.tags == []
    ensures r.(category := t.category, tags := t.tags) == t
  {
    t.(category := None, tags := [])
  }

  /** What of a project survives the JSON file: everything but its tasks. */
  function PersistedProject(p: Project): (r: Project)
    ensures r.tasks == [] && r.(tasks := p.tasks) == p
  {
    p.(tasks := [])
  }

  /** The status test used by the counts and the board columns. */
  function HasStatus(s: TaskStatus): TodoItem -> bool {
    (t: TodoItem) => t.status == s
  }

  /** The tasks of one status, in list order. */
  function WithStatus(tasks: seq<TodoItem>, s: TaskStatus): (r: seq<TodoItem>)
    ensures forall i :: 0 <= i < |r| ==> r[i].status == s && r[i] in tasks
    ensures forall i :: 0 <= i < |tasks| && tasks[i].status == s ==> tasks[i] in r
  {
    Filter(tasks, HasStatus(s))
  }

  /** TodoTasksCount: the number of ToDo tasks, which is the length of that
      column. */
  function TodoTasksCount(p: Project): (n: nat)
    ensures n <= TotalTasksCount(p)
    ensures n == |WithStatus(p.tasks, ToDo)|
  {
    CountIsFilterLength(p.tasks, HasStatus(ToDo));
    Count(p.tasks, HasStatus(ToDo))
  }

  /** DoingTasksCount: the number of Doing tasks. */
  function DoingTasksCount(p: Project): (n: nat)
    ensures n <= TotalTasksCount(p)
    ensures n == |WithStatus(p.tasks, Doing)|
  {
    CountIsFilterLength(p.tasks, HasStatus(Doing));
    Count(p.tasks, HasStatus(Doing))
  }

  /** DoneTasksCount: the number of Done tasks. */
  function DoneTasksCount(p: Project): (n: nat)
    ensures n <= TotalTasksCount(p)
    ensures n == |WithStatus(p.tasks, Done)|
  {
    CountIsFilterLength(p.tasks, HasStatus(Done));
    Count(p.tasks, HasStatus(Done))
  }

  function TotalTasksCount(p: Project): nat {
    |p.tasks|
  }

  /** Every task has exactly one of the three statuses, so the three
      counts add up to the total. */
  lemma {:induction false} StatusCountsSum(tasks: seq<TodoItem>)
    ensures Count(tasks, HasStatus(ToDo)) + Count(tasks, HasStatus(Doing)) + Count(tasks, HasStatus(Done)) == |tasks|
  {
    if |tasks| > 0 {
      StatusCountsSum(tasks[1..]);
    }
  }

  /** The project-level form of the sum. */
  lemma ProjectCountsSum(p: Project)
    ensures TodoTasksCount(p) + DoingTasksCount(p) + DoneTasksCount(p) == TotalTasksCount(p)
  {
    StatusCountsSum(p.tasks);
  }

  /** Math.Round(n / d): the integer nearest to n / d, and the even one of
      the two when n / d lies exactly half-way (banker's rounding). */
  function RoundHalfEven(n: nat, d: nat): (r: nat)
    requires d > 0
    ensures 2 * (r * d - n) <= d && 2 * (n - r * d) <= d
    ensures 2 * (n % d) == d ==> r % 2 == 0
  {
    var q := n / d;
    var rem := n % d;
    DivisionParts(n, d, q, rem);
    if 2 * rem < d then q
    else if 2 * rem > d then q + 1
    else if q % 2 == 0 then q
    else q + 1
  }

  /** n = q * d + rem, written out for the rounding steps. */
  lemma DivisionParts(n: nat, d: nat, q: int, rem: int)
    requires d > 0 && q == n / d && rem == n % d
    ensures q * d - n == -rem && (q + 1) * d - n == d - rem
    ensures 0 <= rem < d
  {
  }

  /** CompletionPercentage: the share of Done tasks in percent, rounded to a
      whole number; 0 for a project with no tasks. */
  function CompletionPercentage(p: Project): (pct: nat)
    ensures pct <= 100
    ensures TotalTasksCount(p) == 0 ==> pct == 0
    ensures DoneTasksCount(p) == 0 ==> pct == 0
    ensures TotalTasksCount(p) > 0 && DoneTasksCount(p) == TotalTasksCount(p) ==> pct == 100
    ensures TotalTasksCount(p) > 0 ==>
      2 * (pct * TotalTasksCount(p) - 100 * DoneTasksCount(p)) <= TotalTasksCount(p) &&
      2 * (100 * DoneTasksCount(p) - pct * TotalTasksCount(p)) <= TotalTasksCount(p)
  {
    var total := TotalTasksCount(p);
    var done := DoneTasksCount(p);
    if total > 0 then
      var pct := RoundHalfEven(100 * done, total);
      PercentageBounds(done, total, pct);
      pct
    else 0
  }

  /** A rounded share of at most the whole is at most 100, is 0 for none and
      100 for all. */
  lemma PercentageBounds(done: nat, total: nat, pct: nat)
    requires 0 < total && done <= total
    requires 2 * (pct * total - 100 * done) <= total && 2 * (100 * done - pct * total) <= total
    ensures pct <= 100
    ensures done == 0 ==> pct == 0
    ensures done == total ==> pct == 100
  {
    assert pct * total < 101 * total;
    ProductCancel(pct, 101, total);
    if done == 0 {
      assert pct * total < 1 * total;
      ProductCancel(pct, 1, total);
    }
    if done == total {
      assert 99 * total < pct * total;
      ProductCancel(99, pct, total);
    }
  }

  /** Cancelling a positive factor keeps a strict order. */
  lemma ProductCancel(a: int, b: int, c: int)
    requires c > 0 && a * c < b * c
    ensures a < b
  {
  }

  /** CompletedAt ?? CreatedAt: when a task was last touched. */
  function Stamp(t: TodoItem): int {
    t.completedAt.GetOr(t.createdAt)
  }

  /** LastUpdated: null for a project without tasks, otherwise the latest
      stamp of any of its tasks. */
  function LastUpdated(p: Project): (r: Option<int>)
    ensures r == None <==> |p.tasks| == 0
    ensures r != None ==> forall i :: 0 <= i < |p.tasks| ==> Stamp(p.tasks[i]) <= r.value
    ensures r != None ==> exists i :: 0 <= i < |p.tasks| && Stamp(p.tasks[i]) == r.value
  {
    if |p.tasks| == 0 then None else Some(MaxKey(p.tasks, Stamp))
  }
}
