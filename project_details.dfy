/** ProjectDetailsViewModel: one project's board. It loads the project's
    tasks from the task store, shows them in three status columns, and edits
    tasks through a form whose tag selection can be toggled tag by tag. */
module ProjectDetails {
  import opened Text
  import opened Seqs
  import opened Models
  import opened JsonData
  import opened ProjectServices
  import opened CategoryServices

  const SecondsPerDay := 86400

  /** `a` may come before `b` in OrderByDescending(t => t.CompletedAt): a
      later time comes first, and null sorts below every time. */
  predicate CompletedNoEarlier(a: Option<int>, b: Option<int>) {
    b == None || (a != None && a.value >= b.value)
  }

  predicate SortedByCompletedDesc(s: seq<TodoItem>) {
    forall i, j :: 0 <= i < j < |s| ==> CompletedNoEarlier(s[i].completedAt, s[j].completedAt)
  }

  /** Puts `x` after every element that completed no earlier than it, so an
      element inserted later stays behind the equal ones before it. */
  function InsertByCompleted(s: seq<TodoItem>, x: TodoItem): (r: seq<TodoItem>)
    requires SortedByCompletedDesc(s)
    ensures SortedByCompletedDesc(r)
    ensures multiset(r) == multiset(s) + multiset{x}
  {
    if |s| == 0 then [x]
    else if CompletedNoEarlier(s[0].completedAt, x.completedAt) then
      var rest := InsertByCompleted(s[1..], x);
      assert s == [s[0]] + s[1..];
      HeadDominates(s[0], s[1..], x, rest);
      assert multiset([s[0]] + rest) == multiset{s[0]} + multiset(rest);
      [s[0]] + rest
    else
      PrependLatest(x, s);
      [x] + s
  }

  /** An element completed later than the head of a sorted list can go in
      front of it. */
  lemma PrependLatest(x: TodoItem, s: seq<TodoItem>)
    requires SortedByCompletedDesc(s) && |s| > 0
    requires !CompletedNoEarlier(s[0].completedAt, x.completedAt)
    ensures SortedByCompletedDesc([x] + s)
  {
    var r := [x] + s;
    forall i, j | 0 <= i < j < |r|
      ensures CompletedNoEarlier(r[i].completedAt, r[j].completedAt)
    {
      if i == 0 {
        assert r[j] == s[j - 1];
        if j > 1 {
          assert CompletedNoEarlier(s[0].completedAt, s[j - 1].completedAt);
        }
      } else {
        assert r[i] == s[i - 1] && r[j] == s[j - 1];
      }
    }
  }

  /** The head of a sorted list stays ahead of the list with `x` inserted,
      when it completed no earlier than `x`. */
  lemma HeadDominates(h: TodoItem, tail: seq<TodoItem>, x: TodoItem, rest: seq<TodoItem>)
    requires SortedByCompletedDesc([h] + tail)
    requires CompletedNoEarlier(h.completedAt, x.completedAt)
    requires SortedByCompletedDesc(rest) && multiset(rest) == multiset(tail) + multiset{x}
    ensures SortedByCompletedDesc([h] + rest)
  {
    forall j | 0 <= j < |rest|
      ensures CompletedNoEarlier(h.completedAt, rest[j].completedAt)
    {
      assert rest[j] in multiset(rest);
      if rest[j] != x {
        assert rest[j] in multiset(tail);
        var k :| 0 <= k < |tail| && tail[k] == rest[j];
        var whole := [h] + tail;
        assert whole[0] == h && whole[k + 1] == rest[j];
        assert CompletedNoEarlier(whole[0].completedAt, whole[k + 1].completedAt);
      }
    }
    var s := [h] + rest;
    forall i, j | 0 <= i < j < |s|
      ensures CompletedNoEarlier(s[i].completedAt, s[j].completedAt)
    {
      if i > 0 {
        assert s[i] == rest[i - 1] && s[j] == rest[j - 1];
      } else {
        assert s[j] == rest[j - 1];
      }
    }
  }

  /** OrderByDescending(t => t.CompletedAt): the tasks sorted latest first,
      null last, with tasks of equal completion time in their list order. */
  function SortByCompletedDesc(s: seq<TodoItem>): (r: seq<TodoItem>)
    ensures SortedByCompletedDesc(r)
    ensures multiset(r) == multiset(s)
    decreases |s|
  {
    if |s| == 0 then []
    else
      assert s == s[..|s| - 1] + [s[|s| - 1]];
      InsertByCompleted(SortByCompletedDesc(s[..|s| - 1]), s[|s| - 1])
  }

  /** The ids of a tag selection, in order: SelectedTags.Select(t => t.Id). */
  function TagIdsOf(tags: seq<Category>): (ids: seq<int>)
    ensures |ids| == |tags| && forall i :: 0 <= i < |tags| ==> ids[i] == tags[i].id
  {
    seq(|tags|, i requires 0 <= i < |tags| => tags[i].id)
  }

  /** SelectedCategory?.Id. */
  function CategoryIdOf(c: Option<Category>): (r: Option<int>)
    ensures r == None <==> c == None
    ensures c != None ==> r.value == c.value.id
  {
    match c
    case None => None
    case Some(v) => Some(v.id)
  }

  /** The rule both task commands keep: a task is complete exactly when it
      is Done, and has a completion time exactly when it is Done. */
  predicate CompletionConsistent(t: TodoItem) {
    (t.isComplete <==> t.status == Done) && (t.completedAt != None <==> t.status == Done)
  }

  /** The task AddTaskAsync creates: trimmed title and description, the
      form's due date, status, category and tags, id 0 so that the store
      assigns one, created now, and completed now exactly when it is Done. */
  function NewTask(title: string, description: Option<string>, due: Option<int>, projectId: int,
                   status: TaskStatus, category: Option<Category>, tags: seq<Category>, now: int): (t: TodoItem)
    ensures t.id == 0 && t.title == Trim(title) && t.description == TrimOrNull(description)
    ensures t.projectId == Some(projectId) && t.status == status && t.dueDate == due
    ensures t.categoryId == CategoryIdOf(category) && t.tagIds == TagIdsOf(tags)
    ensures t.createdAt == now
    ensures t.isComplete <==> status == Done
    ensures status == Done ==> t.completedAt == Some(now)
    ensures status != Done ==> t.completedAt == None
    ensures CompletionConsistent(t)
  {
    BlankTodoItem(now).(
      title := Trim(title),
      description := TrimOrNull(description),
      dueDate := due,
      projectId := Some(projectId),
      status := status,
      categoryId := CategoryIdOf(category),
      tagIds := TagIdsOf(tags),
      isComplete := status == Done,
      completedAt := if status == Done then Some(now) else None)
  }

  /** The task UpdateTaskAsync saves: the form's fields copied onto it, and
      a completion time that is set on first becoming Done, kept while Done,
      and cleared otherwise. */
  function EditedTask(task: TodoItem, title: string, description: Option<string>, due: Option<int>,
                      status: TaskStatus, category: Option<Category>, tags: seq<Category>, now: int): (t: TodoItem)
    ensures t.id == task.id && t.projectId == task.projectId && t.createdAt == task.createdAt
    ensures t.title == Trim(title) && t.description == TrimOrNull(description)
    ensures t.status == status && t.dueDate == due
    ensures t.categoryId == CategoryIdOf(category) && t.tagIds == TagIdsOf(tags)
    ensures t.isComplete <==> status == Done
    ensures status == Done && task.completedAt == None ==> t.completedAt == Some(now)
    ensures status == Done && task.completedAt != None ==> t.completedAt == task.completedAt
    ensures status != Done ==> t.completedAt == None
    ensures CompletionConsistent(t)
  {
    task.(
      title := Trim(title),
      description := TrimOrNull(description),
      dueDate := due,
      status := status,
      categoryId := CategoryIdOf(category),
      tagIds := TagIdsOf(tags),
      isComplete := status == Done,
      completedAt :=
        if status == Done && task.completedAt == None then Some(now)
        else if status != Done then None
        else task.completedAt)
  }

  /** Saving the same form again, at any later time, changes nothing: the
      first completion time is kept. */
  lemma EditIdempotent(task: TodoItem, title: string, description: Option<string>, due: Option<int>,
                       status: TaskStatus, category: Option<Category>, tags: seq<Category>, now: int, later: int)
    ensures var once := EditedTask(task, title, description, due, status, category, tags, now);
      EditedTask(once, title, description, due, status, category, tags, later) == once
  {
  }

  /** The categories the tag ids name, in id order; an id no category has
      is dropped. */
  function ResolveTags(ids: seq<int>, cs: seq<Category>): (r: seq<Category>)
    ensures |r| <= |ids|
    ensures forall j :: 0 <= j < |r| ==> r[j] in cs && r[j].id in ids
    ensures forall i :: 0 <= i < |ids| && CategoryById(cs, ids[i]) != None ==> CategoryById(cs, ids[i]).value in r
  {
    if |ids| == 0 then []
    else
      var rest := ResolveTags(ids[1..], cs);
      assert forall i :: 1 <= i < |ids| ==> ids[i] == ids[1..][i - 1];
      match CategoryById(cs, ids[0])
      case None => rest
      case Some(c) => [c] + rest
  }

  /** One task after LoadTasksAsync has looked up its category and tags;
      a task without a category id, or without tag ids, keeps what it had. */
  function Resolved(t: TodoItem, cs: seq<Category>): (r: TodoItem)
    ensures r.(category := t.category, tags := t.tags) == t
    ensures t.categoryId != None ==> r.category == CategoryById(cs, t.categoryId.value)
    ensures t.categoryId == None ==> r.category == t.category
    ensures |t.tagIds| > 0 ==> r.tags == ResolveTags(t.tagIds, cs)
    ensures |t.tagIds| == 0 ==> r.tags == t.tags
  {
    var withCategory := if t.categoryId != None then t.(category := CategoryById(cs, t.categoryId.value)) else t;
    if |t.tagIds| > 0 then withCategory.(tags := ResolveTags(t.tagIds, cs)) else withCategory
  }

  /** The task list LoadTasksAsync shows for a project: the stored tasks that
      name the project, in store order, each with its category and tags
      looked up. */
  function LoadedTasks(all: seq<TodoItem>, projectId: int, cs: seq<Category>): (r: seq<TodoItem>)
    ensures |r| == |TasksOfProject(all, projectId)|
    ensures forall i :: 0 <= i < |r| ==> r[i] == Resolved(TasksOfProject(all, projectId)[i], cs)
    ensures forall i :: 0 <= i < |r| ==> r[i].projectId == Some(projectId)
  {
    var own := TasksOfProject(all, projectId);
    seq(|own|, i requires 0 <= i < |own| => Resolved(own[i], cs))
  }

  /** AddTag's list: the tag is appended unless it is already there. */
  function WithTag(tags: seq<Category>, tag: Category): (r: seq<Category>)
    ensures tag in r
    ensures tag in tags ==> r == tags
    ensures tag !in tags ==> r == tags + [tag]
  {
    if tag in tags then tags else tags + [tag]
  }

  /** Adding a tag twice is adding it once. */
  lemma AddTagIdempotent(tags: seq<Category>, tag: Category)
    ensures WithTag(WithTag(tags, tag), tag) == WithTag(tags, tag)
  {
  }

  /** RemoveTag's list: the first occurrence of the tag is removed, the rest
      keep their order; nothing changes when the tag is absent. */
  function WithoutTag(tags: seq<Category>, tag: Category): (r: seq<Category>)
    ensures multiset(r) == multiset(tags) - multiset{tag}
    ensures tag !in tags ==> r == tags
    ensures multiset(tags)[tag] <= 1 ==> tag !in r
  {
    var i := FirstIndex(tags, (c: Category) => c == tag);
    if i == -1 then
      assert forall c :: c in tags ==> c != tag;
      tags
    else
      RemoveAt(tags, i)
  }

  /** ToggleTag's list: removes a selected tag, adds one that is not. */
  function Toggled(tags: seq<Category>, tag: Category): (r: seq<Category>)
    ensures tag in tags && multiset(tags)[tag] == 1 ==> tag !in r
    ensures tag !in tags ==> tag in r
    ensures forall c :: c != tag ==> multiset(r)[c] == multiset(tags)[c]
  {
    if tag in tags then WithoutTag(tags, tag) else tags + [tag]
  }

  /** Toggling a tag twice gives back the same selection, as a multiset,
      whenever the tag was not selected more than once. */
  lemma ToggleTwice(tags: seq<Category>, tag: Category)
    requires multiset(tags)[tag] <= 1
    ensures multiset(Toggled(Toggled(tags, tag), tag)) == multiset(tags)
    ensures forall c :: c in Toggled(Toggled(tags, tag), tag) <==> c in tags
  {
    var once := Toggled(tags, tag);
    var twice := Toggled(once, tag);
    if tag in tags {
      assert multiset(once) == multiset(tags) - multiset{tag};
      assert multiset(twice) == multiset(once) + multiset{tag};
    } else {
      assert multiset(once) == multiset(tags) + multiset{tag};
      assert multiset(once)[tag] == 1;
      assert multiset(twice) == multiset(once) - multiset{tag};
    }
    assert multiset(twice) == multiset(tags);
    forall c ensures c in twice <==> c in tags {
      assert c in twice <==> c in multiset(twice);
      assert c in tags <==> c in multiset(tags);
    }
  }

  /** The foreach of LoadTasksAsync: each task gets its category and its
      tags looked up in the category service. */
  method ResolveAll(own: seq<TodoItem>, service: CategoryService) returns (loaded: seq<TodoItem>)
    ensures |loaded| == |own|
    ensures forall j :: 0 <= j < |own| ==> loaded[j] == Resolved(own[j], service.categories)
  {
    loaded := [];
    for i := 0 to |own|
      invariant |loaded| == i
      invariant forall j :: 0 <= j < i ==> loaded[j] == Resolved(own[j], service.categories)
    {
      var task := own[i];
      if task.categoryId != None {
        task := task.(category := service.GetCategoryById(task.categoryId.value));
      }
      if |task.tagIds| > 0 {
        task := task.(tags := ResolveTags(task.tagIds, service.categories));
      }
      loaded := loaded + [task];
    }
  }

  /** The fields of the add/edit task form. */
  datatype TaskForm = TaskForm(
    title: string,
    description: Option<string>,
    dueDate: Option<int>,
    status: TaskStatus,
    category: Option<Category>,
    tags: seq<Category>,
    selectedTask: Option<TodoItem>,
    addOpen: bool,
    editOpen: bool)

  /** The form as the Cancel and post-save paths leave it. */
  function ClearedForm(): (f: TaskForm)
    ensures f.title == "" && f.status == ToDo && f.tags == [] && !f.addOpen && !f.editOpen
  {
    TaskForm("", None, None, ToDo, None, [], None, false, false)
  }

  class ProjectDetailsViewModel {
    var currentProject: Option<Project>
    var tasks: seq<TodoItem>
    var categories: seq<Category>
    var taskTitle: string
    var taskDescription: Option<string>
    var taskDueDate: Option<int>
    var taskStatus: TaskStatus
    var selectedCategory: Option<Category>
    var selectedTags: seq<Category>
    var selectedTask: Option<TodoItem>
    var isAddTaskDialogOpen: bool
    var isEditTaskDialogOpen: bool

    function Form(): TaskForm
      reads this
    {
      TaskForm(taskTitle, taskDescription, taskDueDate, taskStatus, selectedCategory, selectedTags,
               selectedTask, isAddTaskDialogOpen, isEditTaskDialogOpen)
    }

    /** The constructor, which starts LoadCategoriesAsync: the board shows
        the service's table, reloaded first when it was empty. */
    constructor(service: CategoryService)
      modifies service
      ensures currentProject == None && tasks == []
      ensures categories == service.categories
      ensures |old(service.categories)| > 0 ==> service.categories == old(service.categories)
      ensures service.ReloadedFrom(old(service.categories), old(service.nextId), old(service.file))
      ensures old(service.Valid()) ==> service.Valid()
      ensures Form() == ClearedForm()
    {
      currentProject := None;
      tasks := [];
      categories := [];
      taskTitle := "";
      taskDescription := None;
      taskDueDate := None;
      taskStatus := ToDo;
      selectedCategory := None;
      selectedTags := [];
      selectedTask := None;
      isAddTaskDialogOpen := false;
      isEditTaskDialogOpen := false;
      new;
      LoadCategories(service);
    }

    /** TodoTasks: the ToDo tasks in list order. */
    function TodoTasks(): (r: seq<TodoItem>)
      reads this
      ensures forall i :: 0 <= i < |r| ==> r[i].status == ToDo && r[i] in tasks
      ensures forall i :: 0 <= i < |tasks| && tasks[i].status == ToDo ==> tasks[i] in r
    {
      WithStatus(tasks, ToDo)
    }

    /** DoingTasks: the Doing tasks in list order. */
    function DoingTasks(): (r: seq<TodoItem>)
      reads this
      ensures forall i :: 0 <= i < |r| ==> r[i].status == Doing && r[i] in tasks
      ensures forall i :: 0 <= i < |tasks| && tasks[i].status == Doing ==> tasks[i] in r
    {
      WithStatus(tasks, Doing)
    }

    /** DoneTasks: exactly the Done tasks, latest completion first. */
    function DoneTasks(): (r: seq<TodoItem>)
      reads this
      ensures SortedByCompletedDesc(r)
      ensures multiset(r) == multiset(WithStatus(tasks, Done))
      ensures forall i :: 0 <= i < |r| ==> r[i].status == Done && r[i] in tasks
    {
      var done := WithStatus(tasks, Done);
      var r := SortByCompletedDesc(done);
      assert forall i :: 0 <= i < |r| ==> r[i] in multiset(done);
      r
    }

    /** CanSaveTask: the title is not blank, so the saved title is not empty. */
    function CanSaveTask(): (r: bool)
      reads this
      ensures r <==> Trim(taskTitle) != []
    {
      !IsBlank(taskTitle)
    }

    /** IsTagSelected: some selected tag has the tag's id. */
    function IsTagSelected(tag: Category): (r: bool)
      reads this
      ensures tag in selectedTags ==> r
      ensures r <==> exists i :: 0 <= i < |selectedTags| && selectedTags[i].id == tag.id
    {
      exists i :: 0 <= i < |selectedTags| && selectedTags[i].id == tag.id
    }

    /** AddTag: selects the tag unless it is already selected. */
    method AddTag(tag: Category)
      modifies this
      ensures selectedTags == WithTag(old(selectedTags), tag)
      ensures Form() == old(Form()).(tags := selectedTags)
      ensures currentProject == old(currentProject) && tasks == old(tasks) && categories == old(categories)
    {
      if tag !in selectedTags {
        selectedTags := selectedTags + [tag];
      }
    }

    /** RemoveTag: unselects the first occurrence of the tag. */
    method RemoveTag(tag: Category)
      modifies this
      ensures selectedTags == WithoutTag(old(selectedTags), tag)
      ensures Form() == old(Form()).(tags := selectedTags)
      ensures currentProject == old(currentProject) && tasks == old(tasks) && categories == old(categories)
    {
      selectedTags := WithoutTag(selectedTags, tag);
    }

    /** ToggleTag: unselects a selected tag, selects one that is not. */
    method ToggleTag(tag: Category)
      modifies this
      ensures selectedTags == Toggled(old(selectedTags), tag)
      ensures Form() == old(Form()).(tags := selectedTags)
      ensures currentProject == old(currentProject) && tasks == old(tasks) && categories == old(categories)
    {
      if tag in selectedTags {
        RemoveTag(tag);
      } else {
        selectedTags := selectedTags + [tag];
      }
    }

    /** OpenAddTaskDialog: a blank form due tomorrow. */
    method OpenAddTaskDialog(now: int)
      modifies this
      ensures Form() == TaskForm("", None, Some(now + SecondsPerDay), ToDo, None, [], old(selectedTask), true, old(isEditTaskDialogOpen))
      ensures currentProject == old(currentProject) && tasks == old(tasks) && categories == old(categories)
    {
      taskTitle := "";
      taskDescription := None;
      taskDueDate := Some(now + SecondsPerDay);
      taskStatus := ToDo;
      selectedCategory := None;
      selectedTags := [];
      isAddTaskDialogOpen := true;
    }

    /** CancelAddTask. */
    method CancelAddTask()
      modifies this
      ensures Form() == ClearedForm().(selectedTask := old(selectedTask), editOpen := old(isEditTaskDialogOpen))
      ensures currentProject == old(currentProject) && tasks == old(tasks) && categories == old(categories)
    {
      ClearAddForm();
    }

    /** Closes and clears the add form, as cancelling and saving both do. */
    method ClearAddForm()
      modifies this
      ensures Form() == ClearedForm().(selectedTask := old(selectedTask), editOpen := old(isEditTaskDialogOpen))
      ensures currentProject == old(currentProject) && tasks == old(tasks) && categories == old(categories)
    {
      isAddTaskDialogOpen := false;
      taskTitle := "";
      taskDescription := None;
      taskDueDate := None;
      taskStatus := ToDo;
      selectedCategory := None;
      selectedTags := [];
    }

    /** OpenEditTaskDialog: the form takes the task's fields, category and
        tags. */
    method OpenEditTaskDialog(task: TodoItem)
      modifies this
      ensures Form() == TaskForm(task.title, task.description, task.dueDate, task.status, task.category,
                                 task.tags, Some(task), old(isAddTaskDialogOpen), true)
      ensures currentProject == old(currentProject) && tasks == old(tasks) && categories == old(categories)
    {
      selectedTask := Some(task);
      taskTitle := task.title;
      taskDescription := task.description;
      taskDueDate := task.dueDate;
      taskStatus := task.status;
      selectedCategory := task.category;
      selectedTags := task.tags;
      isEditTaskDialogOpen := true;
    }

    /** CancelEditTask. */
    method CancelEditTask()
      modifies this
      ensures Form() == ClearedForm().(addOpen := old(isAddTaskDialogOpen))
      ensures currentProject == old(currentProject) && tasks == old(tasks) && categories == old(categories)
    {
      ClearEditForm();
    }

    /** Closes and clears the edit form, as cancelling and saving both do. */
    method ClearEditForm()
      modifies this
      ensures Form() == ClearedForm().(addOpen := old(isAddTaskDialogOpen))
      ensures currentProject == old(currentProject) && tasks == old(tasks) && categories == old(categories)
    {
      isEditTaskDialogOpen := false;
      selectedTask := None;
      taskTitle := "";
      taskDescription := None;
      taskStatus := ToDo;
      selectedCategory := None;
      selectedTags := [];
      taskDueDate := None;
    }

    /** Initialize: shows the project and loads its tasks. */
    method Initialize(project: Project, data: JsonDataService, service: CategoryService)
      modifies this
      ensures currentProject == Some(project)
      ensures tasks == LoadedTasks(AllItems(data.file), project.id, service.categories)
      ensures Form() == old(Form()) && categories == old(categories)
    {
      currentProject := Some(project);
      LoadTasks(data, service);
    }

    /** LoadTasksAsync: the tasks of the current project, each with its
        category and tags looked up in the category service; nothing
        happens without a current project. */
    method LoadTasks(data: JsonDataService, service: CategoryService)
      modifies this
      ensures old(currentProject) == None ==> tasks == old(tasks)
      ensures old(currentProject) != None ==>
        tasks == LoadedTasks(AllItems(data.file), old(currentProject).value.id, service.categories)
      ensures currentProject == old(currentProject) && categories == old(categories)
      ensures Form() == old(Form())
    {
      if currentProject != None {
        var all := data.GetAll();
        var loaded := ResolveAll(TasksOfProject(all, currentProject.value.id), service);
        tasks := loaded;
      }
    }

    /** AddTaskAsync: creates the form's task in the current project, clears
        and closes the form, and reloads the tasks. Without a current
        project nothing happens. */
    method AddTask(data: JsonDataService, service: CategoryService, now: int)
      modifies this, data
      ensures old(currentProject) == None ==> data.file == old(data.file) && Form() == old(Form()) && tasks == old(tasks)
      ensures old(currentProject) != None ==>
        var t := NewTask(old(taskTitle), old(taskDescription), old(taskDueDate), old(currentProject).value.id,
                         old(taskStatus), old(selectedCategory), old(selectedTags), now);
        var items := AllItems(old(data.file));
        && (old(data.file) != Malformed ==> data.file == Stored(PersistAll(items + [AssignId(items, t)])))
        && (old(data.file) == Malformed ==> data.file == old(data.file))
        && Form() == ClearedForm().(selectedTask := old(selectedTask), editOpen := old(isEditTaskDialogOpen))
        && tasks == LoadedTasks(AllItems(data.file), old(currentProject).value.id, service.categories)
      ensures currentProject == old(currentProject) && categories == old(categories)
    {
      if currentProject != None {
        var t := NewTask(taskTitle, taskDescription, taskDueDate, currentProject.value.id,
                         taskStatus, selectedCategory, selectedTags, now);
        var _, _ := data.Create(t);
        ClearAddForm();
        LoadTasks(data, service);
      }
    }

    /** UpdateTaskAsync: copies the form onto the task being edited with the
        completion rule, saves it, clears and closes the form, and reloads
        the tasks. Without a task being edited nothing happens. */
    method UpdateTask(data: JsonDataService, service: CategoryService, now: int)
      modifies this, data
      ensures old(selectedTask) == None ==> data.file == old(data.file) && Form() == old(Form()) && tasks == old(tasks)
      ensures old(selectedTask) != None ==>
        var t := EditedTask(old(selectedTask).value, old(taskTitle), old(taskDescription), old(taskDueDate),
                            old(taskStatus), old(selectedCategory), old(selectedTags), now);
        var items := AllItems(old(data.file));
        var i := IndexOfItem(items, t.id);
        && (old(data.file) != Malformed && i >= 0 ==> data.file == Stored(PersistAll(items[i := t])))
        && (old(data.file) == Malformed || i == -1 ==> data.file == old(data.file))
        && Form() == ClearedForm().(addOpen := old(isAddTaskDialogOpen))
        && (old(currentProject) == None ==> tasks == old(tasks))
        && (old(currentProject) != None ==>
              tasks == LoadedTasks(AllItems(data.file), old(currentProject).value.id, service.categories))
      ensures currentProject == old(currentProject) && categories == old(categories)
    {
      if selectedTask != None {
        var t := EditedTask(selectedTask.value, taskTitle, taskDescription, taskDueDate,
                            taskStatus, selectedCategory, selectedTags, now);
        var _ := data.Update(t);
        ClearEditForm();
        LoadTasks(data, service);
      }
    }

    /** LoadCategoriesAsync: the view takes the service's list, which the
        service reloads first when it is empty. */
    method LoadCategories(service: CategoryService)
      modifies this, service
      ensures categories == service.categories
      ensures |old(service.categories)| > 0 ==> service.categories == old(service.categories)
      ensures old(service.file) == Stored(old(service.categories)) ==> service.categories == old(service.categories)
      ensures service.ReloadedFrom(old(service.categories), old(service.nextId), old(service.file))
      ensures old(service.Valid()) ==> service.Valid()
      ensures currentProject == old(currentProject) && tasks == old(tasks) && Form() == old(Form())
    {
      categories := service.GetAllCategories();
    }

    /** DeleteTaskAsync: deletes the task's id from the store and reloads the
        tasks. */
    method DeleteTask(task: TodoItem, data: JsonDataService, service: CategoryService)
      modifies this, data
      ensures var items := AllItems(old(data.file));
        var i := IndexOfItem(items, task.id);
        && (old(data.file) != Malformed && i >= 0 ==> data.file == Stored(PersistAll(RemoveAt(items, i))))
        && (old(data.file) == Malformed || i == -1 ==> data.file == old(data.file))
      ensures old(currentProject) == None ==> tasks == old(tasks)
      ensures old(currentProject) != None ==>
        tasks == LoadedTasks(AllItems(data.file), old(currentProject).value.id, service.categories)
      ensures currentProject == old(currentProject) && categories == old(categories) && Form() == old(Form())
    {
      var _ := data.Delete(task.id);
      LoadTasks(data, service);
    }

    /** DeleteTagAsync: unselects the tag, deletes its category, and reloads
        the categories and the tasks, whose tags then no longer name it. */
    method DeleteTag(tag: Category, data: JsonDataService, service: CategoryService)
      modifies this, service
      ensures selectedTags == WithoutTag(old(selectedTags), tag)
      ensures Form() == old(Form()).(tags := selectedTags)
      ensures var i := IndexOfCategory(old(service.categories), tag.id);
        i >= 0 ==> |service.categories| == |old(service.categories)| - 1
      ensures var i := IndexOfCategory(old(service.categories), tag.id);
        && (i >= 0 ==> service.categories == RemoveAt(old(service.categories), i)
                       && service.file == Stored(service.categories) && service.nextId == old(service.nextId))
        && (i == -1 ==> service.ReloadedFrom(old(service.categories), old(service.nextId), old(service.file)))
      ensures old(service.Valid()) ==> service.Valid()
      ensures old(currentProject) == None ==> tasks == old(tasks)
      ensures old(currentProject) != None ==>
        tasks == LoadedTasks(AllItems(data.file), old(currentProject).value.id, service.categories)
      ensures categories == service.categories
      ensures currentProject == old(currentProject)
    {
      RemoveTag(tag);
      DropCategory(tag.id, service);
      LoadTasks(data, service);
    }

    /** The middle of DeleteTagAsync: the category is deleted from the
        service and the board takes the service's reloaded table. */
    method DropCategory(id: int, service: CategoryService)
      modifies this, service
      ensures var i := IndexOfCategory(old(service.categories), id);
        && (i >= 0 ==> service.categories == RemoveAt(old(service.categories), i)
                       && service.file == Stored(service.categories) && service.nextId == old(service.nextId))
        && (i == -1 ==> service.ReloadedFrom(old(service.categories), old(service.nextId), old(service.file)))
      ensures old(service.Valid()) ==> service.Valid()
      ensures categories == service.categories
      ensures currentProject == old(currentProject) && tasks == old(tasks) && Form() == old(Form())
    {
      service.DeleteCategory(id);
      LoadCategories(service);
    }
  }
}
