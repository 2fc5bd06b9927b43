/** ProjectService: the project table. It keeps the projects in a list with
    a counter for the next id, loads them once from projects.json, and writes
    the whole list back after every change. */
module ProjectServices {
  import opened Text
  import opened Seqs
  import opened Models
  import opened JsonData

  function ProjectId(p: Project): int {
    p.id
  }

  function ProjectHasId(id: int): Project -> bool {
    (p: Project) => p.id == id
  }

  /** The position of the first project with the id, or -1. */
  function IndexOfProject(ps: seq<Project>, id: int): (i: int)
    ensures -1 <= i < |ps|
    ensures i == -1 <==> forall j :: 0 <= j < |ps| ==> ps[j].id != id
    ensures i >= 0 ==> ps[i].id == id && forall j :: 0 <= j < i ==> ps[j].id != id
  {
    FirstIndex(ps, ProjectHasId(id))
  }

  /** GetProjectByIdAsync: the first project with the id; None stands for
      the KeyNotFoundException thrown when there is none. */
  function ProjectById(ps: seq<Project>, id: int): (r: Option<Project>)
    ensures r == None <==> forall j :: 0 <= j < |ps| ==> ps[j].id != id
    ensures r != None ==> r.value.id == id && r.value in ps
  {
    var i := IndexOfProject(ps, id);
    if i == -1 then None else Some(ps[i])
  }

  /** The serialiser's view of the list: projects without their tasks. */
  function PersistProjects(ps: seq<Project>): (r: seq<Project>)
    ensures |r| == |ps|
    ensures forall i :: 0 <= i < |ps| ==> r[i] == PersistedProject(ps[i])
  {
    seq(|ps|, i requires 0 <= i < |ps| => PersistedProject(ps[i]))
  }

  /** Where(t => t.ProjectId == id). */
  function InProject(id: int): TodoItem -> bool {
    (t: TodoItem) => t.projectId == Some(id)
  }

  /** The tasks of one project, in task-store order. */
  function TasksOfProject(all: seq<TodoItem>, id: int): (r: seq<TodoItem>)
    ensures forall i :: 0 <= i < |r| ==> r[i].projectId == Some(id) && r[i] in all
    ensures forall i :: 0 <= i < |all| && all[i].projectId == Some(id) ==> all[i] in r
  {
    Filter(all, InProject(id))
  }

  /** The list after GetAllProjectsAsync: each project carries exactly the
      tasks that name its id, and nothing else about it changes. */
  function JoinTasks(ps: seq<Project>, all: seq<TodoItem>): (r: seq<Project>)
    ensures |r| == |ps|
    ensures forall i :: 0 <= i < |ps| ==> r[i].(tasks := ps[i].tasks) == ps[i]
    ensures forall i :: 0 <= i < |ps| ==> r[i].tasks == TasksOfProject(all, ps[i].id)
  {
    seq(|ps|, i requires 0 <= i < |ps| => ps[i].(tasks := TasksOfProject(all, ps[i].id)))
  }

  /** The list after ArchiveProjectAsync (flag true) or
      UnarchiveProjectAsync (flag false) of a present id: the first project
      with the id gets the flag and nothing else changes. */
  function SetArchived(ps: seq<Project>, id: int, flag: bool): (r: seq<Project>)
    requires IndexOfProject(ps, id) >= 0
    ensures |r| == |ps|
    ensures r[IndexOfProject(ps, id)].isArchived == flag
    ensures forall j :: 0 <= j < |ps| ==> r[j].(isArchived := ps[j].isArchived) == ps[j]
    ensures forall j :: 0 <= j < |ps| && j != IndexOfProject(ps, id) ==> r[j] == ps[j]
  {
    var i := IndexOfProject(ps, id);
    ps[i := ps[i].(isArchived := flag)]
  }

  /** Setting the flag leaves the ids, so the same project is found again. */
  lemma SetArchivedKeepsIndex(ps: seq<Project>, id: int, flag: bool)
    requires IndexOfProject(ps, id) >= 0
    ensures IndexOfProject(SetArchived(ps, id, flag), id) == IndexOfProject(ps, id)
  {
    var i := IndexOfProject(ps, id);
    var r := SetArchived(ps, id, flag);
    assert forall j :: 0 <= j < |ps| ==> r[j].id == ps[j].id;
    assert forall j :: 0 <= j < i ==> r[j].id != id;
  }

  /** Archiving (or unarchiving) twice is the same as once. */
  lemma SetArchivedIdempotent(ps: seq<Project>, id: int, flag: bool)
    requires IndexOfProject(ps, id) >= 0
    ensures SetArchived(SetArchived(ps, id, flag), id, flag) == SetArchived(ps, id, flag)
  {
    SetArchivedKeepsIndex(ps, id, flag);
  }

  /** Setting the flag back to what it was restores the list: unarchiving
      undoes archiving a project that was active. */
  lemma SetArchivedRestores(ps: seq<Project>, id: int, flag: bool)
    requires IndexOfProject(ps, id) >= 0
    ensures SetArchived(SetArchived(ps, id, flag), id, ps[IndexOfProject(ps, id)].isArchived) == ps
  {
    SetArchivedKeepsIndex(ps, id, flag);
  }

  class ProjectService {
    var projects: seq<Project>
    var nextId: int
    /** The content of projects.json. */
    var file: JsonFile<Project>

    /** Every id in the table is below the counter, so the counter is
        always a fresh id. */
    predicate Valid()
      reads this
    {
      forall j :: 0 <= j < |projects| ==> projects[j].id < nextId
    }

    /** The constructor with LoadProjectsSync: a readable list sets the
        counter one past its largest id (1 when the list is empty or `null`);
        no file, or text the deserialiser rejects, leaves the table empty
        and the counter at 1. */
    constructor(stored: JsonFile<Project>)
      ensures file == stored
      ensures stored.Stored? ==> projects == stored.items && nextId == NextId(stored.items, ProjectId)
      ensures !stored.Stored? ==> projects == [] && nextId == 1
      ensures Valid()
    {
      file := stored;
      projects := [];
      nextId := 1;
      match stored
      case Stored(ps) =>
        projects := ps;
        nextId := NextId(ps, ProjectId);
      case NullLiteral =>
        projects := [];
        nextId := 1;
      case _ =>
    }

    /** SaveProjects: the list is written whole. */
    method SaveProjects()
      modifies this
      ensures file == Stored(PersistProjects(projects))
      ensures projects == old(projects) && nextId == old(nextId)
    {
      file := Stored(PersistProjects(projects));
    }

    /** GetAllProjectsAsync: fills in every project's tasks from the task
        store and returns the table. */
    method GetAllProjects(data: JsonDataService) returns (r: seq<Project>)
      modifies this
      ensures projects == JoinTasks(old(projects), AllItems(data.file))
      ensures r == projects
      ensures nextId == old(nextId) && file == old(file)
      ensures old(Valid()) ==> Valid()
    {
      var all := data.GetAll();
      ghost var before := projects;
      for i := 0 to |projects|
        invariant |projects| == |before|
        invariant forall j :: 0 <= j < i ==> projects[j] == before[j].(tasks := TasksOfProject(all, before[j].id))
        invariant forall j :: i <= j < |projects| ==> projects[j] == before[j]
        invariant nextId == old(nextId) && file == old(file)
      {
        projects := projects[i := projects[i].(tasks := TasksOfProject(all, projects[i].id))];
      }
      r := projects;
    }

    /** GetProjectByIdAsync. */
    method GetProjectById(id: int) returns (r: Option<Project>)
      ensures r == ProjectById(projects, id)
    {
      var i := IndexOfProject(projects, id);
      if i == -1 {
        r := None;
      } else {
        r := Some(projects[i]);
      }
    }

    /** CreateProjectAsync: the project takes the counter as its id and `now`
        as its creation time, the counter moves on, and the project is
        appended and saved. The new id exceeds every id in the table. */
    method CreateProject(project: Project, now: int) returns (created: Project)
      requires Valid()
      modifies this
      ensures created == project.(id := old(nextId), createdAt := now)
      ensures projects == old(projects) + [created]
      ensures nextId == old(nextId) + 1
      ensures forall j :: 0 <= j < |old(projects)| ==> old(projects)[j].id < created.id
      ensures file == Stored(PersistProjects(projects))
      ensures Valid()
    {
      created := project.(id := nextId, createdAt := now);
      nextId := nextId + 1;
      projects := projects + [created];
      SaveProjects();
    }

    /** UpdateProjectAsync: replaces the project holding the same id and
        saves. An unknown id throws before anything changes (`found` false). */
    method UpdateProject(project: Project) returns (found: bool)
      modifies this
      ensures var i := IndexOfProject(old(projects), project.id);
        && (i == -1 ==> !found && projects == old(projects) && file == old(file))
        && (i >= 0 ==> found && projects == old(projects)[i := project] && file == Stored(PersistProjects(projects)))
      ensures |projects| == |old(projects)| && nextId == old(nextId)
      ensures old(Valid()) ==> Valid()
    {
      var i := IndexOfProject(projects, project.id);
      if i == -1 {
        found := false;
      } else {
        projects := projects[i := project];
        SaveProjects();
        found := true;
      }
    }

    /** DeleteProjectAsync: removes the project with the id, keeping the
        others in order, and saves. An unknown id throws (`found` false). */
    method DeleteProject(id: int) returns (found: bool)
      modifies this
      ensures var i := IndexOfProject(old(projects), id);
        && (i == -1 ==> !found && projects == old(projects) && file == old(file))
        && (i >= 0 ==> found && projects == RemoveAt(old(projects), i) && file == Stored(PersistProjects(projects)))
      ensures nextId == old(nextId)
      ensures old(Valid()) ==> Valid()
    {
      var i := IndexOfProject(projects, id);
      if i == -1 {
        found := false;
      } else {
        projects := RemoveAt(projects, i);
        SaveProjects();
        found := true;
      }
    }

    /** ArchiveProjectAsync: sets the project's archived flag and saves. */
    method ArchiveProject(id: int) returns (found: bool)
      modifies this
      ensures found <==> IndexOfProject(old(projects), id) >= 0
      ensures !found ==> projects == old(projects) && file == old(file)
      ensures found ==> projects == SetArchived(old(projects), id, true) && file == Stored(PersistProjects(projects))
      ensures nextId == old(nextId)
      ensures old(Valid()) ==> Valid()
    {
      found := SetFlag(id, true);
    }

    /** UnarchiveProjectAsync: clears the project's archived flag and saves. */
    method UnarchiveProject(id: int) returns (found: bool)
      modifies this
      ensures found <==> IndexOfProject(old(projects), id) >= 0
      ensures !found ==> projects == old(projects) && file == old(file)
      ensures found ==> projects == SetArchived(old(projects), id, false) && file == Stored(PersistProjects(projects))
      ensures nextId == old(nextId)
      ensures old(Valid()) ==> Valid()
    {
      found := SetFlag(id, false);
    }

    /** The lookup, the flag assignment and the save that Archive and
        Unarchive share. */
    method SetFlag(id: int, flag: bool) returns (found: bool)
      modifies this
      ensures found <==> IndexOfProject(old(projects), id) >= 0
      ensures !found ==> projects == old(projects) && file == old(file)
      ensures found ==> projects == SetArchived(old(projects), id, flag) && file == Stored(PersistProjects(projects))
      ensures nextId == old(nextId)
      ensures old(Valid()) ==> Valid()
    {
      var i := IndexOfProject(projects, id);
      if i == -1 {
        found := false;
      } else {
        projects := SetArchived(projects, id, flag);
        SaveProjects();
        found := true;
      }
    }
  }
}
