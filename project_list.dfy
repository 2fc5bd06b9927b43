/** ProjectListViewModel: the project overview. It holds the projects the
    service returned, splits them into active and archived ones, and shows
    one of the two lists according to the ShowArchived switch. */
module ProjectLists {
  import opened Text
  import opened Seqs
  import opened Models
  import opened JsonData
  import opened ProjectServices

  function IsActive(): Project -> bool {
    (p: Project) => !p.isArchived
  }

  function IsArchived(): Project -> bool {
    (p: Project) => p.isArchived
  }

  /** Projects.Where(p => !p.IsArchived). */
  function ActiveOf(ps: seq<Project>): (r: seq<Project>)
    ensures forall i :: 0 <= i < |r| ==> !r[i].isArchived && r[i] in ps
    ensures forall i :: 0 <= i < |ps| && !ps[i].isArchived ==> ps[i] in r
  {
    Filter(ps, IsActive())
  }

  /** Projects.Where(p => p.IsArchived). */
  function ArchivedOf(ps: seq<Project>): (r: seq<Project>)
    ensures forall i :: 0 <= i < |r| ==> r[i].isArchived && r[i] in ps
    ensures forall i :: 0 <= i < |ps| && ps[i].isArchived ==> ps[i] in r
  {
    Filter(ps, IsArchived())
  }

  /** The active and the archived lists split the projects: every project is
      in exactly one of them, as often as it is in the whole list. */
  lemma ActiveArchivedPartition(ps: seq<Project>)
    ensures multiset(ActiveOf(ps)) + multiset(ArchivedOf(ps)) == multiset(ps)
    ensures |ActiveOf(ps)| + |ArchivedOf(ps)| == |ps|
  {
    FilterPartition(ps, IsActive(), IsArchived());
  }

  /** UpdateDisplayedProjects' choice of source list. */
  function DisplayedOf(ps: seq<Project>, showArchived: bool): (r: seq<Project>)
    ensures forall i :: 0 <= i < |r| ==> r[i].isArchived == showArchived && r[i] in ps
    ensures forall i :: 0 <= i < |ps| && ps[i].isArchived == showArchived ==> ps[i] in r
  {
    if showArchived then ArchivedOf(ps) else ActiveOf(ps)
  }

  /** The two views together show every project exactly once. */
  lemma DisplayedViewsCover(ps: seq<Project>, showArchived: bool)
    ensures multiset(DisplayedOf(ps, showArchived)) + multiset(DisplayedOf(ps, !showArchived)) == multiset(ps)
  {
    ActiveArchivedPartition(ps);
  }

  /** The `Clear()` and `foreach ... Add` loop that refills a view: the
      elements of `ps` that satisfy `p`, in order. */
  method CollectWhere(ps: seq<Project>, p: Project -> bool) returns (r: seq<Project>)
    ensures r == Filter(ps, p)
  {
    r := [];
    for i := 0 to |ps|
      invariant r == Filter(ps[..i], p)
    {
      FilterSnoc(ps, i, p);
      if p(ps[i]) {
        r := r + [ps[i]];
      }
    }
    assert ps[..|ps|] == ps;
  }

  class ProjectListViewModel {
    var projects: seq<Project>
    var activeProjects: seq<Project>
    var archivedProjects: seq<Project>
    var displayedProjects: seq<Project>
    var showArchived: bool
    var newProjectName: string
    var newProjectDescription: Option<string>
    var isAddProjectDialogOpen: bool
    var isDeleteConfirmationOpen: bool
    var projectToDelete: Option<Project>

    /** The three derived lists agree with the projects and the switch. */
    predicate Valid()
      reads this
    {
      && activeProjects == ActiveOf(projects)
      && archivedProjects == ArchivedOf(projects)
      && displayedProjects == DisplayedOf(projects, showArchived)
    }

    /** The constructor, which loads the projects. */
    constructor(service: ProjectService, data: JsonDataService)
      modifies service
      ensures projects == JoinTasks(old(service.projects), AllItems(data.file))
      ensures service.projects == projects && service.nextId == old(service.nextId)
      ensures service.file == old(service.file)
      ensures !showArchived && newProjectName == "" && newProjectDescription == None
      ensures !isAddProjectDialogOpen && !isDeleteConfirmationOpen && projectToDelete == None
      ensures Valid()
    {
      projects := [];
      activeProjects := [];
      archivedProjects := [];
      displayedProjects := [];
      showArchived := false;
      newProjectName := "";
      newProjectDescription := None;
      isAddProjectDialogOpen := false;
      isDeleteConfirmationOpen := false;
      projectToDelete := None;
      new;
      LoadProjects(service, data);
    }

    /** LoadProjectsAsync: takes the service's list and rebuilds the views. */
    method LoadProjects(service: ProjectService, data: JsonDataService)
      modifies this, service
      ensures projects == JoinTasks(old(service.projects), AllItems(data.file))
      ensures service.projects == projects && service.nextId == old(service.nextId)
      ensures service.file == old(service.file)
      ensures showArchived == old(showArchived) && newProjectName == old(newProjectName)
      ensures newProjectDescription == old(newProjectDescription)
      ensures isAddProjectDialogOpen == old(isAddProjectDialogOpen)
      ensures isDeleteConfirmationOpen == old(isDeleteConfirmationOpen) && projectToDelete == old(projectToDelete)
      ensures Valid()
    {
      var loaded := service.GetAllProjects(data);
      projects := loaded;
      UpdateFilteredCollections();
    }

    /** UpdateFilteredCollections: refills the active and archived lists from
        the projects, in their order, then the displayed list. */
    method UpdateFilteredCollections()
      modifies this
      ensures projects == old(projects) && showArchived == old(showArchived)
      ensures newProjectName == old(newProjectName) && newProjectDescription == old(newProjectDescription)
      ensures isAddProjectDialogOpen == old(isAddProjectDialogOpen)
      ensures isDeleteConfirmationOpen == old(isDeleteConfirmationOpen) && projectToDelete == old(projectToDelete)
      ensures Valid()
    {
      var active := CollectWhere(projects, IsActive());
      activeProjects := active;
      var archived := CollectWhere(projects, IsArchived());
      archivedProjects := archived;
      UpdateDisplayedProjects();
    }

    /** UpdateDisplayedProjects: refills the displayed list from the archived
        list when ShowArchived is set, else from the active list. */
    method UpdateDisplayedProjects()
      modifies this
      ensures displayedProjects == if showArchived then archivedProjects else activeProjects
      ensures projects == old(projects) && activeProjects == old(activeProjects)
      ensures archivedProjects == old(archivedProjects) && showArchived == old(showArchived)
      ensures newProjectName == old(newProjectName) && newProjectDescription == old(newProjectDescription)
      ensures isAddProjectDialogOpen == old(isAddProjectDialogOpen)
      ensures isDeleteConfirmationOpen == old(isDeleteConfirmationOpen) && projectToDelete == old(projectToDelete)
    {
      var source := if showArchived then archivedProjects else activeProjects;
      var displayed := [];
      for i := 0 to |source|
        invariant displayed == source[..i]
      {
        displayed := displayed + [source[i]];
      }
      assert source[..|source|] == source;
      displayedProjects := displayed;
    }

    /** ToggleShowArchived: flips the switch and shows the other list; the
        projects and the two lists stay as they were. */
    method ToggleShowArchived()
      requires Valid()
      modifies this
      ensures showArchived == !old(showArchived)
      ensures projects == old(projects) && activeProjects == old(activeProjects)
      ensures archivedProjects == old(archivedProjects)
      ensures displayedProjects == DisplayedOf(projects, showArchived)
      ensures newProjectName == old(newProjectName) && newProjectDescription == old(newProjectDescription)
      ensures isAddProjectDialogOpen == old(isAddProjectDialogOpen)
      ensures isDeleteConfirmationOpen == old(isDeleteConfirmationOpen) && projectToDelete == old(projectToDelete)
      ensures Valid()
    {
      showArchived := !showArchived;
      UpdateDisplayedProjects();
    }

    /** HasProjects: there is at least one project, which is to say the
        active and archived lists are not both empty. */
    function HasProjects(): (r: bool)
      reads this
      ensures r <==> |projects| > 0
      ensures Valid() ==> (r <==> |activeProjects| + |archivedProjects| > 0)
    {
      ActiveArchivedPartition(projects);
      |projects| > 0
    }

    /** CanAddProject: the name is not blank, which is to say the trimmed name
        the new project would get is not empty. */
    function CanAddProject(): (r: bool)
      reads this
      ensures r <==> Trim(newProjectName) != []
    {
      !IsBlank(newProjectName)
    }

    /** OpenAddProjectDialog. */
    method OpenAddProjectDialog()
      modifies this
      ensures newProjectName == "" && newProjectDescription == None && isAddProjectDialogOpen
      ensures projects == old(projects) && activeProjects == old(activeProjects)
      ensures archivedProjects == old(archivedProjects) && displayedProjects == old(displayedProjects)
      ensures showArchived == old(showArchived)
      ensures isDeleteConfirmationOpen == old(isDeleteConfirmationOpen) && projectToDelete == old(projectToDelete)
    {
      newProjectName := "";
      newProjectDescription := None;
      isAddProjectDialogOpen := true;
    }

    /** CancelAddProject. */
    method CancelAddProject()
      modifies this
      ensures newProjectName == "" && newProjectDescription == None && !isAddProjectDialogOpen
      ensures projects == old(projects) && activeProjects == old(activeProjects)
      ensures archivedProjects == old(archivedProjects) && displayedProjects == old(displayedProjects)
      ensures showArchived == old(showArchived)
      ensures isDeleteConfirmationOpen == old(isDeleteConfirmationOpen) && projectToDelete == old(projectToDelete)
    {
      isAddProjectDialogOpen := false;
      newProjectName := "";
      newProjectDescription := None;
    }

    /** AddProjectAsync: creates a project from the trimmed name and
        description and closes the dialog. The view's lists are refreshed
        by the service's change notification, that is, by a later
        LoadProjects. */
    method AddProject(service: ProjectService, now: int) returns (created: Project)
      requires service.Valid()
      modifies this, service
      ensures created.name == Trim(old(newProjectName))
      ensures created.description == TrimOrNull(old(newProjectDescription))
      ensures created.id == old(service.nextId) && !created.isArchived && created.tasks == []
      ensures service.projects == old(service.projects) + [created] && service.Valid()
      ensures service.nextId == old(service.nextId) + 1
      ensures service.file == Stored(PersistProjects(service.projects))
      ensures newProjectName == "" && newProjectDescription == None && !isAddProjectDialogOpen
      ensures projects == old(projects) && activeProjects == old(activeProjects)
      ensures archivedProjects == old(archivedProjects) && displayedProjects == old(displayedProjects)
      ensures showArchived == old(showArchived)
      ensures isDeleteConfirmationOpen == old(isDeleteConfirmationOpen) && projectToDelete == old(projectToDelete)
    {
      var project := Project(0, Trim(newProjectName), TrimOrNull(newProjectDescription), now, false, []);
      created := service.CreateProject(project, now);
      isAddProjectDialogOpen := false;
      newProjectName := "";
      newProjectDescription := None;
    }

    /** ShowDeleteConfirmation. */
    method ShowDeleteConfirmation(project: Project)
      modifies this
      ensures projectToDelete == Some(project) && isDeleteConfirmationOpen
      ensures projects == old(projects) && activeProjects == old(activeProjects)
      ensures archivedProjects == old(archivedProjects) && displayedProjects == old(displayedProjects)
      ensures showArchived == old(showArchived) && isAddProjectDialogOpen == old(isAddProjectDialogOpen)
      ensures newProjectName == old(newProjectName) && newProjectDescription == old(newProjectDescription)
    {
      projectToDelete := Some(project);
      isDeleteConfirmationOpen := true;
    }

    /** CancelDelete. */
    method CancelDelete()
      modifies this
      ensures projectToDelete == None && !isDeleteConfirmationOpen
      ensures projects == old(projects) && activeProjects == old(activeProjects)
      ensures archivedProjects == old(archivedProjects) && displayedProjects == old(displayedProjects)
      ensures showArchived == old(showArchived) && isAddProjectDialogOpen == old(isAddProjectDialogOpen)
      ensures newProjectName == old(newProjectName) && newProjectDescription == old(newProjectDescription)
    {
      isDeleteConfirmationOpen := false;
      projectToDelete := None;
    }

    /** ConfirmDeleteAsync: deletes the project awaiting confirmation and
        closes the confirmation; when the service throws for an unknown id
        the confirmation stays open. With nothing awaiting confirmation it
        does nothing. */
    method ConfirmDelete(service: ProjectService) returns (deleted: bool)
      modifies this, service
      ensures old(projectToDelete) == None ==>
        && !deleted && service.projects == old(service.projects) && service.file == old(service.file)
        && isDeleteConfirmationOpen == old(isDeleteConfirmationOpen) && projectToDelete == None
      ensures old(projectToDelete) != None ==>
        var i := IndexOfProject(old(service.projects), old(projectToDelete).value.id);
        && deleted == (i >= 0)
        && (i >= 0 ==> && service.projects == RemoveAt(old(service.projects), i)
                       && service.file == Stored(PersistProjects(service.projects))
                       && !isDeleteConfirmationOpen && projectToDelete == None)
        && (i == -1 ==> && service.projects == old(service.projects) && service.file == old(service.file)
                        && isDeleteConfirmationOpen == old(isDeleteConfirmationOpen)
                        && projectToDelete == old(projectToDelete))
      ensures service.nextId == old(service.nextId)
      ensures old(service.Valid()) ==> service.Valid()
      ensures projects == old(projects) && activeProjects == old(activeProjects)
      ensures archivedProjects == old(archivedProjects) && displayedProjects == old(displayedProjects)
      ensures showArchived == old(showArchived) && isAddProjectDialogOpen == old(isAddProjectDialogOpen)
      ensures newProjectName == old(newProjectName) && newProjectDescription == old(newProjectDescription)
    {
      deleted := false;
      if projectToDelete != None {
        ghost var before := service.projects;
        ghost var i := IndexOfProject(before, projectToDelete.value.id);
        deleted := service.DeleteProject(projectToDelete.value.id);
        assert deleted == (i >= 0);
        if deleted {
          isDeleteConfirmationOpen := false;
          projectToDelete := None;
        }
      }
    }
  }

  /** Toggling the switch twice shows the list that was shown before. */
  method ToggleShowArchivedTwice(vm: ProjectListViewModel)
    requires vm.Valid()
    modifies vm
    ensures vm.showArchived == old(vm.showArchived)
    ensures vm.displayedProjects == old(vm.displayedProjects)
    ensures vm.projects == old(vm.projects) && vm.activeProjects == old(vm.activeProjects)
    ensures vm.archivedProjects == old(vm.archivedProjects)
    ensures vm.Valid()
  {
    vm.ToggleShowArchived();
    vm.ToggleShowArchived();
  }
}
