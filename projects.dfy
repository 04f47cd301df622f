/**
 * ProjectRepository: the project table and its lookup by name.
 *
 * Project derives from the BaseSQLModel of app/common/models.py, so the
 * repository hides soft-deleted projects.
 */
module Projects {
  import opened Wrappers
  import opened Records
  import opened Repositories

  const NameKey: string := "name"
  const UserIdKey: string := "user_id"

  /** The key get_by_name filters on; it is not a column of Project. */
  const ProjectNameKey: string := "project_name"

  datatype ProjectType = Residential | Commercial | Others

  datatype ProjectStatus = Ongoing | Completed | NotStarted | OnHold

  /** The value a ProjectType member stores. */
  function TypeValue(t: ProjectType): string {
    match t
    case Residential => "residential"
    case Commercial => "commercial"
    case Others => "others"
  }

  /** The value a ProjectStatus member stores. */
  function StatusValue(s: ProjectStatus): string {
    match s
    case Ongoing => "ongoing"
    case Completed => "completed"
    case NotStarted => "not_started"
    case OnHold => "on_hold"
  }

  /** The columns of app/projects/models.py with their defaults. */
  const ProjectModel: Model := Model("Project",
    map[NameKey := Null, "status" := Null, "type" := Null, "start_date" := Null,
        "end_date" := Null, "address" := Null, UserIdKey := Null],
    true)

  /** get_by_name, as written: its filter key is not an attribute, so it is dropped. */
  function GetByName(repo: Repository, projectName: string): (r: Option<Record>)
    reads repo
    ensures r.Some? ==> r.value in repo.table && Visible(repo.model, r.value, false)
    ensures !HasAttr(repo.model, ProjectNameKey) ==>
      (r.None? <==> forall x :: x in repo.table ==> !Visible(repo.model, x, false))
  {
    repo.First(map[ProjectNameKey := Str(projectName)])
  }

  /** On the project table, get_by_name answers the same whatever name it is given. */
  lemma GetByNameIgnoresName(repo: Repository, a: string, b: string)
    requires repo.model == ProjectModel
    ensures GetByName(repo, a) == GetByName(repo, b)
    ensures GetByName(repo, a).None? <==> forall x :: x in repo.table ==> !x.Live()
    ensures GetByName(repo, a).Some? ==> GetByName(repo, a).value.Live()
  {
    UnknownFilterIgnored(ProjectModel, map[], ProjectNameKey, Str(a));
    UnknownFilterIgnored(ProjectModel, map[], ProjectNameKey, Str(b));
  }

  /** A name that differs from every project's name still finds a project. */
  lemma GetByNameFindsOtherProject(repo: Repository, p: Record, name: string)
    requires repo.model == ProjectModel && p in repo.table && p.Live()
    requires forall x :: x in repo.table ==> Attr(x, NameKey) != Some(Str(name))
    ensures GetByName(repo, name).Some?
    ensures Attr(GetByName(repo, name).value, NameKey) != Some(Str(name))
  {
  }

  /** get_by_name as its documentation describes it: the first live project of that name. */
  function GetByNameCorrected(repo: Repository, name: string): (r: Option<Record>)
    reads repo
    ensures r.Some? ==> r.value in repo.table && Visible(repo.model, r.value, false)
    ensures HasAttr(repo.model, NameKey) ==> r.Some? ==> Attr(r.value, NameKey) == Some(Str(name))
    ensures HasAttr(repo.model, NameKey) ==>
      (r.None? <==> forall x :: x in repo.table && Visible(repo.model, x, false) ==> Attr(x, NameKey) != Some(Str(name)))
  {
    repo.First(map[NameKey := Str(name)])
  }
}
