/**
 * ProjectService: creating a project for the signed-in user, reading one
 * project with its ownership check, and listing the user's projects.
 *
 * The UUID parser is a parameter: `parse(s)` is the UUID the text denotes,
 * or None when UUID(s) raises ValueError.
 */
module ProjectServices {
  import opened Wrappers
  import opened Config
  import opened Records
  import opened Repositories
  import opened Projects

  /** ProjectCreateSchema: dates are days, as integers. */
  datatype ProjectCreate = ProjectCreate(
    name: string,
    status: ProjectStatus,
    projectType: ProjectType,
    startDate: Option<int>,
    endDate: Option<int>,
    address: Option<string>)

  /** payload.model_dump() */
  function DumpProject(p: ProjectCreate): map<string, Value> {
    map[NameKey := Str(p.name), "status" := Str(StatusValue(p.status)), "type" := Str(TypeValue(p.projectType)),
        "start_date" := OptInt(p.startDate), "end_date" := OptInt(p.endDate), "address" := OptStr(p.address)]
  }

  /** The columns of the new project: the payload's fields and the owner. */
  function ProjectColumns(p: ProjectCreate, user: Record): (c: map<string, Value>)
    ensures Conforms(ProjectModel, Record(0, 0, 0, None, c))
    ensures c[UserIdKey] == Id(user.uuid)
    ensures forall k :: k in DumpProject(p) ==> c[k] == DumpProject(p)[k]
  {
    Construct(ProjectModel, DumpProject(p)[UserIdKey := Id(user.uuid)])
  }

  const InvalidUuid: string := "Invalid project UUID format"
  const ProjectNotFound: string := "Project not found"
  const NotOwner: string := "You don't have permission to access this project"

  class ProjectService {
    const projects: Repository
    const parse: string -> Option<Uuid>

    ghost predicate Valid()
      reads this, projects
    {
      projects.model == ProjectModel && projects.Valid()
    }

    constructor (projects: Repository, parse: string -> Option<Uuid>)
      requires projects.model == ProjectModel && projects.Valid()
      ensures Valid() && this.projects == projects && this.parse == parse
    {
      this.projects := projects;
      this.parse := parse;
    }

    /** create_project: persist the payload with user_id set to the caller's uuid. */
    method CreateProject(payload: ProjectCreate, user: Record, newUuid: Uuid, now: int)
      returns (r: Result<Record, Failure>)
      requires Valid()
      modifies projects
      ensures Valid()
      ensures r.Ok? ==> && r.value == Record(newUuid, now, now, None, ProjectColumns(payload, user))
                        && projects.table == old(projects.table) + [r.value]
                        && Attr(r.value, UserIdKey) == Some(Id(user.uuid))
                        && projects.Get(newUuid) == Some(r.value)
      ensures r.Err? ==> r.error == Unhandled("IntegrityError") && projects.table == old(projects.table)
      ensures r.Ok? <==> forall x :: x in old(projects.table) ==> x.uuid != newUuid
    {
      var data := DumpProject(payload)[UserIdKey := Id(user.uuid)];
      var project := new Entity.New(newUuid, now, Construct(projects.model, data));
      var created := projects.Create(project);
      if created.Err? {
        return Err(Unhandled("IntegrityError"));
      }
      FindUnique(projects.table, newUuid, |projects.table| - 1);
      r := Ok(created.value);
    }

    /** get_project: 400 for text that is not a UUID, 404 for no live project, 403 for another owner. */
    function GetProject(projectUuid: string, user: Record): (r: Result<Record, Failure>)
      reads this, projects
      ensures parse(projectUuid).None? ==> r == Err(HttpError(BadRequest, InvalidUuid))
      ensures parse(projectUuid).Some? && projects.Get(parse(projectUuid).value).None? ==>
        r == Err(HttpError(NotFound, ProjectNotFound))
      ensures r == Err(HttpError(Forbidden, NotOwner)) <==>
        && parse(projectUuid).Some?
        && projects.Get(parse(projectUuid).value).Some?
        && Attr(projects.Get(parse(projectUuid).value).value, UserIdKey) != Some(Id(user.uuid))
      ensures r.Ok? ==> && r.value in projects.table
                        && Some(r.value.uuid) == parse(projectUuid)
                        && (projects.model.supportsSoftDelete ==> r.value.Live())
                        && Attr(r.value, UserIdKey) == Some(Id(user.uuid))
    {
      match parse(projectUuid)
      case None => Err(HttpError(BadRequest, InvalidUuid))
      case Some(id) =>
        match projects.Get(id)
        case None => Err(HttpError(NotFound, ProjectNotFound))
        case Some(project) =>
          if Attr(project, UserIdKey) != Some(Id(user.uuid)) then Err(HttpError(Forbidden, NotOwner))
          else Ok(project)
    }

    /**
     * get_all_projects: the caller's live projects from position `skip` on,
     * at most `limit` of them, in table order.
     */
    function GetAllProjects(user: Record, skip: nat, limit: nat): (r: seq<Record>)
      reads this, projects
      requires Valid()
      ensures |r| <= limit
      ensures forall x :: x in r ==> x in projects.table && x.Live() && Attr(x, UserIdKey) == Some(Id(user.uuid))
      ensures |r| == if skip >= |Positions(projects.table, OwnedBy(user))| then 0
                     else Min(limit, |Positions(projects.table, OwnedBy(user))| - skip)
      ensures forall i :: 0 <= i < |r| ==> r[i] == projects.table[Positions(projects.table, OwnedBy(user))[skip + i]]
    {
      OwnedSelected(projects.table, user);
      GetByFiltersAt(projects, skip, limit, false, map[UserIdKey := Id(user.uuid)]);
      projects.GetByFilters(skip, limit, false, map[UserIdKey := Id(user.uuid)])
    }
  }

  /** The live projects whose user_id is the caller's uuid. */
  function OwnedBy(user: Record): Record -> bool {
    (x: Record) => x.Live() && Attr(x, UserIdKey) == Some(Id(user.uuid))
  }

  /** Filtering projects on user_id selects exactly the caller's live projects. */
  lemma OwnedSelected(t: seq<Record>, user: Record)
    ensures Positions(t, SelectedBy(ProjectModel, Recognized(ProjectModel, map[UserIdKey := Id(user.uuid)]), false))
         == Positions(t, OwnedBy(user))
  {
    var filters := map[UserIdKey := Id(user.uuid)];
    assert Recognized(ProjectModel, filters) == filters;
    PositionsAgree(t, SelectedBy(ProjectModel, filters, false), OwnedBy(user));
  }

  /** A project the caller created is the one get_project then returns to them. */
  lemma CreatedProjectReadable(s: ProjectService, text: string, user: Record, row: Record)
    requires s.Valid() && row in s.projects.table && row.Live()
    requires s.parse(text) == Some(row.uuid) && Attr(row, UserIdKey) == Some(Id(user.uuid))
    ensures s.GetProject(text, user) == Ok(row)
  {
    FindUniqueIn(s.projects.table, row);
  }

  /** Another user is refused a project that exists. */
  lemma OtherUserForbidden(s: ProjectService, text: string, owner: Record, other: Record, row: Record)
    requires s.Valid() && row in s.projects.table && row.Live()
    requires s.parse(text) == Some(row.uuid) && Attr(row, UserIdKey) == Some(Id(owner.uuid))
    requires other.uuid != owner.uuid
    ensures s.GetProject(text, other) == Err(HttpError(Forbidden, NotOwner))
  {
    FindUniqueIn(s.projects.table, row);
  }

  /** A soft-deleted project is not found, even by its owner. */
  lemma DeletedProjectNotFound(s: ProjectService, text: string, user: Record, row: Record)
    requires s.Valid() && row in s.projects.table && !row.Live() && s.parse(text) == Some(row.uuid)
    ensures s.GetProject(text, user) == Err(HttpError(NotFound, ProjectNotFound))
  {
    FindUniqueIn(s.projects.table, row);
  }

  lemma FindUniqueIn(t: seq<Record>, row: Record)
    requires UniqueIds(t) && row in t
    ensures forall x :: x in t && x.uuid == row.uuid ==> x == row
  {
  }
}
