/** The per-route allow-lists of the project, task and note routers
    (src/routes/project.route.js, src/routes/task.route.js, src/routes/note.route.js)
    and the pipeline every such route runs: authenticate, then (for project-scoped
    routes) the access gate, then the handler. */
module Routes {

  import opened Common
  import opened Documents
  import opened Constants
  import opened ProjectModel
  import opened Rbac

  datatype ProjectRoute =
    | ListProjects | CreateProject
    | GetProject | UpdateProject | DeleteProject
    | ListMembers | AddMember | UpdateMemberRole | RemoveMember

  datatype TaskRoute =
    | ListTasks | CreateTask
    | GetTask | UpdateTask | DeleteTask
    | CreateSubTask | UpdateSubTask | DeleteSubTask

  datatype NoteRoute =
    | ListNotes | CreateNote
    | GetNote | UpdateNote | DeleteNote

  datatype Route = ProjectApi(p: ProjectRoute) | TaskApi(t: TaskRoute) | NoteApi(n: NoteRoute)

  /** project.route.js: `None` where no `verifyProjectAccess` is mounted. */
  function ProjectAllowList(r: ProjectRoute): Option<seq<Role>>
  {
    match r
    case ListProjects => None
    case CreateProject => None
    case GetProject => Some([])
    case UpdateProject => Some([Admin])
    case DeleteProject => Some([Admin])
    case ListMembers => Some([])
    case AddMember => Some([Admin])
    case UpdateMemberRole => Some([Admin])
    case RemoveMember => Some([Admin])
  }

  /** task.route.js: every task route is project-scoped. */
  function TaskAllowList(r: TaskRoute): seq<Role>
  {
    match r
    case ListTasks => []
    case CreateTask => [Admin, ProjectAdmin]
    case GetTask => []
    case UpdateTask => [Admin, ProjectAdmin]
    case DeleteTask => [Admin, ProjectAdmin]
    case CreateSubTask => [Admin, ProjectAdmin]
    case UpdateSubTask => []
    case DeleteSubTask => [Admin, ProjectAdmin]
  }

  /** note.route.js: every note route is project-scoped. */
  function NoteAllowList(r: NoteRoute): seq<Role>
  {
    match r
    case ListNotes => []
    case CreateNote => [Admin]
    case GetNote => []
    case UpdateNote => [Admin]
    case DeleteNote => [Admin]
  }

  function AllowList(route: Route): Option<seq<Role>>
  {
    match route
    case ProjectApi(p) => ProjectAllowList(p)
    case TaskApi(t) => Some(TaskAllowList(t))
    case NoteApi(n) => Some(NoteAllowList(n))
  }

  /** What reaches the handler: the caller's role when the route is project-scoped. */
  datatype Admission = Admitted(role: Option<Role>)

  /** `router.use(verifyJWT)` then the route's gate. The caller's identity is what the
      bearer-token check produced (`None`: no valid token). */
  function Dispatch(caller: Option<Id>, route: Route, projectId: Id, members: Collection<Membership>): (r: Result<Admission>)
    requires Valid(members)
    ensures caller.None? ==> r == Err(Unauthorized)
    ensures caller.Some? && AllowList(route).None? ==> r == Ok(Admitted(None))
    ensures caller.Some? && AllowList(route).Some? ==>
      r == (match ToResult(AccessDecision(members, projectId, caller.value, AllowList(route).value))
            case Ok(role) => Ok(Admitted(Some(role)))
            case Err(s) => Err(s))
  {
    if caller.None? then Err(Unauthorized)
    else match AllowList(route)
      case None => Ok(Admitted(None))
      case Some(allowed) =>
        match ToResult(AccessDecision(members, projectId, caller.value, allowed))
        case Ok(role) => Ok(Admitted(Some(role)))
        case Err(s) => Err(s)
  }

  /** The policy written role by role, as an independent reference: admins may do
      everything; project admins may read everything and manage tasks and subtasks;
      plain members may read everything and update subtasks; a role outside the enum
      is on no list and may do only what every member may. */
  predicate Permits(role: Role, route: Route)
  {
    match role
    case Admin => true
    case ProjectAdmin => IsRead(route) || route.TaskApi?
    case Member => IsRead(route) || route == TaskApi(UpdateSubTask)
    case Unlisted(_) => IsRead(route) || route == TaskApi(UpdateSubTask)
  }

  predicate IsRead(route: Route)
  {
    route in {ProjectApi(GetProject), ProjectApi(ListMembers), TaskApi(ListTasks), TaskApi(GetTask),
              NoteApi(ListNotes), NoteApi(GetNote)}
  }

  /** The three allow-list tables grant a member with role `role` exactly what the
      role-by-role reference permits. */
  lemma {:induction false} TablesMatchReference(route: Route, role: Role)
    requires AllowList(route).Some?
    ensures Decide(Some(Membership(0, 0, role)), AllowList(route).value).Granted? <==> Permits(role, route)
  {
    match route
    case ProjectApi(p) =>
    case TaskApi(t) =>
    case NoteApi(n) =>
  }

  /** Gated routes only: listing one's projects and creating one need no membership. */
  lemma UngatedRoutes(route: Route)
    ensures AllowList(route).None? <==> route in {ProjectApi(ListProjects), ProjectApi(CreateProject)}
  {
  }

  /** Although the roles are flat, the tables happen to be nested: whatever a member may
      do a project admin may do, and whatever a project admin may do an admin may do. */
  lemma TablesAreNested(route: Route)
    requires AllowList(route).Some?
    ensures Permits(Member, route) ==> Permits(ProjectAdmin, route)
    ensures Permits(ProjectAdmin, route) ==> Permits(Admin, route)
  {
  }

  /** A caller without a membership row for the project is refused every project-scoped
      route with the "no access" refusal, never the "no permission" one. */
  lemma NonMemberRefusedEverywhere(caller: Id, route: Route, projectId: Id, members: Collection<Membership>)
    requires Valid(members)
    requires AllowList(route).Some?
    requires forall id :: id in members.rows ==> !IsRow(projectId, caller)(members.rows[id])
    ensures Dispatch(Some(caller), route, projectId, members) == Err(Forbidden)
    ensures AccessDecision(members, projectId, caller, AllowList(route).value) == NoAccess
  {
  }

  /** A plain member is refused every route whose allow-list leaves `member` out: in
      particular deleting or updating the project, managing members, creating, updating
      or deleting tasks, creating or deleting subtasks, and writing notes. */
  lemma {:induction false} MemberRefusedOutsideAllowList(caller: Id, route: Route, projectId: Id, members: Collection<Membership>)
    requires Valid(members) && UniqueKey(members)
    requires Membership(projectId, caller, Member) in members.rows.Values
    requires AllowList(route).Some? && !Permits(Member, route)
    ensures Dispatch(Some(caller), route, projectId, members) == Err(Forbidden)
    ensures AccessDecision(members, projectId, caller, AllowList(route).value) == NoPermission
  {
    TablesMatchReference(route, Member);
    AllowListSemantics(members, projectId, caller, AllowList(route).value, Member);
  }

  /** For a caller whose membership row holds `role`, the whole pipeline admits
      exactly the ungated routes and the routes the reference policy permits to
      `role`, and hands the handler that role. */
  lemma DispatchFollowsReference(caller: Id, route: Route, projectId: Id, members: Collection<Membership>, role: Role)
    requires Valid(members) && UniqueKey(members)
    requires Membership(projectId, caller, role) in members.rows.Values
    ensures Dispatch(Some(caller), route, projectId, members).Ok? <==> AllowList(route).None? || Permits(role, route)
    ensures AllowList(route).Some? && Permits(role, route) ==>
      Dispatch(Some(caller), route, projectId, members) == Ok(Admitted(Some(role)))
  {
    if AllowList(route).Some? {
      TablesMatchReference(route, role);
      AllowListSemantics(members, projectId, caller, AllowList(route).value, role);
      var d := AccessDecision(members, projectId, caller, AllowList(route).value);
      if d.Granted? {
        var id :| id in members.rows && members.rows[id] == Membership(projectId, caller, role);
        var other :| other in members.rows && members.rows[other] == d.row;
        assert other == id;
      }
    }
  }

  /** A member can never delete a project; a project admin cannot either, nor write notes. */
  lemma DeletingAProjectIsAdminOnly(role: Role)
    ensures Decide(Some(Membership(0, 0, role)), AllowList(ProjectApi(DeleteProject)).value).Granted? <==> role == Admin
    ensures Decide(Some(Membership(0, 0, role)), AllowList(NoteApi(CreateNote)).value).Granted? <==> role == Admin
  {
  }

  /** Updating a subtask is the one write open to plain members. */
  lemma OnlySubtaskUpdateIsOpenToMembers(route: Route)
    requires AllowList(route).Some? && !IsRead(route)
    ensures Permits(Member, route) <==> route == TaskApi(UpdateSubTask)
  {
  }
}
