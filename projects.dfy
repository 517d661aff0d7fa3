/** The project and membership handlers of src/controllers/project.controller.js as
    functions from the two collections before a request to the collections after it
    and the handler's outcome. The imperative handlers in ProjectController are proved
    to compute exactly these. */
module Projects {

  import opened Common
  import opened Documents
  import opened Constants
  import opened ProjectModel
  import opened UserModel
  import Auth

  /** The Project and ProjectMember collections. */
  datatype Registry = Registry(projects: Collection<Project>, members: Collection<Membership>)

  /** Both collections well formed and the (projectId, userId) index unique. */
  ghost predicate WellFormed(reg: Registry)
  {
    Valid(reg.projects) && Valid(reg.members) && UniqueKey(reg.members)
  }

  /** The collections after a request, and the request's outcome. */
  datatype Outcome<T> = Outcome(reg: Registry, result: Result<T>)

  /** `createProject`: 400 on a blank name; otherwise the project (description
      defaulting to "") and then the creator's `admin` membership. The membership
      insert is a second write: should the unique index reject it, the request fails
      with 500 and the project stays created. */
  function CreateProject(reg: Registry, name: Option<string>, description: Option<string>, caller: Id): (r: Outcome<Id>)
    requires WellFormed(reg)
    ensures WellFormed(r.reg)
    ensures r.result == Err(BadRequest) <==> Blank(name)
    ensures Blank(name) ==> r.reg == reg
    ensures !Blank(name) ==>
      r.reg.projects == Insert(reg.projects, NewProject(name.value, if Truthy(description) then description.value else "", caller))
    ensures r.result.Ok? ==>
      && r.result.value == reg.projects.nextId
      && r.reg.members == Insert(reg.members, Membership(r.result.value, caller, Admin))
    ensures r.result == Err(Internal) <==>
      !Blank(name) && exists id :: id in reg.members.rows && IsRow(reg.projects.nextId, caller)(reg.members.rows[id])
    ensures r.result.Ok? <==>
      !Blank(name) && !exists id :: id in reg.members.rows && IsRow(reg.projects.nextId, caller)(reg.members.rows[id])
    ensures r.result.Err? ==> r.reg.members == reg.members
  {
    if Blank(name) then Outcome(reg, Err(BadRequest))
    else
      var projectId := reg.projects.nextId;
      var projects := Insert(reg.projects, NewProject(name.value, if Truthy(description) then description.value else "", caller));
      match InsertMembership(reg.members, NewMembership(projectId, caller, Some(Admin)))
      case None => Outcome(Registry(projects, reg.members), Err(Internal))
      case Some(members) => Outcome(Registry(projects, members), Ok(projectId))
  }

  /** One entry of `getUserProjects`: the project's fields, the caller's role in it and
      the size of its membership. */
  datatype ProjectSummary = ProjectSummary(projectId: Id, name: string, description: string, owner: Id,
                                           role: Role, memberCount: nat)

  /** The aggregation's `$match` on the caller followed by `$unwind` of the project
      lookup, which drops memberships whose project no longer exists. */
  function HeldBy(caller: Id, projects: Collection<Project>): Membership -> bool
  {
    (m: Membership) => m.userId == caller && m.projectId in projects.rows
  }

  function Summary(reg: Registry, id: Id): (s: ProjectSummary)
    requires WellFormed(reg)
    requires id in reg.members.rows && reg.members.rows[id].projectId in reg.projects.rows
    ensures s.projectId == reg.members.rows[id].projectId && s.role == reg.members.rows[id].role
  {
    var m := reg.members.rows[id];
    var p := reg.projects.rows[m.projectId];
    ProjectSummary(m.projectId, p.name, p.description, p.owner, m.role, Count(reg.members, OfProject(m.projectId)))
  }

  /** `getUserProjects`: one entry per membership of the caller in an existing
      project, in creation order of the memberships, each carrying the project's
      fields, the caller's role and the number of memberships of that project. */
  function UserProjects(reg: Registry, caller: Id): (entries: seq<ProjectSummary>)
    requires WellFormed(reg)
    ensures |entries| == Count(reg.members, HeldBy(caller, reg.projects))
    ensures forall i :: 0 <= i < |entries| ==>
      && Membership(entries[i].projectId, caller, entries[i].role) in reg.members.rows.Values
      && entries[i].projectId in reg.projects.rows
      && var p := reg.projects.rows[entries[i].projectId];
      && entries[i].name == p.name && entries[i].description == p.description && entries[i].owner == p.owner
      && entries[i].memberCount == Count(reg.members, OfProject(entries[i].projectId))
    ensures forall id :: id in reg.members.rows && HeldBy(caller, reg.projects)(reg.members.rows[id]) ==>
      exists i :: 0 <= i < |entries| && entries[i].projectId == reg.members.rows[id].projectId
                                   && entries[i].role == reg.members.rows[id].role
  {
    var ids := Find(reg.members, HeldBy(caller, reg.projects));
    var entries := seq(|ids|, i requires 0 <= i < |ids| => Summary(reg, ids[i]));
    EachEntryDescribesItsRow(reg, caller, ids, entries);
    ListedOnce(reg, caller, ids, entries);
    entries
  }

  lemma EachEntryDescribesItsRow(reg: Registry, caller: Id, ids: seq<Id>, entries: seq<ProjectSummary>)
    requires WellFormed(reg)
    requires ids == Find(reg.members, HeldBy(caller, reg.projects))
    requires |entries| == |ids| && forall i :: 0 <= i < |ids| ==> entries[i] == Summary(reg, ids[i])
    ensures forall i :: 0 <= i < |entries| ==>
      && Membership(entries[i].projectId, caller, entries[i].role) in reg.members.rows.Values
      && entries[i].projectId in reg.projects.rows
      && var p := reg.projects.rows[entries[i].projectId];
      && entries[i].name == p.name && entries[i].description == p.description && entries[i].owner == p.owner
      && entries[i].memberCount == Count(reg.members, OfProject(entries[i].projectId))
  {
    forall i | 0 <= i < |entries|
      ensures Membership(entries[i].projectId, caller, entries[i].role) in reg.members.rows.Values
    {
      assert ids[i] in ids;
      assert reg.members.rows[ids[i]] == Membership(entries[i].projectId, caller, entries[i].role);
    }
  }

  lemma ListedOnce(reg: Registry, caller: Id, ids: seq<Id>, entries: seq<ProjectSummary>)
    requires WellFormed(reg)
    requires ids == Find(reg.members, HeldBy(caller, reg.projects))
    requires |entries| == |ids| && forall i :: 0 <= i < |ids| ==> entries[i] == Summary(reg, ids[i])
    ensures forall id :: id in reg.members.rows && HeldBy(caller, reg.projects)(reg.members.rows[id]) ==>
      exists i :: 0 <= i < |entries| && entries[i].projectId == reg.members.rows[id].projectId
                                   && entries[i].role == reg.members.rows[id].role
  {
    forall id | id in reg.members.rows && HeldBy(caller, reg.projects)(reg.members.rows[id])
      ensures exists i :: 0 <= i < |entries| && entries[i].projectId == reg.members.rows[id].projectId
                                           && entries[i].role == reg.members.rows[id].role
    {
      assert id in ids;
      var i :| 0 <= i < |ids| && ids[i] == id;
      assert entries[i] == Summary(reg, id);
    }
  }

  /** `getProjectDetails`: 404 for a missing project. */
  function ProjectDetails(reg: Registry, projectId: Id): (r: Result<Project>)
    ensures r.Err? <==> projectId !in reg.projects.rows
    ensures r.Err? ==> r.status == NotFound
    ensures r.Ok? ==> r.value == reg.projects.rows[projectId]
  {
    if projectId in reg.projects.rows then Ok(reg.projects.rows[projectId]) else Err(NotFound)
  }

  /** The `$set` of `updateProject`: a field left out of the body is stripped from the
      update and keeps its value; one given passes through the trim setter. */
  function SetProjectFields(p: Project, name: Option<string>, description: Option<string>): (q: Project)
    ensures q.owner == p.owner
    ensures q.name == (if name.Some? then Trim(name.value) else p.name)
    ensures q.description == (if description.Some? then Trim(description.value) else p.description)
  {
    p.(name := if name.Some? then Trim(name.value) else p.name,
       description := if description.Some? then Trim(description.value) else p.description)
  }

  /** `updateProject`: 404 for a missing project; otherwise only that project changes,
      and the response is the updated document. */
  function UpdateProject(reg: Registry, projectId: Id, name: Option<string>, description: Option<string>): (r: Outcome<Project>)
    requires WellFormed(reg)
    ensures WellFormed(r.reg)
    ensures r.result.Err? <==> projectId !in reg.projects.rows
    ensures r.result.Err? ==> r.result.status == NotFound && r.reg == reg
    ensures r.result.Ok? ==>
      && r.result.value == SetProjectFields(reg.projects.rows[projectId], name, description)
      && r.reg.projects == Collection(reg.projects.rows[projectId := r.result.value], reg.projects.nextId)
      && r.reg.members == reg.members
  {
    if projectId !in reg.projects.rows then Outcome(reg, Err(NotFound))
    else
      var updated := SetProjectFields(reg.projects.rows[projectId], name, description);
      Outcome(Registry(Collection(reg.projects.rows[projectId := updated], reg.projects.nextId), reg.members), Ok(updated))
  }

  /** `deleteProject`: 404 for a missing project; otherwise the project and every
      membership of it are removed. Tasks, subtasks and notes are not touched. */
  function DeleteProject(reg: Registry, projectId: Id): (r: Outcome<()>)
    requires WellFormed(reg)
    ensures WellFormed(r.reg)
    ensures r.result.Err? <==> projectId !in reg.projects.rows
    ensures r.result.Err? ==> r.result.status == NotFound && r.reg == reg
    ensures r.result.Ok? ==>
      && r.reg.projects.rows == reg.projects.rows - {projectId}
      && r.reg.projects.nextId == reg.projects.nextId
      && (forall id :: id in r.reg.members.rows <==> id in reg.members.rows && reg.members.rows[id].projectId != projectId)
      && (forall id :: id in r.reg.members.rows ==> r.reg.members.rows[id] == reg.members.rows[id])
  {
    if projectId !in reg.projects.rows then Outcome(reg, Err(NotFound))
    else
      var projects := Collection(reg.projects.rows - {projectId}, reg.projects.nextId);
      var members := DeleteWhere(reg.members, OfProject(projectId));
      Outcome(Registry(projects, members), Ok(()))
  }

  /** `getProjectMembers`: every membership row of the project, in creation order. A
      missing project simply has none. */
  function ProjectMembers(reg: Registry, projectId: Id): (rows: seq<Membership>)
    requires WellFormed(reg)
    ensures |rows| == Count(reg.members, OfProject(projectId))
    ensures forall i :: 0 <= i < |rows| ==> rows[i].projectId == projectId && rows[i] in reg.members.rows.Values
    ensures forall id :: id in reg.members.rows && reg.members.rows[id].projectId == projectId ==> reg.members.rows[id] in rows
  {
    var ids := Find(reg.members, OfProject(projectId));
    var rows := seq(|ids|, i requires 0 <= i < |ids| => reg.members.rows[ids[i]]);
    assert forall i :: 0 <= i < |ids| ==> ids[i] in ids;
    assert forall id :: id in reg.members.rows && reg.members.rows[id].projectId == projectId ==> reg.members.rows[id] in rows by {
      forall id | id in reg.members.rows && reg.members.rows[id].projectId == projectId
        ensures reg.members.rows[id] in rows
      {
        assert id in ids;
        var i :| 0 <= i < |ids| && ids[i] == id;
        assert rows[i] == reg.members.rows[id];
      }
    }
    rows
  }

  /** The role an `addProjectMember` body asks for: `role || 'member'`, then the
      schema's enum check (an unknown value fails validation: 500). */
  function RequestedRole(role: Option<string>): (r: Result<Role>)
    ensures !Truthy(role) ==> r == Ok(Member)
    ensures Truthy(role) ==> (r.Ok? <==> role.value in AvailUserRoles())
    ensures Truthy(role) && r.Ok? ==> RoleValue(r.value) == role.value
    ensures r.Err? ==> r.status == Internal
  {
    if !Truthy(role) then Ok(Member)
    else match ParseRole(role.value)
      case None => Err(Internal)
      case Some(x) => Ok(x)
  }

  /** `addProjectMember`: a body without an email makes the handler throw (500); 404
      when no user holds the email, 409 when that user already has a row for the
      project; otherwise exactly one membership with the requested role is added. The
      project itself is not looked up: the gate in front of the route guarantees it. */
  function AddProjectMember(reg: Registry, users: Collection<User>, projectId: Id, email: Option<string>, role: Option<string>)
    : (r: Outcome<Membership>)
    requires WellFormed(reg) && Valid(users)
    ensures WellFormed(r.reg)
    ensures r.result.Err? ==> r.reg == reg
    ensures email.None? ==> r.result == Err(Internal)
    ensures r.result == Err(NotFound) <==>
      email.Some? && !exists uid :: uid in users.rows && Auth.ByEmail(email)(users.rows[uid])
    ensures r.result == Err(Conflict) ==>
      exists uid, id :: uid in users.rows && Auth.ByEmail(email)(users.rows[uid])
                     && id in reg.members.rows && IsRow(projectId, uid)(reg.members.rows[id])
    ensures email.Some? && FindOne(users, Auth.ByEmail(email)).Some?
            && FindOne(reg.members, IsRow(projectId, FindOne(users, Auth.ByEmail(email)).value)).Some?
            ==> r.result == Err(Conflict)
    ensures r.result.Ok? ==>
      && email.Some?
      && r.result.value.projectId == projectId
      && r.result.value.userId in users.rows && Auth.ByEmail(email)(users.rows[r.result.value.userId])
      && RequestedRole(role) == Ok(r.result.value.role)
      && (forall id :: id in reg.members.rows ==> !IsRow(projectId, r.result.value.userId)(reg.members.rows[id]))
      && r.reg.members == Insert(reg.members, r.result.value)
      && r.reg.projects == reg.projects
  {
    if email.None? then Outcome(reg, Err(Internal))
    else match FindOne(users, Auth.ByEmail(email))
      case None => Outcome(reg, Err(NotFound))
      case Some(uid) =>
        if FindOne(reg.members, IsRow(projectId, uid)).Some? then Outcome(reg, Err(Conflict))
        else match RequestedRole(role)
          case Err(e) => Outcome(reg, Err(e))
          case Ok(x) =>
            var m := NewMembership(projectId, uid, Some(x));
            var members := InsertMembership(reg.members, m).value;
            Outcome(Registry(reg.projects, members), Ok(m))
  }

  /** `updateMemberRole`: 404 when the pair has no row; otherwise only that row's role
      changes. The `$set` runs no validators, so any string sent is stored as it is,
      in the enum or not. A body without a role is stripped from the update, leaving
      the row as it was. */
  function UpdateMemberRole(reg: Registry, projectId: Id, userId: Id, role: Option<string>): (r: Outcome<Membership>)
    requires WellFormed(reg)
    ensures WellFormed(r.reg)
    ensures r.result.Err? <==> !exists id :: id in reg.members.rows && IsRow(projectId, userId)(reg.members.rows[id])
    ensures r.result.Err? ==> r.result.status == NotFound && r.reg == reg
    ensures r.result.Ok? ==> exists id ::
      && id in reg.members.rows && IsRow(projectId, userId)(reg.members.rows[id])
      && r.result.value == Membership(projectId, userId, if role.Some? then StoredRole(role.value) else reg.members.rows[id].role)
      && r.reg.members == Collection(reg.members.rows[id := r.result.value], reg.members.nextId)
    ensures r.result.Ok? && role.Some? ==> RoleValue(r.result.value.role) == role.value
    ensures r.reg.projects == reg.projects
  {
    match FindOne(reg.members, IsRow(projectId, userId))
    case None => Outcome(reg, Err(NotFound))
    case Some(id) =>
      var row := reg.members.rows[id];
      var updated := if role.Some? then row.(role := StoredRole(role.value)) else row;
      Outcome(Registry(reg.projects, Collection(reg.members.rows[id := updated], reg.members.nextId)), Ok(updated))
  }

  /** `removeMember`: 404 when the pair has no row; otherwise exactly that row is
      deleted. */
  function RemoveMember(reg: Registry, projectId: Id, userId: Id): (r: Outcome<()>)
    requires WellFormed(reg)
    ensures WellFormed(r.reg)
    ensures r.result.Err? <==> !exists id :: id in reg.members.rows && IsRow(projectId, userId)(reg.members.rows[id])
    ensures r.result.Err? ==> r.result.status == NotFound && r.reg == reg
    ensures r.result.Ok? ==> exists id ::
      && id in reg.members.rows && IsRow(projectId, userId)(reg.members.rows[id])
      && r.reg.members == Collection(reg.members.rows - {id}, reg.members.nextId)
    ensures r.reg.projects == reg.projects
  {
    match FindOne(reg.members, IsRow(projectId, userId))
    case None => Outcome(reg, Err(NotFound))
    case Some(id) => Outcome(Registry(reg.projects, Collection(reg.members.rows - {id}, reg.members.nextId)), Ok(()))
  }
}
