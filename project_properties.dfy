/** What the project and membership handlers promise across requests, and how they
    meet the access gate: a creator passes every gate of the new project, an added
    member is admitted exactly as the policy says, removal and project deletion revoke
    access, and the membership registry only ever refers to existing projects. */
module ProjectProperties {

  import opened Common
  import opened Documents
  import opened Constants
  import opened ProjectModel
  import opened UserModel
  import opened Rbac
  import Routes
  import opened Projects
  import Auth

  /** Every membership row names an existing project. */
  ghost predicate RowsReferenceProjects(reg: Registry)
  {
    forall id :: id in reg.members.rows ==> reg.members.rows[id].projectId in reg.projects.rows
  }

  /** The creator of a project passes every project-scoped route of it as `admin`. */
  lemma CreatorPassesEveryGate(reg: Registry, name: Option<string>, description: Option<string>, caller: Id, route: Routes.Route)
    requires WellFormed(reg)
    requires CreateProject(reg, name, description, caller).result.Ok?
    requires Routes.AllowList(route).Some?
    ensures
      var r := CreateProject(reg, name, description, caller);
      Routes.Dispatch(Some(caller), route, r.result.value, r.reg.members) == Ok(Routes.Admitted(Some(Admin)))
  {
    var r := CreateProject(reg, name, description, caller);
    InsertedIsValue(reg.members, Membership(r.result.value, caller, Admin));
    Routes.DispatchFollowsReference(caller, route, r.result.value, r.reg.members, Admin);
  }

  /** With every row naming an existing project, the new project's id has no rows, so
      the creator's membership insert cannot collide: a non-blank name always yields
      201, and the registry still refers only to existing projects. */
  lemma CreateProjectSucceeds(reg: Registry, name: Option<string>, description: Option<string>, caller: Id)
    requires WellFormed(reg) && RowsReferenceProjects(reg)
    requires !Blank(name)
    ensures CreateProject(reg, name, description, caller).result == Ok(reg.projects.nextId)
    ensures RowsReferenceProjects(CreateProject(reg, name, description, caller).reg)
  {
    NoRowForNextProject(reg, caller);
    InsertBothKeepsReferences(reg, NewProject(name.value, if Truthy(description) then description.value else "", caller),
                              Membership(reg.projects.nextId, caller, Admin));
  }

  /** A new project together with a row naming it keeps every row pointing at an
      existing project. */
  lemma InsertBothKeepsReferences(reg: Registry, p: Project, m: Membership)
    requires WellFormed(reg) && RowsReferenceProjects(reg)
    requires m.projectId == reg.projects.nextId
    ensures RowsReferenceProjects(Registry(Insert(reg.projects, p), Insert(reg.members, m)))
  {
    var after := Registry(Insert(reg.projects, p), Insert(reg.members, m));
    InsertedRow(reg.projects, p);
    InsertedRow(reg.members, m);
    GrowingKeepsReferences(reg, after, reg.members.nextId);
  }

  lemma NoRowForNextProject(reg: Registry, caller: Id)
    requires WellFormed(reg) && RowsReferenceProjects(reg)
    ensures !exists id :: id in reg.members.rows && IsRow(reg.projects.nextId, caller)(reg.members.rows[id])
  {
    assert reg.projects.nextId !in reg.projects.rows;
  }

  /** Adding projects, and one row that names an existing project, keeps every row
      pointing at an existing project. */
  lemma GrowingKeepsReferences(before: Registry, after: Registry, row: Id)
    requires RowsReferenceProjects(before)
    requires forall p :: p in before.projects.rows ==> p in after.projects.rows
    requires row in after.members.rows && after.members.rows[row].projectId in after.projects.rows
    requires forall j :: j in after.members.rows && j != row ==> j in before.members.rows && after.members.rows[j] == before.members.rows[j]
    ensures RowsReferenceProjects(after)
  {
  }

  /** Deleting a project keeps every remaining row pointing at an existing project and
      leaves nobody with access to the deleted one. */
  lemma DeleteProjectRevokesAccess(reg: Registry, projectId: Id, caller: Id, allowedRoles: seq<Role>)
    requires WellFormed(reg) && RowsReferenceProjects(reg)
    requires DeleteProject(reg, projectId).result.Ok?
    ensures RowsReferenceProjects(DeleteProject(reg, projectId).reg)
    ensures AccessDecision(DeleteProject(reg, projectId).reg.members, projectId, caller, allowedRoles) == NoAccess
  {
  }

  /** Adding a member to an existing project keeps every row pointing at an existing
      project. */
  lemma AddMemberKeepsReferences(reg: Registry, users: Collection<User>, projectId: Id,
                                 email: Option<string>, role: Option<string>)
    requires WellFormed(reg) && Valid(users) && RowsReferenceProjects(reg)
    requires projectId in reg.projects.rows
    ensures RowsReferenceProjects(AddProjectMember(reg, users, projectId, email, role).reg)
  {
  }

  /** Changing a role or removing a row never adds a project reference. */
  lemma MemberUpdatesKeepReferences(reg: Registry, projectId: Id, userId: Id, newRole: Option<string>)
    requires WellFormed(reg) && RowsReferenceProjects(reg)
    ensures RowsReferenceProjects(UpdateMemberRole(reg, projectId, userId, newRole).reg)
    ensures RowsReferenceProjects(RemoveMember(reg, projectId, userId).reg)
  {
    var u := UpdateMemberRole(reg, projectId, userId, newRole);
    if u.result.Ok? {
      var id :| && id in reg.members.rows && IsRow(projectId, userId)(reg.members.rows[id])
                && u.result.value == Membership(projectId, userId, if newRole.Some? then StoredRole(newRole.value) else reg.members.rows[id].role)
                && u.reg.members == Collection(reg.members.rows[id := u.result.value], reg.members.nextId);
      assert u.result.value.projectId == reg.members.rows[id].projectId;
    }
  }

  /** The new member is admitted to exactly the routes the reference policy permits to
      the role the request asked for (plain `member` when it named none). */
  lemma AddedMemberFollowsPolicy(reg: Registry, users: Collection<User>, projectId: Id, email: Option<string>,
                                 role: Option<string>, route: Routes.Route)
    requires WellFormed(reg) && Valid(users)
    requires AddProjectMember(reg, users, projectId, email, role).result.Ok?
    ensures
      var r := AddProjectMember(reg, users, projectId, email, role);
      var m := r.result.value;
      && (!Truthy(role) ==> m.role == Member)
      && (Routes.Dispatch(Some(m.userId), route, projectId, r.reg.members).Ok? <==> Routes.AllowList(route).None? || Routes.Permits(m.role, route))
  {
    var r := AddProjectMember(reg, users, projectId, email, role);
    var m := r.result.value;
    assert r.reg.members.rows[reg.members.nextId] == m;
    Routes.DispatchFollowsReference(m.userId, route, projectId, r.reg.members, m.role);
  }

  /** Adding the same email to the same project twice: the second request is 409,
      whatever role it asks for. */
  lemma AddMemberTwiceConflicts(reg: Registry, users: Collection<User>, projectId: Id, email: Option<string>,
                                role: Option<string>, role2: Option<string>)
    requires WellFormed(reg) && Valid(users)
    requires AddProjectMember(reg, users, projectId, email, role).result.Ok?
    ensures
      var r := AddProjectMember(reg, users, projectId, email, role);
      AddProjectMember(r.reg, users, projectId, email, role2).result == Err(Conflict)
  {
    var r := AddProjectMember(reg, users, projectId, email, role);
    var uid := FindOne(users, Auth.ByEmail(email)).value;
    assert r.reg.members.rows[reg.members.nextId] == r.result.value;
    assert IsRow(projectId, uid)(r.reg.members.rows[reg.members.nextId]);
  }

  /** After a role change the gate enforces the stored role: the member is admitted to
      exactly the routes the reference policy permits to it. */
  lemma UpdatedRoleIsEnforced(reg: Registry, projectId: Id, userId: Id, role: string, route: Routes.Route)
    requires WellFormed(reg)
    requires UpdateMemberRole(reg, projectId, userId, Some(role)).result.Ok?
    ensures
      var r := UpdateMemberRole(reg, projectId, userId, Some(role));
      (Routes.Dispatch(Some(userId), route, projectId, r.reg.members).Ok?
       <==> Routes.AllowList(route).None? || Routes.Permits(StoredRole(role), route))
  {
    var r := UpdateMemberRole(reg, projectId, userId, Some(role));
    var id :| && id in reg.members.rows && IsRow(projectId, userId)(reg.members.rows[id])
              && r.result.value == Membership(projectId, userId, StoredRole(role))
              && r.reg.members == Collection(reg.members.rows[id := r.result.value], reg.members.nextId);
    assert r.reg.members.rows[id] == Membership(projectId, userId, StoredRole(role));
    Routes.DispatchFollowsReference(userId, route, projectId, r.reg.members, StoredRole(role));
  }

  /** As written, a role update accepts a string outside the enum (say "owner") and
      stores it; the gate then admits that member exactly where a plain member is
      admitted, so an admin who sends a misspelt role demotes the member. */
  lemma UnlistedRoleActsAsMember(reg: Registry, projectId: Id, userId: Id, role: string, route: Routes.Route)
    requires WellFormed(reg)
    requires exists id :: id in reg.members.rows && IsRow(projectId, userId)(reg.members.rows[id])
    requires role !in AvailUserRoles()
    ensures
      var r := UpdateMemberRole(reg, projectId, userId, Some(role));
      && r.result.Ok?
      && r.result.value.role.Unlisted? && RoleValue(r.result.value.role) == role
      && (Routes.Dispatch(Some(userId), route, projectId, r.reg.members).Ok? <==>
          Routes.AllowList(route).None? || Routes.Permits(Member, route))
  {
    UpdatedRoleIsEnforced(reg, projectId, userId, role, route);
  }

  /** A removed member is refused every project-scoped route with the "no access"
      refusal. */
  lemma RemovedMemberIsRefused(reg: Registry, projectId: Id, userId: Id, route: Routes.Route)
    requires WellFormed(reg)
    requires RemoveMember(reg, projectId, userId).result.Ok?
    requires Routes.AllowList(route).Some?
    ensures
      var r := RemoveMember(reg, projectId, userId);
      && AccessDecision(r.reg.members, projectId, userId, Routes.AllowList(route).value) == NoAccess
      && Routes.Dispatch(Some(userId), route, projectId, r.reg.members) == Err(Forbidden)
  {
    var r := RemoveMember(reg, projectId, userId);
    var id :| && id in reg.members.rows && IsRow(projectId, userId)(reg.members.rows[id])
              && r.reg.members == Collection(reg.members.rows - {id}, reg.members.nextId);
    assert forall other :: other in r.reg.members.rows ==> !IsRow(projectId, userId)(r.reg.members.rows[other]);
  }

  /** `getUserProjects` lists each project at most once (the unique index), and every
      listed project has at least one member: the caller. */
  lemma UserProjectsDistinct(reg: Registry, caller: Id)
    requires WellFormed(reg)
    ensures var entries := UserProjects(reg, caller);
      forall i, j :: 0 <= i < j < |entries| ==> entries[i].projectId != entries[j].projectId
    ensures var entries := UserProjects(reg, caller);
      forall i :: 0 <= i < |entries| ==> entries[i].memberCount >= 1
  {
    var entries := UserProjects(reg, caller);
    var ids := Find(reg.members, HeldBy(caller, reg.projects));
    assert |entries| == |ids|;
    forall i | 0 <= i < |entries| ensures entries[i].memberCount >= 1 {
      assert ids[i] in ids;
      assert ids[i] in Matching(reg.members, OfProject(entries[i].projectId));
    }
    forall i, j | 0 <= i < j < |entries| ensures entries[i].projectId != entries[j].projectId {
      assert ids[i] in ids && ids[j] in ids;
      assert ids[i] < ids[j];
    }
  }

  /** Right after creating a project, its creator's project list shows it, with the
      creator as `admin` and a membership of one. */
  lemma CreatedProjectIsListed(reg: Registry, name: Option<string>, description: Option<string>, caller: Id)
    requires WellFormed(reg) && RowsReferenceProjects(reg)
    requires !Blank(name)
    ensures
      var r := CreateProject(reg, name, description, caller);
      var entries := UserProjects(r.reg, caller);
      exists i :: 0 <= i < |entries| && entries[i].projectId == reg.projects.nextId
                                     && entries[i].role == Admin && entries[i].memberCount == 1
                                     && entries[i].owner == caller && entries[i].name == Trim(name.value)
  {
    var r := CreateProject(reg, name, description, caller);
    CreatedRows(reg, name, description, caller);
    NewProjectHasOneMember(reg, r.reg, reg.projects.nextId, reg.members.nextId, caller);
    RowIsListed(r.reg, caller, reg.members.nextId);
  }

  /** The two rows a successful create writes. */
  lemma CreatedRows(reg: Registry, name: Option<string>, description: Option<string>, caller: Id)
    requires WellFormed(reg) && RowsReferenceProjects(reg)
    requires !Blank(name)
    ensures
      var r := CreateProject(reg, name, description, caller);
      && r.reg.members.rows == reg.members.rows[reg.members.nextId := Membership(reg.projects.nextId, caller, Admin)]
      && reg.projects.nextId in r.reg.projects.rows
      && r.reg.projects.rows[reg.projects.nextId].owner == caller
      && r.reg.projects.rows[reg.projects.nextId].name == Trim(name.value)
  {
    CreateProjectSucceeds(reg, name, description, caller);
  }

  /** Each membership of the caller in an existing project shows up in the list. */
  lemma RowIsListed(reg: Registry, caller: Id, mid: Id)
    requires WellFormed(reg)
    requires mid in reg.members.rows && HeldBy(caller, reg.projects)(reg.members.rows[mid])
    ensures
      var m := reg.members.rows[mid];
      var entries := UserProjects(reg, caller);
      exists i :: 0 <= i < |entries| && entries[i].projectId == m.projectId && entries[i].role == m.role
                                     && entries[i].memberCount == Count(reg.members, OfProject(m.projectId))
                                     && entries[i].owner == reg.projects.rows[m.projectId].owner
                                     && entries[i].name == reg.projects.rows[m.projectId].name
  {
    var entries := UserProjects(reg, caller);
    var i :| 0 <= i < |entries| && entries[i].projectId == reg.members.rows[mid].projectId
                                && entries[i].role == reg.members.rows[mid].role;
  }

  lemma NewProjectHasOneMember(before: Registry, after: Registry, pid: Id, mid: Id, caller: Id)
    requires RowsReferenceProjects(before) && Valid(after.members)
    requires pid !in before.projects.rows
    requires after.members.rows == before.members.rows[mid := Membership(pid, caller, Admin)]
    ensures Count(after.members, OfProject(pid)) == 1
  {
    assert Matching(after.members, OfProject(pid)) == {mid};
  }
}
