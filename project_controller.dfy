/** The state-changing handlers of src/controllers/project.controller.js as methods
    on the Project and ProjectMember collections. Each performs the handler's lookups
    and writes in order and is proved to leave the collections, and to answer,
    exactly as the matching function of Projects says; every handler keeps the
    (projectId, userId) index unique. The read-only handlers are the functions
    Projects.UserProjects, Projects.ProjectDetails and Projects.ProjectMembers. */
module ProjectController {

  import opened Common
  import opened Documents
  import opened Constants
  import opened ProjectModel
  import opened UserModel
  import Auth
  import Projects

  class ProjectStore {
    var projects: Collection<Project>
    var members: Collection<Membership>

    ghost function State(): Projects.Registry
      reads this
    {
      Projects.Registry(projects, members)
    }

    ghost predicate Valid()
      reads this
    {
      Projects.WellFormed(State())
    }

    constructor ()
      ensures Valid() && projects == Empty() && members == Empty()
    {
      projects := Empty();
      members := Empty();
    }

    /** `createProject`. */
    method Create(name: Option<string>, description: Option<string>, caller: Id) returns (r: Result<Id>)
      requires Valid()
      modifies this
      ensures Valid()
      ensures Projects.Outcome(State(), r) == Projects.CreateProject(old(State()), name, description, caller)
    {
      if Blank(name) {
        return Err(BadRequest);
      }
      var projectId := projects.nextId;
      projects := Insert(projects, NewProject(name.value, if Truthy(description) then description.value else "", caller));
      var inserted := InsertMembership(members, NewMembership(projectId, caller, Some(Admin)));
      if inserted.None? {
        return Err(Internal);
      }
      members := inserted.value;
      r := Ok(projectId);
    }

    /** `updateProject`. */
    method Update(projectId: Id, name: Option<string>, description: Option<string>) returns (r: Result<Project>)
      requires Valid()
      modifies this
      ensures Valid()
      ensures Projects.Outcome(State(), r) == Projects.UpdateProject(old(State()), projectId, name, description)
    {
      if projectId !in projects.rows {
        return Err(NotFound);
      }
      var updated := Projects.SetProjectFields(projects.rows[projectId], name, description);
      projects := Collection(projects.rows[projectId := updated], projects.nextId);
      r := Ok(updated);
    }

    /** `deleteProject`: the project first, then its memberships. */
    method Delete(projectId: Id) returns (r: Result<()>)
      requires Valid()
      modifies this
      ensures Valid()
      ensures Projects.Outcome(State(), r) == Projects.DeleteProject(old(State()), projectId)
    {
      if projectId !in projects.rows {
        return Err(NotFound);
      }
      projects := Collection(projects.rows - {projectId}, projects.nextId);
      members := DeleteWhere(members, OfProject(projectId));
      r := Ok(());
    }

    /** `addProjectMember`. */
    method AddMember(users: Collection<User>, projectId: Id, email: Option<string>, role: Option<string>)
      returns (r: Result<Membership>)
      requires Valid() && Documents.Valid(users)
      modifies this
      ensures Valid()
      ensures Projects.Outcome(State(), r) == Projects.AddProjectMember(old(State()), users, projectId, email, role)
    {
      if email.None? {
        return Err(Internal);
      }
      var user := FindOne(users, Auth.ByEmail(email));
      if user.None? {
        return Err(NotFound);
      }
      var existing := FindOne(members, IsRow(projectId, user.value));
      if existing.Some? {
        return Err(Conflict);
      }
      var requested := Projects.RequestedRole(role);
      if requested.Err? {
        return Err(requested.status);
      }
      var member := NewMembership(projectId, user.value, Some(requested.value));
      members := InsertMembership(members, member).value;
      r := Ok(member);
    }

    /** `updateMemberRole`. */
    method UpdateMemberRole(projectId: Id, userId: Id, role: Option<string>) returns (r: Result<Membership>)
      requires Valid()
      modifies this
      ensures Valid()
      ensures Projects.Outcome(State(), r) == Projects.UpdateMemberRole(old(State()), projectId, userId, role)
    {
      var found := FindOne(members, IsRow(projectId, userId));
      if found.None? {
        return Err(NotFound);
      }
      var member := members.rows[found.value];
      if role.Some? {
        member := member.(role := StoredRole(role.value));
      }
      members := Collection(members.rows[found.value := member], members.nextId);
      r := Ok(member);
    }

    /** `removeMember`. */
    method RemoveMember(projectId: Id, userId: Id) returns (r: Result<()>)
      requires Valid()
      modifies this
      ensures Valid()
      ensures Projects.Outcome(State(), r) == Projects.RemoveMember(old(State()), projectId, userId)
    {
      var found := FindOne(members, IsRow(projectId, userId));
      if found.None? {
        return Err(NotFound);
      }
      members := Collection(members.rows - {found.value}, members.nextId);
      r := Ok(());
    }
  }
}
