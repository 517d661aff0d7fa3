/** The Project and ProjectMember schemas (src/models/project.model.js,
    src/models/projectMember.model.js). */
module ProjectModel {

  import opened Common
  import opened Documents
  import opened Constants

  /** A project; `name` and `description` pass through the schema's `trim` setter. */
  datatype Project = Project(name: string, description: string, owner: Id)

  /** One row of the membership registry. */
  datatype Membership = Membership(projectId: Id, userId: Id, role: Role)

  /** What `Project.create` stores: both string paths trimmed, the owner required. */
  function NewProject(name: string, description: string, owner: Id): (p: Project)
    ensures p.owner == owner
    ensures p.name == Trim(name) && p.description == Trim(description)
  {
    Project(Trim(name), Trim(description), owner)
  }

  /** What `ProjectMember.create` stores: a role left out defaults to `member`. */
  function NewMembership(projectId: Id, userId: Id, role: Option<Role>): (m: Membership)
    ensures m.projectId == projectId && m.userId == userId
    ensures role.None? ==> m.role == Member
    ensures role.Some? ==> m.role == role.value
  {
    Membership(projectId, userId, if role.Some? then role.value else Member)
  }

  /** The filter `{ projectId, userId }`. */
  function IsRow(projectId: Id, userId: Id): Membership -> bool
  {
    (m: Membership) => m.projectId == projectId && m.userId == userId
  }

  /** The filter `{ projectId }`. */
  function OfProject(projectId: Id): Membership -> bool
  {
    (m: Membership) => m.projectId == projectId
  }

  /** The unique index `{ projectId: 1, userId: 1 }`: at most one row per pair. */
  ghost predicate UniqueKey(members: Collection<Membership>)
  {
    forall i, j ::
      i in members.rows && j in members.rows &&
      members.rows[i].projectId == members.rows[j].projectId &&
      members.rows[i].userId == members.rows[j].userId
      ==> i == j
  }

  /** An insert that the unique index admits: the store rejects the row when its
      (projectId, userId) pair is taken, otherwise it keeps the index unique. */
  function InsertMembership(members: Collection<Membership>, m: Membership): (r: Option<Collection<Membership>>)
    requires Valid(members) && UniqueKey(members)
    ensures r.None? <==> FindOne(members, IsRow(m.projectId, m.userId)).Some?
    ensures r.Some? ==> Valid(r.value) && UniqueKey(r.value)
    ensures r.Some? ==> r.value == Insert(members, m)
  {
    if FindOne(members, IsRow(m.projectId, m.userId)).Some? then None
    else Some(Insert(members, m))
  }
}
