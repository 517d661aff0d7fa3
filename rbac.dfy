/** The project access gate, `verifyProjectAccess(allowedRoles)`
    (src/middlewares/rbac.middleware.js). */
module Rbac {

  import opened Common
  import opened Documents
  import opened Constants
  import opened ProjectModel

  /** The gate's three outcomes; both refusals are 403s with different messages. */
  datatype Decision =
    | Granted(row: Membership)
    | NoAccess       // "You don't have access to this project"
    | NoPermission   // "You don't have permission to perform this action"

  /** The decision on the membership row found (if any) and the allow-list. */
  function Decide(row: Option<Membership>, allowedRoles: seq<Role>): (d: Decision)
    ensures row.None? <==> d == NoAccess
    ensures d == NoPermission <==> row.Some? && |allowedRoles| > 0 && row.value.role !in allowedRoles
    ensures d.Granted? ==> d.row == row.value
  {
    if row.None? then NoAccess
    else if |allowedRoles| > 0 && row.value.role !in allowedRoles then NoPermission
    else Granted(row.value)
  }

  /** The membership row the gate looks up: `ProjectMember.findOne({ projectId, userId })`. */
  function LookupRow(members: Collection<Membership>, projectId: Id, userId: Id): (row: Option<Membership>)
    requires Valid(members)
    ensures row.None? <==> !exists id :: id in members.rows && IsRow(projectId, userId)(members.rows[id])
    ensures row.Some? ==> row.value.projectId == projectId && row.value.userId == userId
    ensures row.Some? ==> row.value in members.rows.Values
  {
    var found := FindOne(members, IsRow(projectId, userId));
    if found.Some? then Some(members.rows[found.value]) else None
  }

  /** The whole gate as a function of the registry: look the row up, then decide. */
  function AccessDecision(members: Collection<Membership>, projectId: Id, userId: Id, allowedRoles: seq<Role>): (d: Decision)
    requires Valid(members)
    ensures d == NoAccess <==> !exists id :: id in members.rows && IsRow(projectId, userId)(members.rows[id])
    ensures d.Granted? ==> d.row in members.rows.Values
    ensures d.Granted? ==> d.row.projectId == projectId && d.row.userId == userId
    ensures d.Granted? ==> |allowedRoles| == 0 || d.row.role in allowedRoles
  {
    Decide(LookupRow(members, projectId, userId), allowedRoles)
  }

  /** What the caller of the gate sees: the role on success, 403 on either refusal. */
  function ToResult(d: Decision): (r: Result<Role>)
    ensures r.Ok? <==> d.Granted?
    ensures r.Ok? ==> r.value == d.row.role
    ensures r.Err? ==> r.status == Forbidden
  {
    if d.Granted? then Ok(d.row.role) else Err(Forbidden)
  }

  /** An empty allow-list (the default) admits every member whatever the role, and a
      non-empty one admits exactly the members whose role it lists. */
  lemma AllowListSemantics(members: Collection<Membership>, projectId: Id, userId: Id, allowedRoles: seq<Role>, role: Role)
    requires Valid(members) && UniqueKey(members)
    requires Membership(projectId, userId, role) in members.rows.Values
    ensures AccessDecision(members, projectId, userId, allowedRoles).Granted?
        <==> |allowedRoles| == 0 || role in allowedRoles
    ensures AccessDecision(members, projectId, userId, []).Granted?
  {
    var id :| id in members.rows && members.rows[id] == Membership(projectId, userId, role);
    var row := LookupRow(members, projectId, userId);
    var other :| other in members.rows && members.rows[other] == row.value;
    assert other == id;
  }

  /** The gate reads nothing but the rows for (projectId, userId): two registries that
      agree on those rows get the same decision for every allow-list. */
  lemma AccessIsLocal(m1: Collection<Membership>, m2: Collection<Membership>, projectId: Id, userId: Id, allowedRoles: seq<Role>)
    requires Valid(m1) && Valid(m2)
    requires forall id :: (id in m1.rows && IsRow(projectId, userId)(m1.rows[id]))
                      <==> (id in m2.rows && IsRow(projectId, userId)(m2.rows[id]))
    requires forall id :: id in m1.rows && IsRow(projectId, userId)(m1.rows[id]) ==> m2.rows[id] == m1.rows[id]
    ensures AccessDecision(m1, projectId, userId, allowedRoles) == AccessDecision(m2, projectId, userId, allowedRoles)
  {
    var f1 := FindOne(m1, IsRow(projectId, userId));
    var f2 := FindOne(m2, IsRow(projectId, userId));
    if f1.Some? {
      assert f2.Some?;
      assert f1.value <= f2.value && f2.value <= f1.value;
    }
  }

  /** The request object the gate annotates on success (`req.userRole`, `req.projectMember`). */
  class RequestContext {
    var userRole: Option<Role>
    var projectMember: Option<Membership>

    constructor ()
      ensures userRole.None? && projectMember.None?
    {
      userRole := None;
      projectMember := None;
    }

    /** Runs the gate; on success records the member's role on the request and lets the
        handler run, on refusal leaves the request as it was. */
    method VerifyProjectAccess(members: Collection<Membership>, projectId: Id, userId: Id, allowedRoles: seq<Role>)
      returns (r: Result<Role>)
      requires Valid(members)
      modifies this
      ensures r == ToResult(AccessDecision(members, projectId, userId, allowedRoles))
      ensures r.Ok? ==> userRole == Some(r.value) && projectMember == LookupRow(members, projectId, userId)
      ensures r.Err? ==> userRole == old(userRole) && projectMember == old(projectMember)
    {
      var member := LookupRow(members, projectId, userId);
      if member.None? {
        return Err(Forbidden);
      }
      if |allowedRoles| > 0 && member.value.role !in allowedRoles {
        return Err(Forbidden);
      }
      userRole := Some(member.value.role);
      projectMember := member;
      r := Ok(member.value.role);
    }
  }
}
