/** The role and task-status enumerations (src/utils/constants.js) and the
    strings the schemas store for them. */
module Constants {

  import opened Common

  /** The role a membership row holds: one of `userRolesEnum`'s three flat roles, or a
      string outside the enum. `ProjectMember.create` validates the enum, but the
      role update's `$set` runs no validators and stores whatever string it is sent. */
  datatype Role = Admin | ProjectAdmin | Member | Unlisted(value: UnlistedValue)

  /** A role string that is none of the enum's values. */
  type UnlistedValue = v: string | v != "admin" && v != "project_admin" && v != "member"
    witness ""

  /** `taskStatusEnum`. */
  datatype TaskStatus = Todo | InProgress | Done

  function RoleValue(r: Role): string
  {
    match r
    case Admin => "admin"
    case ProjectAdmin => "project_admin"
    case Member => "member"
    case Unlisted(v) => v
  }

  function StatusValue(s: TaskStatus): string
  {
    match s
    case Todo => "todo"
    case InProgress => "in_progress"
    case Done => "done"
  }

  /** `availUserRoles = Object.values(userRolesEnum)`. */
  function AvailUserRoles(): (values: seq<string>)
    ensures |values| == 3
    ensures forall v :: v in values <==> exists r: Role :: !r.Unlisted? && RoleValue(r) == v
  {
    var values := [RoleValue(Admin), RoleValue(ProjectAdmin), RoleValue(Member)];
    assert forall r: Role :: !r.Unlisted? ==> RoleValue(r) in values;
    values
  }

  /** `availTaskStatues = Object.values(taskStatusEnum)`. */
  function AvailTaskStatuses(): (values: seq<string>)
    ensures |values| == 3
    ensures forall v :: v in values <==> exists s: TaskStatus :: StatusValue(s) == v
  {
    var values := [StatusValue(Todo), StatusValue(InProgress), StatusValue(Done)];
    assert forall s: TaskStatus :: StatusValue(s) in values;
    values
  }

  /** The schema's `enum` check on a role string: which role it names, if any. */
  function ParseRole(v: string): (r: Option<Role>)
    ensures r.Some? <==> v in AvailUserRoles()
    ensures r.Some? ==> !r.value.Unlisted?
    ensures r.Some? ==> RoleValue(r.value) == v
  {
    if v == "admin" then Some(Admin)
    else if v == "project_admin" then Some(ProjectAdmin)
    else if v == "member" then Some(Member)
    else None
  }

  /** The schema's `enum` check on a status string. */
  function ParseStatus(v: string): (r: Option<TaskStatus>)
    ensures r.Some? <==> v in AvailTaskStatuses()
    ensures r.Some? ==> StatusValue(r.value) == v
  {
    if v == "todo" then Some(Todo)
    else if v == "in_progress" then Some(InProgress)
    else if v == "done" then Some(Done)
    else None
  }

  /** The role a stored string denotes: the enum role it names, or `Unlisted`. */
  function StoredRole(v: string): (r: Role)
    ensures RoleValue(r) == v
    ensures r.Unlisted? <==> v !in AvailUserRoles()
  {
    match ParseRole(v)
    case Some(x) => x
    case None => Unlisted(v)
  }

  /** Every enum role's stored string passes the enum check and reads back as that
      role; a string outside the enum fails it. */
  lemma RoleRoundTrip(r: Role)
    ensures ParseRole(RoleValue(r)) == (if r.Unlisted? then None else Some(r))
  {
  }

  /** Stored strings and roles are in one-to-one correspondence, so no two roles share
      a string. */
  lemma {:induction false} StoredRoleRoundTrip(r: Role)
    ensures StoredRole(RoleValue(r)) == r
  {
    RoleRoundTrip(r);
  }

  lemma StatusRoundTrip(s: TaskStatus)
    ensures ParseStatus(StatusValue(s)) == Some(s)
  {
  }
}
