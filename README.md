# Project collaboration API — a Dafny model of its access control, credential lifecycle and stores

This project models the server core of a project-collaboration web application
(Express over Mongoose). Users register, log in and hold one refresh-token slot each.
They create projects, add members with one of three roles, and manage tasks, subtasks
and notes inside a project. Every project-scoped route is guarded by one access gate
and a per-route allow-list of roles.

The model treats every collection as a map from ids to records, plus an id counter.
Ids are handed out in creation order. So "sorted by `createdAt` descending" means
"largest id first", and an unsorted `findOne` returns the matching row with the
smallest id. Hashing (bcrypt, SHA-256) and JWT signing are symbolic, injective
constructors. The clock, salts and random token bytes are parameters.

The modules follow the program's structure:

- `Common`: result and status types, JavaScript `trim`, truthiness, and the
  trim-and-lowercase schema setter.
- `Documents`: the generic collection, with `create`, `find`, `findOne`, newest-first
  `find`, `countDocuments` and `deleteMany`.
- `Constants`: the role and task-status enumerations.
- `UserModel`: the User schema, the pre-save hook, password checking and token
  generation.
- `Rbac`: the `verifyProjectAccess` gate, as a decision function and as a method on the
  request.
- `Routes`: the allow-list tables of the project, task and note routers, the whole
  authenticate-then-gate pipeline, and an independent role-by-role reference policy.
- `Auth`, `AuthProperties`, `AuthController`: the auth handlers as state-transition
  functions, their lifecycle properties, and a `UserStore` class whose methods perform
  the handlers step by step and are proved to compute the functions.
- `ProjectModel`, `Projects`, `ProjectProperties`, `ProjectController`: the same
  pattern for projects and memberships.
- `TaskModel`, `Tasks`, `TaskProperties`, `TaskController`: the same pattern for tasks
  and subtasks.
- `Notes`, `NoteController`: the same pattern for notes.

Mongoose 6 or later is assumed:

- the `trim` and `lowercase` setters run on creation, on update documents and on query
  values;
- keys whose value is `undefined` are stripped from an update document;
- `findByIdAndUpdate` runs no validators.

The model records several behaviours of the code as written:

- The task, subtask and note handlers look records up by id alone. The project in the
  path is checked by the gate but never compared with the record's project
  (`TaskProperties.TasksReachableFromAnyProject`).
- `updateTask` stores any truthy status string, while `createTask` enforces the enum
  (`TaskProperties.UpdateStoresAnyStatus`).
- `updateMemberRole` likewise stores any role string, while `addProjectMember` enforces
  the enum. A role outside the enum is on no allow-list, so its holder passes exactly
  the routes a plain member passes (`ProjectProperties.UnlistedRoleActsAsMember`).
- Deleting a project removes its memberships but not its tasks, subtasks or notes.

## Model

| member | source | states |
|---|---|---|
| Constants.AvailUserRoles | src/utils/constants.js:1-11 | the role list holds exactly the strings of the three enum roles `admin`, `project_admin`, `member`, each once |
| Constants.AvailTaskStatuses | src/utils/constants.js:6-12 | the status list holds exactly `todo`, `in_progress`, `done`, each once |
| Constants.ParseRole | src/models/projectMember.model.js:14-18 | the enum check on a role string: it accepts exactly the listed values, and reads each back as the enum role that writes it |
| Constants.ParseStatus | src/models/task.model.js:22-26 | the enum check on a status string: it accepts exactly the listed values, and reads each back as the status that writes it |
| Constants.RoleRoundTrip | src/utils/constants.js:1-5 | every enum role's stored string passes the enum check and parses back to that role; an unlisted role's string fails the check |
| Constants.StoredRole | src/models/projectMember.model.js:14-18 | the role a stored string denotes writes back as that same string, and is unlisted exactly when the string is outside the enum |
| Constants.StoredRoleRoundTrip | src/models/projectMember.model.js:14-18 | stored strings and roles correspond one to one, so no two roles share a string |
| Constants.StatusRoundTrip | src/utils/constants.js:6-10 | every status's stored string parses back to that status |
| Common.TrimIsInfix | src/models/project.model.js:7 | trimming keeps an infix of the input, with no white space left at either end |
| Common.BlankIffAllSpace | src/controllers/project.controller.js:13 | `!s?.trim()` holds for a present string exactly when all its characters are white space |
| Common.NormalizeIdempotent | src/models/user.model.js:17-31 | a value stored through a lowercase-and-trim path normalises to itself, so a stored username or email matches itself in a query |
| UserModel.PreSave | src/models/user.model.js:63-66 | the hook hashes the password only when a plaintext was assigned to it; a save that changed only other fields keeps the stored hash |
| UserModel.IsPasswordCorrect | src/models/user.model.js:68-70 | a plaintext is accepted exactly when hashing it with the stored salt gives the stored hash |
| UserModel.PasswordAfterSave | src/models/user.model.js:63-70 | after assigning `p` and saving, `p` verifies and every other plaintext is rejected |
| UserModel.GenerateAccessToken | src/models/user.model.js:72-81 | the access token is signed with the access secret and carries the id, email and username |
| UserModel.GenerateRefreshToken | src/models/user.model.js:83-90 | the refresh token is signed with the refresh secret and carries only the id |
| UserModel.RefreshTokenVerifies | src/models/user.model.js:83-90 | a refresh token verifies against the refresh secret, and only that one, until it expires |
| UserModel.GenerateTemporaryToken | src/models/user.model.js:92-97 | the stored value is the SHA-256 digest of the mailed token, and the expiry is now plus 1,200,000 ms |
| UserModel.NewUser | src/models/user.model.js:17-43 | a new user has its username and email lowercased and trimmed, a hashed password, an unverified email and empty token slots |
| Rbac.Decide | src/middlewares/rbac.middleware.js:12-21 | no row means "no access"; a non-empty allow-list without the row's role means "no permission"; otherwise access is granted with the row's role |
| Rbac.AccessDecision | src/middlewares/rbac.middleware.js:7-18 | the gate's decision is the decision on the row found for (projectId, userId) |
| Rbac.ToResult | src/middlewares/rbac.middleware.js:12-21 | both refusals surface as 403; success yields the stored role |
| Rbac.AllowListSemantics | src/middlewares/rbac.middleware.js:5-18 | the default empty allow-list admits every member; a non-empty one admits exactly the roles it lists |
| Rbac.AccessIsLocal | src/middlewares/rbac.middleware.js:7-10 | the decision depends only on the membership rows for (projectId, userId) and the allow-list |
| Rbac.RequestContext.VerifyProjectAccess | src/middlewares/rbac.middleware.js:5-24 | on success the request carries the stored role and row; on refusal the request is unchanged; the registry is never written |
| Routes.Dispatch | src/routes/project.route.js:18-32 | a caller without a valid token is refused with 401; ungated routes pass; gated routes pass exactly when the gate grants |
| Routes.TablesMatchReference | src/routes/task.route.js:20-34 | each allow-list table grants a role exactly what the role-by-role reference policy permits |
| Routes.UngatedRoutes | src/routes/project.route.js:20 | only listing one's projects and creating a project skip the gate |
| Routes.TablesAreNested | src/routes/note.route.js:14-23 | whatever a member may do, a project admin may do, and whatever a project admin may do, an admin may do |
| Routes.NonMemberRefusedEverywhere | src/middlewares/rbac.middleware.js:12-14 | a non-member is refused every project-scoped route with the "no access" refusal |
| Routes.MemberRefusedOutsideAllowList | src/middlewares/rbac.middleware.js:16-18 | a plain member is refused with "no permission" on every route whose allow-list excludes members |
| Routes.DispatchFollowsReference | src/routes/task.route.js:18-34 | for a member holding a role, the pipeline admits exactly the ungated routes and the routes the reference permits, and hands the handler that role |
| Routes.DeletingAProjectIsAdminOnly | src/routes/project.route.js:24 | only `admin` may delete a project or create a note |
| Routes.OnlySubtaskUpdateIsOpenToMembers | src/routes/task.route.js:33 | updating a subtask is the only write a plain member may perform |
| Auth.GenerateTokens | src/controllers/auth.controller.js:9-22 | returns the signed pair and stores the refresh token in the user's slot; nothing else changes |
| Auth.RegisteredUser | src/controllers/auth.controller.js:39-50 | the record registration stores: normalised username and email, trimmed full name defaulting to "", a hash the password verifies against, unverified, no refresh or reset token, and the digest of the fresh verification token with an expiry twenty minutes ahead |
| Auth.Register | src/controllers/auth.controller.js:24-65 | 400 exactly on a blank username, email or password; 409 exactly when they are present and some record holds the username or the email; success exactly when neither identity is taken; on success exactly one record, Auth.RegisteredUser, is added at the next id |
| Auth.Login | src/controllers/auth.controller.js:67-112 | 400 exactly without email and username; 404 exactly when no record matches either; 500 exactly when one matches but no password is sent; 401 exactly when the password does not verify against the first matching record; success only for that record and a correct password: the returned pair is that record's, and only its refresh slot changes, to the returned refresh token |
| Auth.Logout | src/controllers/auth.controller.js:114-135 | the caller's refresh slot is cleared and nothing else changes |
| Auth.LogoutAsWritten | src/controllers/auth.controller.js:115-123 | the update as written leaves the collection unchanged |
| Auth.VerifyEmail | src/controllers/auth.controller.js:137-163 | succeeds exactly when some record holds the digest of the presented token with an expiry after now; success changes only the first such record, clearing both fields and marking the email verified; failure is 400 and changes nothing |
| Auth.IncomingRefreshToken | src/controllers/auth.controller.js:167 | the cookie's token when it is present and non-empty, else the body's; none exactly when both are missing or empty |
| Auth.RefreshAccessToken | src/controllers/auth.controller.js:165-205 | every failure is 401 and changes nothing; success requires the presented token to verify and to equal the stored one, and rotates the slot to the new token |
| Auth.ChangePassword | src/controllers/auth.controller.js:207-221 | a wrong old password is 400 and changes nothing; 500 exactly for a missing record, a missing old password, or a missing new password after a correct old one; on success only that record's password changes, to a hash the new password verifies against |
| Auth.ForgotPassword | src/controllers/auth.controller.js:223-249 | 404 exactly when no record holds the email; otherwise only the first such record changes: it holds the digest of the fresh reset token, expiring twenty minutes after now |
| Auth.ResetPassword | src/controllers/auth.controller.js:251-274 | 400 exactly when no record holds the digest with an expiry after now; 500 exactly when one does but no new password is sent; success changes only that record: both reset fields cleared and the password hashed from the new one |
| Auth.ResendEmailVerification | src/controllers/auth.controller.js:282-310 | 404 exactly for a missing record, 400 exactly for a verified one, success exactly for an existing unverified one; only that record changes: the verification digest and expiry are replaced by fresh ones |
| AuthProperties.SameIdentitiesKeepUnique | src/models/user.model.js:17-31 | requests that change no username, email or id keep both unique indexes satisfied |
| AuthProperties.RegisterKeepsIdentitiesUnique | src/controllers/auth.controller.js:31-37 | the 409 check keeps the username and email indexes unique across a registration |
| AuthProperties.RegisterThenLogin | src/controllers/auth.controller.js:24-112 | after a successful registration the same email and password log in as the new record and fill its refresh slot, and a different password is refused with 401 |
| AuthProperties.RotatedTokenIsAccepted | src/controllers/auth.controller.js:180-199 | the refresh token a successful refresh returns is accepted by the next refresh |
| AuthProperties.RefreshReplayRejected | src/controllers/auth.controller.js:180-182 | once a refresh token has been exchanged, presenting it again is refused with 401 |
| AuthProperties.LogoutRevokesRefresh | src/controllers/auth.controller.js:114-123 | after logout no refresh token of that user is accepted |
| AuthProperties.LogoutAsWrittenKeepsSessionAlive | src/controllers/auth.controller.js:115-123 | with the update as written, the login's refresh token still refreshes after logout; with the slot cleared it is refused with 401 |
| AuthProperties.VerifyEmailSingleUse | src/controllers/auth.controller.js:144-158 | a verification token marks its record verified, and a second use at any time is refused with 400 |
| AuthProperties.ResetPasswordSingleUse | src/controllers/auth.controller.js:255-269 | a reset token sets the new password, and a second use at any time is refused with 400 |
| AuthProperties.ForgotThenReset | src/controllers/auth.controller.js:223-274 | a reset requested for a known email and presented before expiry sets the new password on that record |
| AuthProperties.VerificationTokenIsNotAResetToken | src/controllers/auth.controller.js:46-50 | the verification token that registration mails is not accepted as a password-reset token |
| AuthController.UserStore.RegisterUser | src/controllers/auth.controller.js:24-65 | creates the record, then saves the verification fields; the result is exactly Auth.Register, and the unique indexes are kept |
| AuthController.UserStore.LoginUser | src/controllers/auth.controller.js:67-112 | the handler step by step computes exactly Auth.Login |
| AuthController.UserStore.LogoutUser | src/controllers/auth.controller.js:114-135 | clears the refresh slot, exactly as Auth.Logout |
| AuthController.UserStore.RefreshTokens | src/controllers/auth.controller.js:165-205 | computes exactly Auth.RefreshAccessToken |
| AuthController.UserStore.ResetUserPassword | src/controllers/auth.controller.js:251-274 | computes exactly Auth.ResetPassword |
| AuthController.UserStore.Save | src/models/user.model.js:63-66 | saving runs the pre-save hook: a failed hash leaves the store unchanged; otherwise the record is replaced, with the hashed or kept password |
| AuthController.UserStore.IssueTokens | src/controllers/auth.controller.js:9-22 | computes exactly Auth.GenerateTokens and keeps the unique indexes |
| AuthController.UserStore.VerifyEmailToken | src/controllers/auth.controller.js:137-163 | computes exactly Auth.VerifyEmail |
| AuthController.UserStore.ChangeUserPassword | src/controllers/auth.controller.js:207-221 | computes exactly Auth.ChangePassword |
| AuthController.UserStore.ForgotUserPassword | src/controllers/auth.controller.js:223-249 | computes exactly Auth.ForgotPassword |
| AuthController.UserStore.ResendVerification | src/controllers/auth.controller.js:282-310 | computes exactly Auth.ResendEmailVerification |
| ProjectModel.NewProject | src/models/project.model.js:3-17 | a new project stores the trimmed name and description and the given owner |
| ProjectModel.NewMembership | src/models/projectMember.model.js:3-18 | a missing role defaults to `member` |
| ProjectModel.InsertMembership | src/models/projectMember.model.js:23 | the unique index refuses a second row for a (projectId, userId) pair and otherwise keeps the index unique |
| Projects.CreateProject | src/controllers/project.controller.js:9-31 | 400 exactly on a blank name; otherwise the project owned by the caller (description defaulting to "") and the caller's `admin` membership |
| Projects.UserProjects | src/controllers/project.controller.js:33-76 | one entry per membership of the caller in an existing project, each with the caller's role, the project's fields and the project's membership count |
| Projects.ProjectDetails | src/controllers/project.controller.js:78-90 | 404 exactly for a missing project |
| Projects.UpdateProject | src/controllers/project.controller.js:92-114 | 404 for a missing project; otherwise only that project changes, each given field trimmed and the rest kept |
| Projects.SetProjectFields | src/controllers/project.controller.js:96-104 | a given name or description is stored trimmed, an absent one keeps its value, and the owner is kept |
| Projects.DeleteProject | src/controllers/project.controller.js:116-130 | 404 for a missing project; otherwise the project and exactly its memberships are removed |
| Projects.ProjectMembers | src/controllers/project.controller.js:132-141 | exactly the project's membership rows |
| Projects.RequestedRole | src/controllers/project.controller.js:163-166 | the requested role, `member` when none is given; a value outside the enum fails with 500 |
| Projects.AddProjectMember | src/controllers/project.controller.js:143-174 | 500 without an email; 404 exactly for an unknown email; 409 whenever the email's user already has a row for the project, whatever role is asked, and only then; otherwise exactly one new row with the requested role |
| Projects.UpdateMemberRole | src/controllers/project.controller.js:176-193 | 404 exactly when the pair has no row; otherwise only that row's role changes, to whatever string is sent, in the enum or not (no validators run); without a role the row is kept |
| Projects.RemoveMember | src/controllers/project.controller.js:195-207 | 404 when the pair has no row; otherwise exactly that row is removed |
| ProjectProperties.CreatorPassesEveryGate | src/controllers/project.controller.js:20-24 | the creator of a project passes every project-scoped route of it as `admin` |
| ProjectProperties.CreateProjectSucceeds | src/controllers/project.controller.js:18-26 | when every row names an existing project, creating a project with a non-blank name succeeds |
| ProjectProperties.DeleteProjectRevokesAccess | src/controllers/project.controller.js:119-125 | after a project is deleted, every former member is refused its routes with "no access" |
| ProjectProperties.AddMemberKeepsReferences | src/controllers/project.controller.js:162-166 | adding a member to an existing project keeps every row pointing at an existing project |
| ProjectProperties.MemberUpdatesKeepReferences | src/controllers/project.controller.js:180-202 | changing a role or removing a row keeps every row pointing at an existing project |
| ProjectProperties.AddedMemberFollowsPolicy | src/controllers/project.controller.js:162-166 | a newly added member passes exactly the routes the reference policy permits to the requested role |
| ProjectProperties.AddMemberTwiceConflicts | src/controllers/project.controller.js:153-160 | adding the same email to the same project twice yields 409 and changes nothing |
| ProjectProperties.UpdatedRoleIsEnforced | src/controllers/project.controller.js:180-188 | after a role change the gate admits the member exactly as the role the sent string denotes permits |
| ProjectProperties.UnlistedRoleActsAsMember | src/controllers/project.controller.js:180-184 | a role string outside the enum is accepted and stored as sent, and the member is then admitted exactly where a plain member is |
| ProjectProperties.RemovedMemberIsRefused | src/controllers/project.controller.js:198-202 | a removed member is refused every project-scoped route with "no access" |
| ProjectProperties.UserProjectsDistinct | src/controllers/project.controller.js:34-71 | the list names each project at most once, and each entry's member count is at least one |
| ProjectProperties.CreatedProjectIsListed | src/controllers/project.controller.js:9-76 | right after creation the creator's list shows the project with role `admin`, the trimmed name, the creator as owner and one member |
| ProjectController.ProjectStore.Create | src/controllers/project.controller.js:9-31 | the two writes in order compute exactly Projects.CreateProject |
| ProjectController.ProjectStore.AddMember | src/controllers/project.controller.js:143-174 | computes exactly Projects.AddProjectMember |
| ProjectController.ProjectStore.Delete | src/controllers/project.controller.js:116-130 | computes exactly Projects.DeleteProject |
| ProjectController.ProjectStore.Update | src/controllers/project.controller.js:92-114 | computes exactly Projects.UpdateProject |
| ProjectController.ProjectStore.UpdateMemberRole | src/controllers/project.controller.js:176-193 | computes exactly Projects.UpdateMemberRole, storing the sent role string |
| ProjectController.ProjectStore.RemoveMember | src/controllers/project.controller.js:195-207 | computes exactly Projects.RemoveMember |
| TaskModel.Describe | src/controllers/task.controller.js:19-24 | an attachment is served under `/images/` plus the file name, and carries the file's path, type and size |
| TaskModel.DescribeAll | src/models/task.model.js:27-32 | one attachment per uploaded file, in upload order |
| TaskModel.DescribeAllAppend | src/controllers/task.controller.js:90-101 | describing two batches in turn describes their concatenation |
| TaskModel.BuildAttachments | src/controllers/task.controller.js:16-26 | the push loop yields one attachment per uploaded file, in upload order |
| TaskModel.NewTask | src/models/task.model.js:3-37 | creation succeeds exactly for a status in the enum, and stores the trimmed title and description |
| TaskModel.NewSubTask | src/models/subtask.model.js:3-22 | a new subtask stores the trimmed title and is not completed |
| Tasks.RequestedStatus | src/controllers/task.controller.js:33 | the requested status, `todo` when none is given |
| Tasks.CreateTask | src/controllers/task.controller.js:8-45 | 400 exactly on a blank title; 500 exactly for a status outside the enum; otherwise one new task with description defaulting to "", assignee as given, status defaulting to `todo`, the uploads' attachments and the caller as author |
| Tasks.ProjectTasks | src/controllers/task.controller.js:47-58 | exactly the project's tasks, newest first |
| Tasks.TaskDetails | src/controllers/task.controller.js:60-78 | 404 for a missing task; otherwise the task and exactly its subtasks, newest first |
| Tasks.UpdateTask | src/controllers/task.controller.js:80-118 | 404 for a missing task; otherwise only that task changes: a truthy title and status and a given description and assignee are set, and the new attachments follow the old ones |
| Tasks.ApplyUpdate | src/controllers/task.controller.js:84-101 | a truthy title is stored trimmed, a given description trimmed, a given assignee and a truthy status as sent, the rest kept, and the new attachments follow the old ones |
| Tasks.DeleteTask | src/controllers/task.controller.js:120-143 | 404 for a missing task; otherwise the task and exactly its subtasks are removed |
| Tasks.CreateSubTask | src/controllers/task.controller.js:145-170 | 400 on a blank title before 404 for a missing task; otherwise exactly one new subtask; tasks are untouched |
| Tasks.ApplySubTaskUpdate | src/controllers/task.controller.js:176-178 | a given title is stored trimmed and a given completion flag as sent; the task reference and creator are kept |
| Tasks.UpdateSubTask | src/controllers/task.controller.js:172-193 | 404 for a missing subtask; otherwise only its title and completion flag change, and tasks are untouched |
| Tasks.DeleteSubTask | src/controllers/task.controller.js:195-207 | 404 for a missing subtask; otherwise exactly that subtask is removed |
| TaskProperties.DeleteTaskLeavesNoOrphans | src/controllers/task.controller.js:137-138 | after deleting a task no subtask points at it, and every subtask still points at an existing task |
| TaskProperties.SubTaskWritesKeepReferences | src/controllers/task.controller.js:145-207 | subtask creation, update and deletion keep every subtask pointing at an existing task |
| TaskProperties.TaskWritesKeepReferences | src/controllers/task.controller.js:8-118 | task creation and update keep every subtask pointing at an existing task |
| TaskProperties.CreateKeepsStatusesInEnum | src/models/task.model.js:22-26 | task creation keeps every stored status inside the enum |
| TaskProperties.UpdateStoresAnyStatus | src/controllers/task.controller.js:80-107 | an update stores whatever truthy status it is sent, so it can leave the enum |
| TaskProperties.CreatedTaskListedFirst | src/controllers/task.controller.js:50-53 | a newly created task heads its project's listing |
| TaskProperties.CreatedTaskHasNoSubtasks | src/controllers/task.controller.js:60-78 | a newly created task's details list no subtasks |
| TaskProperties.CreatedSubTaskListedFirst | src/controllers/task.controller.js:70-72 | a newly created subtask heads its task's subtask listing |
| TaskProperties.UploadsAccumulate | src/controllers/task.controller.js:90-101 | two uploads in a row leave the old attachments followed by both batches, in order |
| TaskProperties.EmptyUpdateChangesNothing | src/controllers/task.controller.js:84-88 | an update with no field and no file leaves the collections unchanged |
| TaskProperties.TasksReachableFromAnyProject | src/controllers/task.controller.js:61-63 | a member of any project can read a task of another project through it, and a project admin there can also update and delete it |
| TaskController.SetSubTaskFields | src/controllers/task.controller.js:176-178 | the subtask update document applied field by field computes exactly Tasks.ApplySubTaskUpdate |
| TaskController.SetFields | src/controllers/task.controller.js:84-101 | the update document assembled field by field and applied computes exactly Tasks.ApplyUpdate |
| TaskController.TaskStore.Update | src/controllers/task.controller.js:80-118 | computes exactly Tasks.UpdateTask |
| TaskController.TaskStore.Delete | src/controllers/task.controller.js:120-143 | computes exactly Tasks.DeleteTask, cascade included |
| TaskController.TaskStore.Create | src/controllers/task.controller.js:8-45 | builds the attachments, then creates the task; computes exactly Tasks.CreateTask |
| TaskController.TaskStore.CreateSubTask | src/controllers/task.controller.js:145-170 | computes exactly Tasks.CreateSubTask |
| TaskController.TaskStore.UpdateSubTask | src/controllers/task.controller.js:172-193 | computes exactly Tasks.UpdateSubTask |
| TaskController.TaskStore.DeleteSubTask | src/controllers/task.controller.js:195-207 | computes exactly Tasks.DeleteSubTask |
| Notes.CreateNote | src/controllers/note.controller.js:6-27 | 400 exactly on a blank title; otherwise one new note, content defaulting to "", authored by the caller |
| Notes.ProjectNotes | src/controllers/note.controller.js:29-39 | exactly the project's notes, newest first |
| Notes.NoteDetails | src/controllers/note.controller.js:41-54 | 404 exactly for a missing note |
| Notes.UpdateNote | src/controllers/note.controller.js:56-78 | 404 for a missing note; otherwise only that note changes, each given field set and the rest kept |
| Notes.DeleteNote | src/controllers/note.controller.js:80-92 | 404 for a missing note; otherwise exactly that note is removed |
| Notes.CreatedNoteIsListedFirst | src/controllers/note.controller.js:14-34 | a created note reads back as stored and heads its project's listing |
| Notes.DeletedNoteIsGone | src/controllers/note.controller.js:83-87 | after deletion the note cannot be read, updated or deleted again (404) and is listed nowhere |
| Notes.UpdateNoteIsIdempotent | src/controllers/note.controller.js:60-69 | an update with neither field changes nothing, and repeating an update changes nothing more |
| NoteController.NoteStore.Update | src/controllers/note.controller.js:56-78 | computes exactly Notes.UpdateNote |
| NoteController.NoteStore.Create | src/controllers/note.controller.js:6-27 | computes exactly Notes.CreateNote |
| NoteController.NoteStore.Delete | src/controllers/note.controller.js:80-92 | computes exactly Notes.DeleteNote |

## Left out

- Cryptography: bcrypt, SHA-256, random bytes and JWT signing are symbolic and injective. A token's expiry is the only part of verification that is modelled.
- Bearer-token verification (`verifyJWT`) is not part of this model. The caller's identity is an input, and `getCurrentUser` only echoes it.
- Mail sending is a no-op that never fails. The mail helper swallows its own errors.
- The upload middleware (storage, the five-file limit) and the `fs.unlinkSync` calls in `deleteTask` are left out. Only attachment metadata is recorded.
- `populate`, field projections and the `createdAt`/`updatedAt` timestamps are left out. Creation order stands in for timestamp order.
- Concurrency is left out. Every request runs atomically and alone, so the refresh-rotation race and the non-atomic cascades do not arise.
- The avatar field and the response envelopes are left out.
- Casting of malformed ids or non-string body fields is left out. Such values would make Mongoose throw; ids and body fields are typed here.
- A `null` description in `updateTask` is left out. A body field is either absent or a string.
- Lowercasing covers ASCII letters only; Unicode case mapping is not modelled.
- Tasks, subtasks and notes are not cascaded when a project is deleted, because the source does not cascade them.
- src/models/note.model.js is not part of this model. Note fields are stored as the handler passes them, without any schema setter.
- Auth.RefreshAccessToken: a token is a value of its claims and issue second. A refresh in the same second as the login reissues an identical token.
- AuthProperties.RefreshReplayRejected: proved only when the exchanged token was issued in an earlier second than the rotation, because JWTs issued in the same second for the same user are identical.
- Common.ToLower: lowercases ASCII `A`-`Z` only, instead of JavaScript's full Unicode `toLowerCase`.

## Findings

| source | as written | input that shows it | evidently intended | confidence | as-written member | corrected member |
|---|---|---|---|---|---|---|
| src/controllers/auth.controller.js:115-123 | logout sends `$set: { refreshToken: undefined }`, which Mongoose strips to an empty update, so the stored refresh token survives | log in, log out, then call the refresh endpoint with the refresh token from the login: it is exchanged for new tokens | logout clears the stored refresh token (`$unset`), so the earlier token is refused with 401 | not executed; depends on Mongoose 6 or later stripping `undefined` from updates | Auth.LogoutAsWritten, AuthProperties.LogoutAsWrittenKeepsSessionAlive | Auth.Logout, AuthProperties.LogoutRevokesRefresh |
