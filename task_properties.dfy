/** Properties of the task handlers: the cascade keeps every subtask attached to an
    existing task, listings put the newest entry first, uploads accumulate, the
    status enum is enforced on creation only, and a task is reachable through any
    project the caller belongs to. */
module TaskProperties {

  import opened Common
  import opened Documents
  import opened Constants
  import opened ProjectModel
  import opened TaskModel
  import opened Tasks
  import Routes

  /** Every subtask refers to a task that exists. */
  ghost predicate SubtasksReferenceTasks(b: Board)
  {
    forall id :: id in b.subtasks.rows ==> b.subtasks.rows[id].taskId in b.tasks.rows
  }

  /** Every stored status is one of the enum's values. */
  ghost predicate StatusesInEnum(b: Board)
  {
    forall id :: id in b.tasks.rows ==> b.tasks.rows[id].status in AvailTaskStatuses()
  }

  /** Deleting a task takes its subtasks with it, so none is left pointing at it. */
  lemma DeleteTaskLeavesNoOrphans(b: Board, taskId: Id)
    requires WellFormed(b) && SubtasksReferenceTasks(b)
    ensures SubtasksReferenceTasks(DeleteTask(b, taskId).board)
    ensures forall id :: id in DeleteTask(b, taskId).board.subtasks.rows ==>
      DeleteTask(b, taskId).board.subtasks.rows[id].taskId != taskId
  {
  }

  /** Creating, updating and deleting subtasks keeps every subtask attached. */
  lemma SubTaskWritesKeepReferences(b: Board, taskId: Id, subTaskId: Id, title: Option<string>,
                                    isCompleted: Option<bool>, caller: Id)
    requires WellFormed(b) && SubtasksReferenceTasks(b)
    ensures SubtasksReferenceTasks(CreateSubTask(b, taskId, title, caller).board)
    ensures SubtasksReferenceTasks(UpdateSubTask(b, subTaskId, title, isCompleted).board)
    ensures SubtasksReferenceTasks(DeleteSubTask(b, subTaskId).board)
  {
  }

  /** Creating and updating tasks keeps every subtask attached. */
  lemma TaskWritesKeepReferences(b: Board, projectId: Id, taskId: Id, title: Option<string>, description: Option<string>,
                                 assignedTo: Option<Id>, newAssignee: Option<Option<Id>>, status: Option<string>,
                                 files: seq<UploadedFile>, caller: Id)
    requires WellFormed(b) && SubtasksReferenceTasks(b)
    ensures SubtasksReferenceTasks(CreateTask(b, projectId, title, description, assignedTo, status, files, caller).board)
    ensures SubtasksReferenceTasks(UpdateTask(b, taskId, title, description, newAssignee, status, files).board)
  {
  }

  /** `Task.create` admits only enum values, so creation keeps every status valid... */
  lemma CreateKeepsStatusesInEnum(b: Board, projectId: Id, title: Option<string>, description: Option<string>,
                                  assignedTo: Option<Id>, status: Option<string>, files: seq<UploadedFile>, caller: Id)
    requires WellFormed(b) && StatusesInEnum(b)
    ensures StatusesInEnum(CreateTask(b, projectId, title, description, assignedTo, status, files, caller).board)
  {
    var r := CreateTask(b, projectId, title, description, assignedTo, status, files, caller);
    if r.result.Ok? {
      CreatedTaskRow(b, projectId, title, description, assignedTo, status, files, caller);
      InsertedRow(b.tasks, r.board.tasks.rows[r.result.value]);
      InsertKeepsStatuses(b.tasks, r.board.tasks, r.result.value);
    }
  }

  lemma InsertKeepsStatuses(before: Collection<Task>, after: Collection<Task>, id: Id)
    requires forall j :: j in before.rows ==> before.rows[j].status in AvailTaskStatuses()
    requires id in after.rows && after.rows[id].status in AvailTaskStatuses()
    requires forall j :: j in after.rows && j != id ==> j in before.rows && after.rows[j] == before.rows[j]
    ensures forall j :: j in after.rows ==> after.rows[j].status in AvailTaskStatuses()
  {
  }

  /** ...while `updateTask` stores any truthy status it is sent, valid or not. */
  lemma UpdateStoresAnyStatus(b: Board, taskId: Id, status: string)
    requires WellFormed(b) && taskId in b.tasks.rows && status != ""
    ensures UpdateTask(b, taskId, None, None, None, Some(status), []).result.Ok?
    ensures UpdateTask(b, taskId, None, None, None, Some(status), []).board.tasks.rows[taskId].status == status
    ensures status !in AvailTaskStatuses() ==> !StatusesInEnum(UpdateTask(b, taskId, None, None, None, Some(status), []).board)
  {
  }

  /** Where a successful `createTask` puts its row: it is inserted at the next id, in
      the path's project, with a status from the enum, and the subtasks are untouched. */
  lemma CreatedTaskRow(b: Board, projectId: Id, title: Option<string>, description: Option<string>,
                       assignedTo: Option<Id>, status: Option<string>, files: seq<UploadedFile>, caller: Id)
    requires WellFormed(b)
    requires CreateTask(b, projectId, title, description, assignedTo, status, files, caller).result.Ok?
    ensures var r := CreateTask(b, projectId, title, description, assignedTo, status, files, caller);
            && r.result.value == b.tasks.nextId
            && r.board.subtasks == b.subtasks
            && r.result.value in r.board.tasks.rows
            && r.board.tasks == Insert(b.tasks, r.board.tasks.rows[r.result.value])
            && r.board.tasks.rows[r.result.value].projectId == projectId
            && r.board.tasks.rows[r.result.value].status in AvailTaskStatuses()
  {
  }

  lemma NewestTaskIsFirst(b: Board, projectId: Id, id: Id)
    requires WellFormed(b) && id in b.tasks.rows && b.tasks.rows[id].projectId == projectId
    requires forall j :: j in b.tasks.rows ==> j <= id
    ensures ProjectTasks(b, projectId) != [] && ProjectTasks(b, projectId)[0] == id
  {
    NewestIsFirst(b.tasks, InProject(projectId), id);
  }

  lemma ReferencesBelowCounter(b: Board)
    requires WellFormed(b) && SubtasksReferenceTasks(b)
    ensures forall j :: j in b.subtasks.rows ==> b.subtasks.rows[j].taskId < b.tasks.nextId
  {
  }

  lemma TaskWithoutSubtasks(b: Board, taskId: Id)
    requires WellFormed(b) && taskId in b.tasks.rows
    requires forall j :: j in b.subtasks.rows ==> b.subtasks.rows[j].taskId != taskId
    ensures TaskDetails(b, taskId) == Ok(Details(b.tasks.rows[taskId], []))
  {
    NothingListed(b.subtasks, OfTask(taskId));
  }

  /** A newly created task heads its project's listing. */
  lemma CreatedTaskListedFirst(b: Board, projectId: Id, title: Option<string>, description: Option<string>,
                               assignedTo: Option<Id>, status: Option<string>, files: seq<UploadedFile>, caller: Id)
    requires WellFormed(b)
    requires CreateTask(b, projectId, title, description, assignedTo, status, files, caller).result.Ok?
    ensures var r := CreateTask(b, projectId, title, description, assignedTo, status, files, caller);
            && ProjectTasks(r.board, projectId) != []
            && ProjectTasks(r.board, projectId)[0] == r.result.value
  {
    var r := CreateTask(b, projectId, title, description, assignedTo, status, files, caller);
    CreatedTaskRow(b, projectId, title, description, assignedTo, status, files, caller);
    InsertedRow(b.tasks, r.board.tasks.rows[r.result.value]);
    NewestTaskIsFirst(r.board, projectId, r.result.value);
  }

  /** A newly created task has no subtasks yet. */
  lemma CreatedTaskHasNoSubtasks(b: Board, projectId: Id, title: Option<string>, description: Option<string>,
                                 assignedTo: Option<Id>, status: Option<string>, files: seq<UploadedFile>, caller: Id)
    requires WellFormed(b) && SubtasksReferenceTasks(b)
    requires CreateTask(b, projectId, title, description, assignedTo, status, files, caller).result.Ok?
    ensures var r := CreateTask(b, projectId, title, description, assignedTo, status, files, caller);
            TaskDetails(r.board, r.result.value) == Ok(Details(r.board.tasks.rows[r.result.value], []))
  {
    var r := CreateTask(b, projectId, title, description, assignedTo, status, files, caller);
    CreatedTaskRow(b, projectId, title, description, assignedTo, status, files, caller);
    ReferencesBelowCounter(b);
    TaskWithoutSubtasks(r.board, r.result.value);
  }

  /** A newly created subtask heads its task's subtask listing. */
  lemma CreatedSubTaskListedFirst(b: Board, taskId: Id, title: Option<string>, caller: Id)
    requires WellFormed(b)
    requires CreateSubTask(b, taskId, title, caller).result.Ok?
    ensures var r := CreateSubTask(b, taskId, title, caller);
            && TaskDetails(r.board, taskId).Ok?
            && TaskDetails(r.board, taskId).value.subtasks != []
            && TaskDetails(r.board, taskId).value.subtasks[0] == r.result.value
  {
    var r := CreateSubTask(b, taskId, title, caller);
    NewestIsFirst(r.board.subtasks, OfTask(taskId), r.result.value);
  }

  /** Two uploads in a row leave the task carrying its old attachments followed by
      the records of both batches, in upload order. */
  lemma UploadsAccumulate(b: Board, taskId: Id, first: seq<UploadedFile>, second: seq<UploadedFile>)
    requires WellFormed(b) && taskId in b.tasks.rows
    ensures var once := UpdateTask(b, taskId, None, None, None, None, first).board;
            var twice := UpdateTask(once, taskId, None, None, None, None, second).board;
            twice.tasks.rows[taskId] == b.tasks.rows[taskId].(attachments := b.tasks.rows[taskId].attachments + DescribeAll(first + second))
  {
    var t := b.tasks.rows[taskId];
    var once := UpdateTask(b, taskId, None, None, None, None, first).board;
    AttachOnly(b, taskId, first);
    AttachOnly(once, taskId, second);
    AttachmentsAccumulate(t.attachments, first, second);
  }

  lemma AttachmentsAccumulate(existing: seq<Attachment>, first: seq<UploadedFile>, second: seq<UploadedFile>)
    ensures existing + DescribeAll(first) + DescribeAll(second) == existing + DescribeAll(first + second)
  {
    DescribeAllAppend(first, second);
  }

  lemma AttachOnly(b: Board, taskId: Id, files: seq<UploadedFile>)
    requires WellFormed(b) && taskId in b.tasks.rows
    ensures var after := UpdateTask(b, taskId, None, None, None, None, files).board;
            && WellFormed(after) && taskId in after.tasks.rows
            && after.tasks.rows[taskId] == b.tasks.rows[taskId].(attachments := b.tasks.rows[taskId].attachments + DescribeAll(files))
  {
  }

  /** A request that sends no field and no file leaves the task as it was. */
  lemma EmptyUpdateChangesNothing(b: Board, taskId: Id)
    requires WellFormed(b) && taskId in b.tasks.rows
    ensures UpdateTask(b, taskId, None, None, None, None, []).board == b
  {
    var t := b.tasks.rows[taskId];
    assert DescribeAll([]) == [];
    assert t.attachments + [] == t.attachments;
    assert ApplyUpdate(t, None, None, None, None, []) == t;
    assert b.tasks.rows[taskId := t] == b.tasks.rows;
  }

  /** The task routes check the project named in the path, never the task's own: any
      member of some project can read a task of another project, and a project admin
      there can also update and delete it. */
  lemma TasksReachableFromAnyProject(b: Board, members: Collection<Membership>, caller: Id, pathProject: Id,
                                     role: Role, taskId: Id)
    requires WellFormed(b) && Valid(members) && UniqueKey(members)
    requires Membership(pathProject, caller, role) in members.rows.Values
    requires taskId in b.tasks.rows && b.tasks.rows[taskId].projectId != pathProject
    ensures Routes.Dispatch(Some(caller), Routes.TaskApi(Routes.GetTask), pathProject, members).Ok?
    ensures TaskDetails(b, taskId).Ok? && TaskDetails(b, taskId).value.task.projectId != pathProject
    ensures role == Admin || role == ProjectAdmin ==>
      && Routes.Dispatch(Some(caller), Routes.TaskApi(Routes.UpdateTask), pathProject, members).Ok?
      && Routes.Dispatch(Some(caller), Routes.TaskApi(Routes.DeleteTask), pathProject, members).Ok?
      && DeleteTask(b, taskId).result.Ok?
  {
    Routes.DispatchFollowsReference(caller, Routes.TaskApi(Routes.GetTask), pathProject, members, role);
    Routes.DispatchFollowsReference(caller, Routes.TaskApi(Routes.UpdateTask), pathProject, members, role);
    Routes.DispatchFollowsReference(caller, Routes.TaskApi(Routes.DeleteTask), pathProject, members, role);
  }
}
