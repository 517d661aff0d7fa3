/** The handlers of src/controllers/task.controller.js as functions from the Task and
    SubTask collections before a request to the collections after it and the
    handler's outcome. The handlers address tasks and subtasks by id alone: the
    project in the request path is checked by the access gate, never against the
    task. TaskController's methods are proved to compute exactly these. */
module Tasks {

  import opened Common
  import opened Documents
  import opened Constants
  import opened TaskModel

  /** The Task and SubTask collections. */
  datatype Board = Board(tasks: Collection<Task>, subtasks: Collection<SubTask>)

  ghost predicate WellFormed(b: Board)
  {
    Valid(b.tasks) && Valid(b.subtasks)
  }

  /** The collections after a request, and the request's outcome. */
  datatype Outcome<T> = Outcome(board: Board, result: Result<T>)

  /** The status a new task asks for: `status || 'todo'`. */
  function RequestedStatus(status: Option<string>): (s: string)
    ensures Truthy(status) ==> s == status.value
    ensures !Truthy(status) ==> s == StatusValue(Todo)
  {
    if Truthy(status) then status.value else "todo"
  }

  /** `createTask`: 400 on a blank title; a status outside the enum fails validation
      (500) and stores nothing; otherwise one task is added, with the description
      defaulting to "", nobody assigned unless given, the status defaulting to `todo`
      and one attachment per uploaded file. The project id is stored as given. */
  function CreateTask(b: Board, projectId: Id, title: Option<string>, description: Option<string>,
                      assignedTo: Option<Id>, status: Option<string>, files: seq<UploadedFile>, caller: Id)
    : (r: Outcome<Id>)
    requires WellFormed(b)
    ensures WellFormed(r.board)
    ensures r.result == Err(BadRequest) <==> Blank(title)
    ensures r.result == Err(Internal) <==> !Blank(title) && RequestedStatus(status) !in AvailTaskStatuses()
    ensures r.result.Ok? <==> !Blank(title) && RequestedStatus(status) in AvailTaskStatuses()
    ensures r.result.Err? ==> r.board == b
    ensures r.result.Ok? ==>
      && r.result.value == b.tasks.nextId
      && r.board.subtasks == b.subtasks
      && r.board.tasks == Insert(b.tasks, Task(projectId, Trim(title.value),
                                               if Truthy(description) then Trim(description.value) else "",
                                               assignedTo, RequestedStatus(status), DescribeAll(files), caller))
  {
    if Blank(title) then Outcome(b, Err(BadRequest))
    else
      var attachments := DescribeAll(files);
      match NewTask(projectId, title.value, if Truthy(description) then description.value else "",
                    assignedTo, RequestedStatus(status), attachments, caller)
      case None => Outcome(b, Err(Internal))
      case Some(t) =>
        assert Trim("") == "";
        Outcome(Board(Insert(b.tasks, t), b.subtasks), Ok(b.tasks.nextId))
  }

  /** `getProjectTasks`: the project's tasks, newest first. */
  function ProjectTasks(b: Board, projectId: Id): (ids: seq<Id>)
    requires WellFormed(b)
    ensures Decreasing(ids)
    ensures forall id :: id in ids <==> id in b.tasks.rows && b.tasks.rows[id].projectId == projectId
  {
    FindNewestFirst(b.tasks, InProject(projectId))
  }

  /** The body of a `getTaskDetails` response. */
  datatype Details = Details(task: Task, subtasks: seq<Id>)

  /** `getTaskDetails`: 404 for a missing task; otherwise the task and its subtasks,
      newest first. */
  function TaskDetails(b: Board, taskId: Id): (r: Result<Details>)
    requires WellFormed(b)
    ensures r.Err? <==> taskId !in b.tasks.rows
    ensures r.Err? ==> r.status == NotFound
    ensures r.Ok? ==>
      && r.value.task == b.tasks.rows[taskId]
      && Decreasing(r.value.subtasks)
      && forall id :: id in r.value.subtasks <==> id in b.subtasks.rows && b.subtasks.rows[id].taskId == taskId
  {
    if taskId !in b.tasks.rows then Err(NotFound)
    else Ok(Details(b.tasks.rows[taskId], FindNewestFirst(b.subtasks, OfTask(taskId))))
  }

  /** The update document of `updateTask` applied to a task: a truthy title and a
      given description are set through the trim setter, a given `assignedTo`
      (possibly `null`) and a truthy status are set as sent, and the new attachments
      are pushed after the existing ones. Nothing else changes. */
  function ApplyUpdate(t: Task, title: Option<string>, description: Option<string>, assignedTo: Option<Option<Id>>,
                       status: Option<string>, newAttachments: seq<Attachment>): (u: Task)
    ensures u.projectId == t.projectId && u.createdBy == t.createdBy
    ensures u.title == (if Truthy(title) then Trim(title.value) else t.title)
    ensures u.description == (if description.Some? then Trim(description.value) else t.description)
    ensures u.assignedTo == (if assignedTo.Some? then assignedTo.value else t.assignedTo)
    ensures u.status == (if Truthy(status) then status.value else t.status)
    ensures u.attachments == t.attachments + newAttachments
  {
    t.(title := if Truthy(title) then Trim(title.value) else t.title,
       description := if description.Some? then Trim(description.value) else t.description,
       assignedTo := if assignedTo.Some? then assignedTo.value else t.assignedTo,
       status := if Truthy(status) then status.value else t.status,
       attachments := t.attachments + newAttachments)
  }

  /** `updateTask`: 404 for a missing task; otherwise only that task changes, and the
      response is the updated document. */
  function UpdateTask(b: Board, taskId: Id, title: Option<string>, description: Option<string>,
                      assignedTo: Option<Option<Id>>, status: Option<string>, files: seq<UploadedFile>)
    : (r: Outcome<Task>)
    requires WellFormed(b)
    ensures WellFormed(r.board)
    ensures r.result.Err? <==> taskId !in b.tasks.rows
    ensures r.result.Err? ==> r.result.status == NotFound && r.board == b
    ensures r.result.Ok? ==>
      && r.result.value == ApplyUpdate(b.tasks.rows[taskId], title, description, assignedTo, status, DescribeAll(files))
      && r.board.tasks == Collection(b.tasks.rows[taskId := r.result.value], b.tasks.nextId)
      && r.board.subtasks == b.subtasks
  {
    if taskId !in b.tasks.rows then Outcome(b, Err(NotFound))
    else
      var u := ApplyUpdate(b.tasks.rows[taskId], title, description, assignedTo, status, DescribeAll(files));
      Outcome(Board(Collection(b.tasks.rows[taskId := u], b.tasks.nextId), b.subtasks), Ok(u))
  }

  /** `deleteTask`: 404 for a missing task; otherwise the task and every subtask of it
      are removed. */
  function DeleteTask(b: Board, taskId: Id): (r: Outcome<()>)
    requires WellFormed(b)
    ensures WellFormed(r.board)
    ensures r.result.Err? <==> taskId !in b.tasks.rows
    ensures r.result.Err? ==> r.result.status == NotFound && r.board == b
    ensures r.result.Ok? ==>
      && r.board.tasks.rows == b.tasks.rows - {taskId}
      && r.board.tasks.nextId == b.tasks.nextId
      && (forall id :: id in r.board.subtasks.rows <==> id in b.subtasks.rows && b.subtasks.rows[id].taskId != taskId)
      && (forall id :: id in r.board.subtasks.rows ==> r.board.subtasks.rows[id] == b.subtasks.rows[id])
  {
    if taskId !in b.tasks.rows then Outcome(b, Err(NotFound))
    else Outcome(Board(Collection(b.tasks.rows - {taskId}, b.tasks.nextId), DeleteWhere(b.subtasks, OfTask(taskId))), Ok(()))
  }

  /** `createSubTask`: 400 on a blank title, checked before the task is looked up;
      404 for a missing task; otherwise one subtask is added. */
  function CreateSubTask(b: Board, taskId: Id, title: Option<string>, caller: Id): (r: Outcome<Id>)
    requires WellFormed(b)
    ensures WellFormed(r.board)
    ensures r.result == Err(BadRequest) <==> Blank(title)
    ensures r.result == Err(NotFound) <==> !Blank(title) && taskId !in b.tasks.rows
    ensures r.result.Err? ==> r.board == b
    ensures r.result.Ok? ==>
      && r.result.value == b.subtasks.nextId
      && r.board.tasks == b.tasks
      && r.board.subtasks == Insert(b.subtasks, SubTask(taskId, Trim(title.value), false, caller))
  {
    if Blank(title) then Outcome(b, Err(BadRequest))
    else if taskId !in b.tasks.rows then Outcome(b, Err(NotFound))
    else Outcome(Board(b.tasks, Insert(b.subtasks, NewSubTask(taskId, title.value, caller))), Ok(b.subtasks.nextId))
  }

  /** The update document of `updateSubTask` applied to a subtask: a given title is
      set through the trim setter and a given `isCompleted` as sent. Nothing else
      changes. */
  function ApplySubTaskUpdate(s: SubTask, title: Option<string>, isCompleted: Option<bool>): (u: SubTask)
    ensures u.taskId == s.taskId && u.createdBy == s.createdBy
    ensures u.title == (if title.Some? then Trim(title.value) else s.title)
    ensures u.isCompleted == (if isCompleted.Some? then isCompleted.value else s.isCompleted)
  {
    s.(title := if title.Some? then Trim(title.value) else s.title,
       isCompleted := if isCompleted.Some? then isCompleted.value else s.isCompleted)
  }

  /** `updateSubTask`: 404 for a missing subtask; otherwise only that subtask changes,
      its title (trimmed) and completion flag set when given. Tasks are not touched. */
  function UpdateSubTask(b: Board, subTaskId: Id, title: Option<string>, isCompleted: Option<bool>): (r: Outcome<SubTask>)
    requires WellFormed(b)
    ensures WellFormed(r.board)
    ensures r.result.Err? <==> subTaskId !in b.subtasks.rows
    ensures r.result.Err? ==> r.result.status == NotFound && r.board == b
    ensures r.result.Ok? ==>
      && var s := b.subtasks.rows[subTaskId];
      && r.result.value.taskId == s.taskId && r.result.value.createdBy == s.createdBy
      && r.result.value.title == (if title.Some? then Trim(title.value) else s.title)
      && r.result.value.isCompleted == (if isCompleted.Some? then isCompleted.value else s.isCompleted)
      && r.board.subtasks == Collection(b.subtasks.rows[subTaskId := r.result.value], b.subtasks.nextId)
      && r.board.tasks == b.tasks
  {
    if subTaskId !in b.subtasks.rows then Outcome(b, Err(NotFound))
    else
      var u := ApplySubTaskUpdate(b.subtasks.rows[subTaskId], title, isCompleted);
      Outcome(Board(b.tasks, Collection(b.subtasks.rows[subTaskId := u], b.subtasks.nextId)), Ok(u))
  }

  /** `deleteSubTask`: 404 for a missing subtask; otherwise exactly that subtask is
      removed. */
  function DeleteSubTask(b: Board, subTaskId: Id): (r: Outcome<()>)
    requires WellFormed(b)
    ensures WellFormed(r.board)
    ensures r.result.Err? <==> subTaskId !in b.subtasks.rows
    ensures r.result.Err? ==> r.result.status == NotFound && r.board == b
    ensures r.result.Ok? ==>
      && r.board.subtasks == Collection(b.subtasks.rows - {subTaskId}, b.subtasks.nextId)
      && r.board.tasks == b.tasks
  {
    if subTaskId !in b.subtasks.rows then Outcome(b, Err(NotFound))
    else Outcome(Board(b.tasks, Collection(b.subtasks.rows - {subTaskId}, b.subtasks.nextId)), Ok(()))
  }
}
