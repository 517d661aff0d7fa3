/** The state-changing handlers of src/controllers/task.controller.js as methods on the
    Task and SubTask collections. Each performs the handler's steps in order (the
    attachment records built file by file, the update document assembled field by
    field) and is proved to leave the collections, and to answer, exactly as the
    matching function of Tasks says. The read-only handlers are the functions
    Tasks.ProjectTasks and Tasks.TaskDetails. */
module TaskController {

  import opened Common
  import opened Documents
  import opened Constants
  import opened TaskModel
  import Tasks

  /** The update document of `updateTask`, applied field by field: each field the
      body sends is set, and the new attachments are pushed. */
  method SetFields(t: Task, title: Option<string>, description: Option<string>, assignedTo: Option<Option<Id>>,
                   status: Option<string>, newAttachments: seq<Attachment>) returns (u: Task)
    ensures u == Tasks.ApplyUpdate(t, title, description, assignedTo, status, newAttachments)
  {
    u := t;
    if Truthy(title) {
      u := u.(title := Trim(title.value));
    }
    if description.Some? {
      u := u.(description := Trim(description.value));
    }
    if assignedTo.Some? {
      u := u.(assignedTo := assignedTo.value);
    }
    if Truthy(status) {
      u := u.(status := status.value);
    }
    u := u.(attachments := u.attachments + newAttachments);
  }

  /** The update document of `updateSubTask`, applied field by field. */
  method SetSubTaskFields(s: SubTask, title: Option<string>, isCompleted: Option<bool>) returns (u: SubTask)
    ensures u == Tasks.ApplySubTaskUpdate(s, title, isCompleted)
  {
    u := s;
    if title.Some? {
      u := u.(title := Trim(title.value));
    }
    if isCompleted.Some? {
      u := u.(isCompleted := isCompleted.value);
    }
  }

  class TaskStore {
    var tasks: Collection<Task>
    var subtasks: Collection<SubTask>

    ghost function State(): Tasks.Board
      reads this
    {
      Tasks.Board(tasks, subtasks)
    }

    ghost predicate Valid()
      reads this
    {
      Tasks.WellFormed(State())
    }

    constructor ()
      ensures Valid() && tasks == Empty() && subtasks == Empty()
    {
      tasks := Empty();
      subtasks := Empty();
    }

    /** `createTask`. */
    method Create(projectId: Id, title: Option<string>, description: Option<string>, assignedTo: Option<Id>,
                  status: Option<string>, files: seq<UploadedFile>, caller: Id) returns (r: Result<Id>)
      requires Valid()
      modifies this
      ensures Valid()
      ensures Tasks.Outcome(State(), r) ==
        Tasks.CreateTask(old(State()), projectId, title, description, assignedTo, status, files, caller)
    {
      if Blank(title) {
        return Err(BadRequest);
      }
      var attachments := [];
      if |files| > 0 {
        attachments := BuildAttachments(files);
      }
      var task := NewTask(projectId, title.value, if Truthy(description) then description.value else "",
                          assignedTo, Tasks.RequestedStatus(status), attachments, caller);
      if task.None? {
        return Err(Internal);
      }
      var id := tasks.nextId;
      tasks := Insert(tasks, task.value);
      r := Ok(id);
    }

    /** `updateTask`: the update document is assembled field by field, then applied. */
    method Update(taskId: Id, title: Option<string>, description: Option<string>, assignedTo: Option<Option<Id>>,
                  status: Option<string>, files: seq<UploadedFile>) returns (r: Result<Task>)
      requires Valid()
      modifies this
      ensures Valid()
      ensures Tasks.Outcome(State(), r) ==
        Tasks.UpdateTask(old(State()), taskId, title, description, assignedTo, status, files)
    {
      if taskId !in tasks.rows {
        return Err(NotFound);
      }
      var newAttachments := [];
      if |files| > 0 {
        newAttachments := BuildAttachments(files);
      }
      var task := SetFields(tasks.rows[taskId], title, description, assignedTo, status, newAttachments);
      tasks := Collection(tasks.rows[taskId := task], tasks.nextId);
      r := Ok(task);
    }

    /** `deleteTask`: the task, then its subtasks. Unlinking the uploaded files is not
        modelled. */
    method Delete(taskId: Id) returns (r: Result<()>)
      requires Valid()
      modifies this
      ensures Valid()
      ensures Tasks.Outcome(State(), r) == Tasks.DeleteTask(old(State()), taskId)
    {
      if taskId !in tasks.rows {
        return Err(NotFound);
      }
      tasks := Collection(tasks.rows - {taskId}, tasks.nextId);
      subtasks := DeleteWhere(subtasks, OfTask(taskId));
      r := Ok(());
    }

    /** `createSubTask`. */
    method CreateSubTask(taskId: Id, title: Option<string>, caller: Id) returns (r: Result<Id>)
      requires Valid()
      modifies this
      ensures Valid()
      ensures Tasks.Outcome(State(), r) == Tasks.CreateSubTask(old(State()), taskId, title, caller)
    {
      if Blank(title) {
        return Err(BadRequest);
      }
      if taskId !in tasks.rows {
        return Err(NotFound);
      }
      var id := subtasks.nextId;
      subtasks := Insert(subtasks, NewSubTask(taskId, title.value, caller));
      r := Ok(id);
    }

    /** `updateSubTask`. */
    method UpdateSubTask(subTaskId: Id, title: Option<string>, isCompleted: Option<bool>) returns (r: Result<SubTask>)
      requires Valid()
      modifies this
      ensures Valid()
      ensures Tasks.Outcome(State(), r) == Tasks.UpdateSubTask(old(State()), subTaskId, title, isCompleted)
    {
      if subTaskId !in subtasks.rows {
        return Err(NotFound);
      }
      var subtask := SetSubTaskFields(subtasks.rows[subTaskId], title, isCompleted);
      subtasks := Collection(subtasks.rows[subTaskId := subtask], subtasks.nextId);
      r := Ok(subtask);
    }

    /** `deleteSubTask`. */
    method DeleteSubTask(subTaskId: Id) returns (r: Result<()>)
      requires Valid()
      modifies this
      ensures Valid()
      ensures Tasks.Outcome(State(), r) == Tasks.DeleteSubTask(old(State()), subTaskId)
    {
      if subTaskId !in subtasks.rows {
        return Err(NotFound);
      }
      subtasks := Collection(subtasks.rows - {subTaskId}, subtasks.nextId);
      r := Ok(());
    }
  }
}
