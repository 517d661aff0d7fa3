/** The Task and SubTask schemas (src/models/task.model.js, src/models/subtask.model.js)
    and the attachment records that `createTask` and `updateTask` build from the files
    the upload middleware accepted. */
module TaskModel {

  import opened Common
  import opened Documents
  import opened Constants

  /** A file as the upload middleware hands it to a handler. */
  datatype UploadedFile = UploadedFile(filename: string, path: string, mimetype: string, size: nat)

  /** One element of a task's `attachments` array. */
  datatype Attachment = Attachment(url: string, localPath: string, mimeType: string, size: nat)

  /** A task. `status` holds the string that was written: `Task.create` checks it
      against the enum, while `findByIdAndUpdate` runs no validators. `assignedTo`
      is `null` when nobody is assigned. */
  datatype Task = Task(projectId: Id, title: string, description: string, assignedTo: Option<Id>,
                       status: string, attachments: seq<Attachment>, createdBy: Id)

  /** A subtask, which refers to its task by id. */
  datatype SubTask = SubTask(taskId: Id, title: string, isCompleted: bool, createdBy: Id)

  /** The record pushed for one uploaded file: it is served under `/images/`. */
  function Describe(f: UploadedFile): (a: Attachment)
    ensures a.url == "/images/" + f.filename
    ensures a.localPath == f.path && a.mimeType == f.mimetype && a.size == f.size
  {
    Attachment("/images/" + f.filename, f.path, f.mimetype, f.size)
  }

  /** The records for a batch of uploads: one per file, in upload order. */
  function DescribeAll(files: seq<UploadedFile>): (atts: seq<Attachment>)
    ensures |atts| == |files|
    ensures forall i :: 0 <= i < |files| ==> atts[i] == Describe(files[i])
  {
    if files == [] then [] else [Describe(files[0])] + DescribeAll(files[1..])
  }

  /** Describing two batches one after the other describes their concatenation. */
  lemma DescribeAllAppend(a: seq<UploadedFile>, b: seq<UploadedFile>)
    ensures DescribeAll(a + b) == DescribeAll(a) + DescribeAll(b)
  {
    var l := DescribeAll(a + b);
    var r := DescribeAll(a) + DescribeAll(b);
    assert |l| == |r|;
    forall i | 0 <= i < |l| ensures l[i] == r[i] {
      if i < |a| {
        assert (a + b)[i] == a[i];
      } else {
        assert (a + b)[i] == b[i - |a|];
      }
    }
  }

  /** The `forEach` of the handlers that pushes one record per uploaded file. */
  method BuildAttachments(files: seq<UploadedFile>) returns (atts: seq<Attachment>)
    ensures atts == DescribeAll(files)
  {
    atts := [];
    var i := 0;
    while i < |files|
      invariant 0 <= i <= |files|
      invariant |atts| == i
      invariant forall j :: 0 <= j < i ==> atts[j] == Describe(files[j])
    {
      atts := atts + [Describe(files[i])];
      i := i + 1;
    }
  }

  /** What `Task.create` stores: title and description trimmed, the status checked
      against the enum (a value outside it fails validation). */
  function NewTask(projectId: Id, title: string, description: string, assignedTo: Option<Id>,
                   status: string, attachments: seq<Attachment>, createdBy: Id): (r: Option<Task>)
    ensures r.Some? <==> status in AvailTaskStatuses()
    ensures r.Some? ==> r.value == Task(projectId, Trim(title), Trim(description), assignedTo, status, attachments, createdBy)
  {
    if ParseStatus(status).None? then None
    else Some(Task(projectId, Trim(title), Trim(description), assignedTo, status, attachments, createdBy))
  }

  /** What `SubTask.create` stores: the title trimmed, not completed. */
  function NewSubTask(taskId: Id, title: string, createdBy: Id): (s: SubTask)
    ensures s.taskId == taskId && s.createdBy == createdBy
    ensures s.title == Trim(title) && !s.isCompleted
  {
    SubTask(taskId, Trim(title), false, createdBy)
  }

  /** The filter `{ projectId }` on tasks. */
  function InProject(projectId: Id): Task -> bool
  {
    (t: Task) => t.projectId == projectId
  }

  /** The filter `{ taskId }` on subtasks. */
  function OfTask(taskId: Id): SubTask -> bool
  {
    (s: SubTask) => s.taskId == taskId
  }
}
