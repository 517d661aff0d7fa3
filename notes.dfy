/** The handlers of src/controllers/note.controller.js as functions from the Note
    collection before a request to the collection after it and the handler's
    outcome, with the properties they keep. The Note schema
    (src/models/note.model.js) is not part of this model: fields are stored as the
    handler passes them. NoteController's methods are proved to compute exactly
    these. */
module Notes {

  import opened Common
  import opened Documents

  /** A note of a project. */
  datatype Note = Note(projectId: Id, title: string, content: string, createdBy: Id)

  /** The collection after a request, and the request's outcome. */
  datatype Outcome<T> = Outcome(notes: Collection<Note>, result: Result<T>)

  /** The filter `{ projectId }` on notes. */
  function OfProject(projectId: Id): Note -> bool
  {
    (n: Note) => n.projectId == projectId
  }

  /** `createNote`: 400 on a blank title; otherwise one note is added, its content
      defaulting to "" and its author the caller. */
  function CreateNote(notes: Collection<Note>, projectId: Id, title: Option<string>, content: Option<string>, caller: Id)
    : (r: Outcome<Id>)
    requires Valid(notes)
    ensures Valid(r.notes)
    ensures r.result.Err? <==> Blank(title)
    ensures r.result.Err? ==> r.result.status == BadRequest && r.notes == notes
    ensures r.result.Ok? ==>
      && r.result.value == notes.nextId
      && r.notes == Insert(notes, Note(projectId, title.value, if Truthy(content) then content.value else "", caller))
  {
    if Blank(title) then Outcome(notes, Err(BadRequest))
    else Outcome(Insert(notes, Note(projectId, title.value, if Truthy(content) then content.value else "", caller)), Ok(notes.nextId))
  }

  /** `getProjectNotes`: the project's notes, newest first. */
  function ProjectNotes(notes: Collection<Note>, projectId: Id): (ids: seq<Id>)
    requires Valid(notes)
    ensures Decreasing(ids)
    ensures forall id :: id in ids <==> id in notes.rows && notes.rows[id].projectId == projectId
  {
    FindNewestFirst(notes, OfProject(projectId))
  }

  /** `getNoteDetails`: 404 for a missing note. */
  function NoteDetails(notes: Collection<Note>, noteId: Id): (r: Result<Note>)
    ensures r.Err? <==> noteId !in notes.rows
    ensures r.Err? ==> r.status == NotFound
    ensures r.Ok? ==> r.value == notes.rows[noteId]
  {
    if noteId in notes.rows then Ok(notes.rows[noteId]) else Err(NotFound)
  }

  /** `updateNote`: 404 for a missing note; otherwise only that note changes. A field
      the body leaves out is stripped from the `$set` and keeps its value. */
  function UpdateNote(notes: Collection<Note>, noteId: Id, title: Option<string>, content: Option<string>)
    : (r: Outcome<Note>)
    requires Valid(notes)
    ensures Valid(r.notes)
    ensures r.result.Err? <==> noteId !in notes.rows
    ensures r.result.Err? ==> r.result.status == NotFound && r.notes == notes
    ensures r.result.Ok? ==>
      && var n := notes.rows[noteId];
      && r.result.value.projectId == n.projectId && r.result.value.createdBy == n.createdBy
      && r.result.value.title == (if title.Some? then title.value else n.title)
      && r.result.value.content == (if content.Some? then content.value else n.content)
      && r.notes == Collection(notes.rows[noteId := r.result.value], notes.nextId)
  {
    if noteId !in notes.rows then Outcome(notes, Err(NotFound))
    else
      var n := notes.rows[noteId];
      var u := n.(title := if title.Some? then title.value else n.title,
                  content := if content.Some? then content.value else n.content);
      Outcome(Collection(notes.rows[noteId := u], notes.nextId), Ok(u))
  }

  /** `deleteNote`: 404 for a missing note; otherwise exactly that note is removed. */
  function DeleteNote(notes: Collection<Note>, noteId: Id): (r: Outcome<()>)
    requires Valid(notes)
    ensures Valid(r.notes)
    ensures r.result.Err? <==> noteId !in notes.rows
    ensures r.result.Err? ==> r.result.status == NotFound && r.notes == notes
    ensures r.result.Ok? ==> r.notes == Collection(notes.rows - {noteId}, notes.nextId)
  {
    if noteId !in notes.rows then Outcome(notes, Err(NotFound))
    else Outcome(Collection(notes.rows - {noteId}, notes.nextId), Ok(()))
  }

  /** A created note can be read back as stored and heads its project's listing. */
  lemma CreatedNoteIsListedFirst(notes: Collection<Note>, projectId: Id, title: Option<string>, content: Option<string>,
                                 caller: Id)
    requires Valid(notes) && !Blank(title)
    ensures var r := CreateNote(notes, projectId, title, content, caller);
            && r.result.Ok?
            && NoteDetails(r.notes, r.result.value) ==
               Ok(Note(projectId, title.value, if Truthy(content) then content.value else "", caller))
            && ProjectNotes(r.notes, projectId) != []
            && ProjectNotes(r.notes, projectId)[0] == r.result.value
  {
    var r := CreateNote(notes, projectId, title, content, caller);
    NewestIsFirst(r.notes, OfProject(projectId), r.result.value);
  }

  /** After a note is deleted it can no longer be read, updated or deleted (404), and
      no listing shows it. */
  lemma DeletedNoteIsGone(notes: Collection<Note>, noteId: Id, projectId: Id, title: Option<string>, content: Option<string>)
    requires Valid(notes) && noteId in notes.rows
    ensures var after := DeleteNote(notes, noteId).notes;
            && NoteDetails(after, noteId) == Err(NotFound)
            && UpdateNote(after, noteId, title, content).result == Err(NotFound)
            && DeleteNote(after, noteId).result == Err(NotFound)
            && noteId !in ProjectNotes(after, projectId)
  {
  }

  /** An update that sends neither field leaves the collection as it was, and
      repeating an update changes nothing more. */
  lemma UpdateNoteIsIdempotent(notes: Collection<Note>, noteId: Id, title: Option<string>, content: Option<string>)
    requires Valid(notes) && noteId in notes.rows
    ensures UpdateNote(notes, noteId, None, None).notes == notes
    ensures var once := UpdateNote(notes, noteId, title, content);
            UpdateNote(once.notes, noteId, title, content) == once
  {
    var n := notes.rows[noteId];
    assert notes.rows[noteId := n] == notes.rows;
    var once := UpdateNote(notes, noteId, title, content);
    assert once.notes.rows[noteId := once.result.value] == once.notes.rows;
  }
}
