/** The state-changing handlers of src/controllers/note.controller.js as methods on the
    Note collection, each proved to leave it, and to answer, exactly as the matching
    function of Notes says. The read-only handlers are Notes.ProjectNotes and
    Notes.NoteDetails. */
module NoteController {

  import opened Common
  import opened Documents
  import Notes

  class NoteStore {
    var notes: Collection<Notes.Note>

    ghost predicate Valid()
      reads this
    {
      Documents.Valid(notes)
    }

    constructor ()
      ensures Valid() && notes == Empty()
    {
      notes := Empty();
    }

    /** `createNote`. */
    method Create(projectId: Id, title: Option<string>, content: Option<string>, caller: Id) returns (r: Result<Id>)
      requires Valid()
      modifies this
      ensures Valid()
      ensures Notes.Outcome(notes, r) == Notes.CreateNote(old(notes), projectId, title, content, caller)
    {
      if Blank(title) {
        return Err(BadRequest);
      }
      var id := notes.nextId;
      notes := Insert(notes, Notes.Note(projectId, title.value, if Truthy(content) then content.value else "", caller));
      r := Ok(id);
    }

    /** `updateNote`. */
    method Update(noteId: Id, title: Option<string>, content: Option<string>) returns (r: Result<Notes.Note>)
      requires Valid()
      modifies this
      ensures Valid()
      ensures Notes.Outcome(notes, r) == Notes.UpdateNote(old(notes), noteId, title, content)
    {
      if noteId !in notes.rows {
        return Err(NotFound);
      }
      var note := notes.rows[noteId];
      if title.Some? {
        note := note.(title := title.value);
      }
      if content.Some? {
        note := note.(content := content.value);
      }
      notes := Collection(notes.rows[noteId := note], notes.nextId);
      r := Ok(note);
    }

    /** `deleteNote`. */
    method Delete(noteId: Id) returns (r: Result<()>)
      requires Valid()
      modifies this
      ensures Valid()
      ensures Notes.Outcome(notes, r) == Notes.DeleteNote(old(notes), noteId)
    {
      if noteId !in notes.rows {
        return Err(NotFound);
      }
      notes := Collection(notes.rows - {noteId}, notes.nextId);
      r := Ok(());
    }
  }
}
