/**
 * The global id table (`notes_by_id`) that annotations are resolved
 * against once every event has its drawing object.
 */
module Notes {
  import opened Wrappers

  /** A handle on a drawing-library note. */
  datatype VexNote = VexNote(id: nat)

  /** An entry of the table: the event's note and the index of the system it was laid out in, if known. */
  datatype NoteEntry = NoteEntry(vexNote: VexNote, system: Option<int>)

  type NotesById = map<string, NoteEntry>

  /** `notes_by_id[id]`: undefined when the id is not in the table. */
  function Lookup(notes: NotesById, id: string): (r: Option<NoteEntry>)
    ensures r.Some? <==> id in notes
    ensures r.Some? ==> r.value == notes[id]
  {
    if id in notes then Some(notes[id]) else None
  }
}
