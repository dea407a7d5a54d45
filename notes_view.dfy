/** The selection state of `src/components/NotesView.tsx`: which note is
    active, how that choice is repaired when the notes change, and the
    handlers that add and delete notes, add sections and rename a section.

    `activeNoteId` is `string | null`; the source tests it for truthiness,
    so `None` and `Some("")` both count as "no active note" there. */
module NotesView {
  import opened Common
  import opened TaskTypes
  import opened NoteContext

  predicate Truthy(active: Option<string>) {
    active.Some? && active.value != ""
  }

  predicate Names(ns: seq<Note>, id: string) {
    exists n :: n in ns && n.id == id
  }

  /** The active id the sync effect settles on: none without notes; the
      first note's id when the current one is falsy or names no note;
      otherwise the current one. */
  function Synced(ns: seq<Note>, active: Option<string>): Option<string> {
    if |ns| > 0 then
      if !Truthy(active) || FindFirst(ns, (n: Note) => n.id == active.value).None? then Some(ns[0].id)
      else active
    else None
  }

  /** After the effect the active id is absent exactly when there are no
      notes, and otherwise names a note. */
  lemma SyncedNamesANote(ns: seq<Note>, active: Option<string>)
    ensures Synced(ns, active).None? <==> ns == []
    ensures Synced(ns, active).Some? ==> Names(ns, Synced(ns, active).value)
  {
    if |ns| > 0 {
      assert ns[0] in ns;
    }
  }

  /** An active id that already names a note is left alone. */
  lemma SyncedKeepsValid(ns: seq<Note>, active: Option<string>)
    requires Truthy(active) && Names(ns, active.value)
    ensures Synced(ns, active) == active
  {
  }

  /** Running the effect a second time changes nothing. */
  lemma SyncedIdempotent(ns: seq<Note>, active: Option<string>)
    ensures Synced(ns, Synced(ns, active)) == Synced(ns, active)
  {
    if |ns| > 0 {
      assert ns[0] in ns;
    }
  }

  /** `notes.find(note => note.id === activeNoteId) || null`: the first note
      carrying the active id. */
  function ActiveIn(ns: seq<Note>, active: Option<string>): (r: Option<Note>)
    ensures r.Some? ==> r.value in ns && active == Some(r.value.id)
    ensures r.None? <==> active.None? || !Names(ns, active.value)
    ensures r.Some? ==> exists k :: 0 <= k < |ns| && ns[k] == r.value && forall j :: 0 <= j < k ==> ns[j].id != active.value
  {
    if active.None? then None else FindFirst(ns, (n: Note) => n.id == active.value)
  }

  /** The active id after a note is deleted: when the active one went, the
      id of the earliest note in the list that survives the deletion (none
      when none survives); otherwise unchanged. */
  function AfterDelete(ns: seq<Note>, active: Option<string>, id: string): (r: Option<string>)
    ensures active != Some(id) ==> r == active
    ensures active == Some(id) ==> (r.None? <==> forall n :: n in ns ==> n.id == id)
    ensures r.Some? && active == Some(id) ==> Names(NoteRemoved(ns, id), r.value) && r.value != id
    ensures r.Some? && active == Some(id) ==>
      exists k :: 0 <= k < |ns| && ns[k].id == r.value && forall j :: 0 <= j < k ==> ns[j].id == id
  {
    if active == Some(id) then
      var remaining := NoteRemoved(ns, id);
      if |remaining| > 0 then
        assert remaining[0] in remaining;
        FilterFirst(ns, (n: Note) => n.id != id);
        Some(remaining[0].id)
      else None
    else active
  }

  class NotesPage {
    const store: NoteStore
    var activeNoteId: Option<string>
    var newNoteTitle: string
    var isAddNoteDialogOpen: bool
    var newSectionTitle: string
    var isAddSectionDialogOpen: bool
    var editingSectionTitle: map<string, string>
    var isEditingSectionTitle: map<string, bool>

    /** The first render: the first note is active, if there is one. */
    constructor (store: NoteStore)
      ensures this.store == store
      ensures activeNoteId == if |store.notes| > 0 then Some(store.notes[0].id) else None
      ensures newNoteTitle == "" && newSectionTitle == ""
      ensures !isAddNoteDialogOpen && !isAddSectionDialogOpen
      ensures editingSectionTitle == map[] && isEditingSectionTitle == map[]
    {
      this.store := store;
      activeNoteId := if |store.notes| > 0 then Some(store.notes[0].id) else None;
      newNoteTitle := "";
      isAddNoteDialogOpen := false;
      newSectionTitle := "";
      isAddSectionDialogOpen := false;
      editingSectionTitle := map[];
      isEditingSectionTitle := map[];
    }

    function ActiveNote(): Option<Note>
      reads this, store
    {
      ActiveIn(store.notes, activeNoteId)
    }

    /** The effect that repairs the active id whenever the notes or the
        active id change. */
    method SyncActive()
      modifies this
      ensures activeNoteId == Synced(store.notes, old(activeNoteId))
      ensures activeNoteId.None? <==> store.notes == []
      ensures activeNoteId.Some? ==> Names(store.notes, activeNoteId.value)
      ensures newNoteTitle == old(newNoteTitle) && newSectionTitle == old(newSectionTitle)
      ensures isAddNoteDialogOpen == old(isAddNoteDialogOpen) && isAddSectionDialogOpen == old(isAddSectionDialogOpen)
      ensures editingSectionTitle == old(editingSectionTitle) && isEditingSectionTitle == old(isEditingSectionTitle)
    {
      var active := activeNoteId;
      SyncedNamesANote(store.notes, active);
      if |store.notes| > 0 {
        if !Truthy(active) || FindFirst(store.notes, (n: Note) => n.id == active.value).None? {
          activeNoteId := Some(store.notes[0].id);
        }
      } else {
        activeNoteId := None;
      }
    }

    /** `handleAddNote`: a blank title does nothing; otherwise a note with
        the trimmed title is added and becomes active, and the dialog
        closes with an empty title field. */
    method HandleAddNote(freshId: string, now: Instant)
      requires IdFresh(store.notes, freshId)
      modifies this, store
      ensures Trim(old(newNoteTitle)) == "" ==>
        && store.notes == old(store.notes) && activeNoteId == old(activeNoteId)
        && newNoteTitle == old(newNoteTitle) && isAddNoteDialogOpen == old(isAddNoteDialogOpen)
      ensures Trim(old(newNoteTitle)) != "" ==>
        && store.notes == old(store.notes) + [NewNote(Trim(old(newNoteTitle)), freshId, now)]
        && activeNoteId == Some(freshId)
        && newNoteTitle == "" && !isAddNoteDialogOpen
      ensures newSectionTitle == old(newSectionTitle) && isAddSectionDialogOpen == old(isAddSectionDialogOpen)
      ensures editingSectionTitle == old(editingSectionTitle) && isEditingSectionTitle == old(isEditingSectionTitle)
    {
      var title := Trim(newNoteTitle);
      if title != "" {
        var newNoteId := store.AddNote(title, freshId, now);
        newNoteTitle := "";
        isAddNoteDialogOpen := false;
        activeNoteId := Some(newNoteId);
      }
    }

    /** `handleDeleteNote`: the note goes; when it was the active one, the
        first remaining note becomes active, or none. */
    method HandleDeleteNote(id: string)
      modifies this, store
      ensures store.notes == NoteRemoved(old(store.notes), id)
      ensures activeNoteId == AfterDelete(old(store.notes), old(activeNoteId), id)
      ensures newNoteTitle == old(newNoteTitle) && newSectionTitle == old(newSectionTitle)
      ensures isAddNoteDialogOpen == old(isAddNoteDialogOpen) && isAddSectionDialogOpen == old(isAddSectionDialogOpen)
      ensures editingSectionTitle == old(editingSectionTitle) && isEditingSectionTitle == old(isEditingSectionTitle)
    {
      var notes := store.notes;
      store.DeleteNote(id);
      if activeNoteId == Some(id) {
        var remainingNotes := NoteRemoved(notes, id);
        activeNoteId := if |remainingNotes| > 0 then Some(remainingNotes[0].id) else None;
      }
    }

    /** `handleAddSection`: nothing happens without an active note or with a
        blank title; otherwise a section with the trimmed title is appended
        to the active note. */
    method HandleAddSection(freshId: string)
      requires SectionIdFresh(store.notes, freshId)
      modifies this, store
      ensures old(ActiveNote()).None? || Trim(old(newSectionTitle)) == "" ==>
        && store.notes == old(store.notes)
        && newSectionTitle == old(newSectionTitle) && isAddSectionDialogOpen == old(isAddSectionDialogOpen)
      ensures old(ActiveNote()).Some? && Trim(old(newSectionTitle)) != "" ==>
        && store.notes == SectionAdded(old(store.notes), old(ActiveNote()).value.id, Section(freshId, Trim(old(newSectionTitle)), ""))
        && newSectionTitle == "" && !isAddSectionDialogOpen
      ensures activeNoteId == old(activeNoteId)
      ensures newNoteTitle == old(newNoteTitle) && isAddNoteDialogOpen == old(isAddNoteDialogOpen)
      ensures editingSectionTitle == old(editingSectionTitle) && isEditingSectionTitle == old(isEditingSectionTitle)
    {
      var activeNote := ActiveNote();
      var title := Trim(newSectionTitle);
      if activeNote.None? || title == "" {
        return;
      }
      var _ := store.AddNoteSection(activeNote.value.id, title, freshId);
      newSectionTitle := "";
      isAddSectionDialogOpen := false;
    }

    /** `startEditingSectionTitle`: the section's title is copied into the
        edit field and the section is marked as being renamed. */
    method StartEditingSectionTitle(section: Section)
      modifies this
      ensures isEditingSectionTitle == old(isEditingSectionTitle)[section.id := true]
      ensures editingSectionTitle == old(editingSectionTitle)[section.id := section.title]
      ensures activeNoteId == old(activeNoteId)
      ensures newNoteTitle == old(newNoteTitle) && newSectionTitle == old(newSectionTitle)
      ensures isAddNoteDialogOpen == old(isAddNoteDialogOpen) && isAddSectionDialogOpen == old(isAddSectionDialogOpen)
    {
      isEditingSectionTitle := isEditingSectionTitle[section.id := true];
      editingSectionTitle := editingSectionTitle[section.id := section.title];
    }

    /** `saveEditingSectionTitle`: nothing happens when the edit field is
        missing or empty; otherwise the section takes the edited title and
        leaves renaming mode. */
    method SaveEditingSectionTitle(noteId: string, sectionId: string)
      modifies this, store
      ensures sectionId !in old(editingSectionTitle) || old(editingSectionTitle)[sectionId] == "" ==>
        store.notes == old(store.notes) && isEditingSectionTitle == old(isEditingSectionTitle)
      ensures sectionId in old(editingSectionTitle) && old(editingSectionTitle)[sectionId] != "" ==>
        && store.notes == SectionUpdated(old(store.notes), noteId, sectionId, SectionPatch(None, Some(old(editingSectionTitle)[sectionId]), None))
        && isEditingSectionTitle == old(isEditingSectionTitle)[sectionId := false]
      ensures activeNoteId == old(activeNoteId) && editingSectionTitle == old(editingSectionTitle)
      ensures newNoteTitle == old(newNoteTitle) && newSectionTitle == old(newSectionTitle)
      ensures isAddNoteDialogOpen == old(isAddNoteDialogOpen) && isAddSectionDialogOpen == old(isAddSectionDialogOpen)
    {
      if sectionId !in editingSectionTitle || editingSectionTitle[sectionId] == "" {
        return;
      }
      store.UpdateNoteSection(noteId, sectionId, SectionPatch(None, Some(editingSectionTitle[sectionId]), None));
      isEditingSectionTitle := isEditingSectionTitle[sectionId := false];
    }
  }
}
