/** The note store of `src/contexts/NoteContext.tsx`: a list of notes, each
    holding a list of titled sections, with keyed add, update and delete at
    both levels.

    The `Note` and `NoteSection` records are imported by the source from
    `src/types/task.ts`, which does not declare them; their fields here are
    the ones the store and the notes view read and write. */
module NoteContext {
  import opened Common
  import opened TaskTypes

  datatype Section = Section(id: string, title: string, content: string)

  datatype Note = Note(id: string, title: string, content: string, sections: seq<Section>, createdAt: Instant)

  /** `Partial<Note>`. */
  datatype NotePatch = NotePatch(
    id: Option<string>,
    title: Option<string>,
    content: Option<string>,
    sections: Option<seq<Section>>,
    createdAt: Option<Instant>)

  /** `Partial<NoteSection>`. */
  datatype SectionPatch = SectionPatch(id: Option<string>, title: Option<string>, content: Option<string>)

  /** `{ ...note, ...updates }`. */
  function MergeNote(n: Note, p: NotePatch): Note {
    Note(p.id.GetOr(n.id), p.title.GetOr(n.title), p.content.GetOr(n.content),
      p.sections.GetOr(n.sections), p.createdAt.GetOr(n.createdAt))
  }

  /** `{ ...section, ...updates }`. */
  function MergeSection(s: Section, p: SectionPatch): Section {
    Section(p.id.GetOr(s.id), p.title.GetOr(s.title), p.content.GetOr(s.content))
  }

  predicate IdFresh(ns: seq<Note>, id: string) {
    forall n :: n in ns ==> n.id != id
  }

  predicate SectionIdFresh(ns: seq<Note>, id: string) {
    forall n, s :: n in ns && s in n.sections ==> s.id != id
  }

  predicate DistinctNoteIds(ns: seq<Note>) {
    DistinctKeys(ns, (n: Note) => n.id)
  }

  predicate DistinctSectionIds(n: Note) {
    DistinctKeys(n.sections, (s: Section) => s.id)
  }

  // ---------------------------------------------------------------------
  // The new note lists the operations compute

  /** The note `addNote` creates. */
  function NewNote(title: string, id: string, now: Instant): (n: Note)
    ensures n.id == id && n.title == title && n.content == "" && n.sections == []
  {
    Note(id, title, "", [], now)
  }

  /** The list `updateNote` produces. */
  function NoteUpdated(ns: seq<Note>, id: string, p: NotePatch): (r: seq<Note>)
    ensures |r| == |ns|
    ensures forall i :: 0 <= i < |ns| && ns[i].id != id ==> r[i] == ns[i]
    ensures forall i :: 0 <= i < |ns| && ns[i].id == id ==> r[i] == MergeNote(ns[i], p)
  {
    MapWhere(ns, (n: Note) => n.id == id, (n: Note) => MergeNote(n, p))
  }

  /** The list `deleteNote` produces once it has found the note. */
  function NoteRemoved(ns: seq<Note>, id: string): (r: seq<Note>)
    ensures IsSubseq(r, ns)
    ensures forall n :: n in r <==> n in ns && n.id != id
    ensures forall n {:trigger multiset(r)[n]} :: multiset(r)[n] == if n.id != id then multiset(ns)[n] else 0
  {
    Filter(ns, (n: Note) => n.id != id)
  }

  /** The list `addNoteSection` produces: the section goes at the end of the
      matching note's sections; no other note changes, and with an unknown
      note id nothing changes. */
  function SectionAdded(ns: seq<Note>, noteId: string, s: Section): (r: seq<Note>)
    ensures |r| == |ns|
    ensures forall i :: 0 <= i < |ns| && ns[i].id != noteId ==> r[i] == ns[i]
    ensures forall i :: 0 <= i < |ns| && ns[i].id == noteId ==> r[i] == ns[i].(sections := ns[i].sections + [s])
    ensures IdFresh(ns, noteId) ==> r == ns
  {
    MapWhere(ns, (n: Note) => n.id == noteId, (n: Note) => n.(sections := n.sections + [s]))
  }

  /** The sections of one note after `updateNoteSection`. */
  function SectionsUpdated(ss: seq<Section>, sectionId: string, p: SectionPatch): (r: seq<Section>)
    ensures |r| == |ss|
    ensures forall i :: 0 <= i < |ss| && ss[i].id != sectionId ==> r[i] == ss[i]
    ensures forall i :: 0 <= i < |ss| && ss[i].id == sectionId ==> r[i] == MergeSection(ss[i], p)
  {
    MapWhere(ss, (s: Section) => s.id == sectionId, (s: Section) => MergeSection(s, p))
  }

  /** The list `updateNoteSection` produces. */
  function SectionUpdated(ns: seq<Note>, noteId: string, sectionId: string, p: SectionPatch): (r: seq<Note>)
    ensures |r| == |ns|
    ensures forall i :: 0 <= i < |ns| && ns[i].id != noteId ==> r[i] == ns[i]
    ensures forall i :: 0 <= i < |ns| && ns[i].id == noteId ==>
      r[i] == ns[i].(sections := SectionsUpdated(ns[i].sections, sectionId, p))
  {
    MapWhere(ns, (n: Note) => n.id == noteId, (n: Note) => n.(sections := SectionsUpdated(n.sections, sectionId, p)))
  }

  /** The sections of one note after `deleteNoteSection`. */
  function SectionsRemoved(ss: seq<Section>, sectionId: string): (r: seq<Section>)
    ensures IsSubseq(r, ss)
    ensures forall s :: s in r <==> s in ss && s.id != sectionId
    ensures forall s {:trigger multiset(r)[s]} :: multiset(r)[s] == if s.id != sectionId then multiset(ss)[s] else 0
  {
    Filter(ss, (s: Section) => s.id != sectionId)
  }

  /** The list `deleteNoteSection` produces. */
  function SectionRemoved(ns: seq<Note>, noteId: string, sectionId: string): (r: seq<Note>)
    ensures |r| == |ns|
    ensures forall i :: 0 <= i < |ns| && ns[i].id != noteId ==> r[i] == ns[i]
    ensures forall i :: 0 <= i < |ns| && ns[i].id == noteId ==>
      r[i] == ns[i].(sections := SectionsRemoved(ns[i].sections, sectionId))
  {
    MapWhere(ns, (n: Note) => n.id == noteId, (n: Note) => n.(sections := SectionsRemoved(n.sections, sectionId)))
  }

  // ---------------------------------------------------------------------
  // Properties relating the operations

  lemma RemoveUnknownNote(ns: seq<Note>, id: string)
    requires IdFresh(ns, id)
    ensures NoteRemoved(ns, id) == ns
  {
    FilterKeepsAll(ns, (n: Note) => n.id != id);
  }

  /** Deleting a note just added with a fresh id gives back the earlier list. */
  lemma AddThenRemoveNote(ns: seq<Note>, title: string, id: string, now: Instant)
    requires IdFresh(ns, id)
    ensures NoteRemoved(ns + [NewNote(title, id, now)], id) == ns
  {
    FilterConcat(ns, [NewNote(title, id, now)], (n: Note) => n.id != id);
    FilterKeepsAll(ns, (n: Note) => n.id != id);
    FilterDropsAll([NewNote(title, id, now)], (n: Note) => n.id != id);
  }

  /** Deleting a section just added with a fresh id gives back the earlier list. */
  lemma AddThenRemoveSection(ns: seq<Note>, noteId: string, title: string, sectionId: string)
    requires SectionIdFresh(ns, sectionId)
    ensures SectionRemoved(SectionAdded(ns, noteId, Section(sectionId, title, "")), noteId, sectionId) == ns
  {
    var s := Section(sectionId, title, "");
    var added := SectionAdded(ns, noteId, s);
    var r := SectionRemoved(added, noteId, sectionId);
    forall i | 0 <= i < |ns| ensures r[i] == ns[i] {
      if ns[i].id == noteId {
        var ss := ns[i].sections;
        assert ns[i] in ns;
        FilterConcat(ss, [s], (x: Section) => x.id != sectionId);
        FilterKeepsAll(ss, (x: Section) => x.id != sectionId);
        FilterDropsAll([s], (x: Section) => x.id != sectionId);
      }
    }
  }

  /** Updating a section twice with the same fields changes nothing more. */
  lemma UpdateSectionIdempotent(ns: seq<Note>, noteId: string, sectionId: string, p: SectionPatch)
    ensures SectionUpdated(SectionUpdated(ns, noteId, sectionId, p), noteId, sectionId, p)
      == SectionUpdated(ns, noteId, sectionId, p)
  {
    var once := SectionUpdated(ns, noteId, sectionId, p);
    var twice := SectionUpdated(once, noteId, sectionId, p);
    forall i | 0 <= i < |ns| ensures twice[i] == once[i] {
      if ns[i].id == noteId {
        SectionsUpdatedIdempotent(ns[i].sections, sectionId, p);
      }
    }
  }

  /** Also when the update renames the section: the second pass then finds
      no section with the old id, or merges the same fields again. */
  lemma SectionsUpdatedIdempotent(ss: seq<Section>, sectionId: string, p: SectionPatch)
    ensures SectionsUpdated(SectionsUpdated(ss, sectionId, p), sectionId, p) == SectionsUpdated(ss, sectionId, p)
  {
    var u := SectionsUpdated(ss, sectionId, p);
    forall i | 0 <= i < |ss| ensures SectionsUpdated(u, sectionId, p)[i] == u[i] {
    }
  }

  /** Note ids stay distinct under adding with a fresh id, updating without
      touching the id, and deleting. */
  lemma NoteOperationsKeepIdsDistinct(ns: seq<Note>, id: string, title: string, now: Instant, p: NotePatch)
    requires DistinctNoteIds(ns)
    ensures IdFresh(ns, id) ==> DistinctNoteIds(ns + [NewNote(title, id, now)])
    ensures p.id.None? ==> DistinctNoteIds(NoteUpdated(ns, id, p))
    ensures DistinctNoteIds(NoteRemoved(ns, id))
  {
    if IdFresh(ns, id) {
      var r := ns + [NewNote(title, id, now)];
      forall i, j | 0 <= i < j < |r| ensures r[i].id != r[j].id {
        if j == |ns| {
          assert ns[i] in ns;
        }
      }
    }
    SubseqKeepsDistinct(NoteRemoved(ns, id), ns, (n: Note) => n.id);
  }

  /** Adding a section with an id no section has keeps section ids distinct
      in every note. */
  lemma SectionAddKeepsIdsDistinct(ns: seq<Note>, noteId: string, s: Section)
    requires forall n :: n in ns ==> DistinctSectionIds(n)
    requires SectionIdFresh(ns, s.id)
    ensures forall n :: n in SectionAdded(ns, noteId, s) ==> DistinctSectionIds(n)
  {
    forall n | n in SectionAdded(ns, noteId, s) ensures DistinctSectionIds(n) {
      var i :| 0 <= i < |ns| && SectionAdded(ns, noteId, s)[i] == n;
      assert ns[i] in ns;
      if ns[i].id == noteId {
        var ss := ns[i].sections + [s];
        forall a, b | 0 <= a < b < |ss| ensures ss[a].id != ss[b].id {
          if b == |ns[i].sections| {
            assert ss[a] in ns[i].sections;
          }
        }
      }
    }
  }

  /** Updating a section without touching its id keeps section ids distinct
      in every note. */
  lemma SectionUpdateKeepsIdsDistinct(ns: seq<Note>, noteId: string, sectionId: string, p: SectionPatch)
    requires forall n :: n in ns ==> DistinctSectionIds(n)
    requires p.id.None?
    ensures forall n :: n in SectionUpdated(ns, noteId, sectionId, p) ==> DistinctSectionIds(n)
  {
    forall n | n in SectionUpdated(ns, noteId, sectionId, p) ensures DistinctSectionIds(n) {
      var i :| 0 <= i < |ns| && SectionUpdated(ns, noteId, sectionId, p)[i] == n;
      assert ns[i] in ns;
      if ns[i].id == noteId {
        SectionsUpdatedKeepIds(ns[i].sections, sectionId, p);
      }
    }
  }

  lemma SectionsUpdatedKeepIds(ss: seq<Section>, sectionId: string, p: SectionPatch)
    requires p.id.None? && DistinctKeys(ss, (x: Section) => x.id)
    ensures DistinctKeys(SectionsUpdated(ss, sectionId, p), (x: Section) => x.id)
  {
    var u := SectionsUpdated(ss, sectionId, p);
    forall a, b | 0 <= a < b < |u| ensures u[a].id != u[b].id {
      assert u[a].id == ss[a].id && u[b].id == ss[b].id;
    }
  }

  /** Deleting a section keeps section ids distinct in every note. */
  lemma SectionRemoveKeepsIdsDistinct(ns: seq<Note>, noteId: string, sectionId: string)
    requires forall n :: n in ns ==> DistinctSectionIds(n)
    ensures forall n :: n in SectionRemoved(ns, noteId, sectionId) ==> DistinctSectionIds(n)
  {
    forall n | n in SectionRemoved(ns, noteId, sectionId) ensures DistinctSectionIds(n) {
      var i :| 0 <= i < |ns| && SectionRemoved(ns, noteId, sectionId)[i] == n;
      assert ns[i] in ns;
      if ns[i].id == noteId {
        SubseqKeepsDistinct(SectionsRemoved(ns[i].sections, sectionId), ns[i].sections, (x: Section) => x.id);
      }
    }
  }

  // ---------------------------------------------------------------------
  // The store

  class NoteStore {
    var notes: seq<Note>

    /** The provider's initial state: the saved notes. */
    constructor (saved: seq<Note>)
      ensures notes == saved
    {
      notes := saved;
    }

    /** `addNote`, with the fresh id and the creation instant as inputs;
        returns the new note's id. */
    method AddNote(title: string, freshId: string, now: Instant) returns (id: string)
      requires IdFresh(notes, freshId)
      modifies this
      ensures notes == old(notes) + [NewNote(title, freshId, now)]
      ensures id == freshId
    {
      var newNote := NewNote(title, freshId, now);
      notes := notes + [newNote];
      id := newNote.id;
    }

    /** `updateNote`. */
    method UpdateNote(id: string, updates: NotePatch)
      modifies this
      ensures notes == NoteUpdated(old(notes), id, updates)
    {
      notes := NoteUpdated(notes, id, updates);
    }

    /** `deleteNote`: nothing happens when no note has the id. */
    method DeleteNote(id: string)
      modifies this
      ensures IdFresh(old(notes), id) ==> notes == old(notes)
      ensures notes == NoteRemoved(old(notes), id)
    {
      var toDelete := FindFirst(notes, (n: Note) => n.id == id);
      if toDelete.None? {
        RemoveUnknownNote(notes, id);
        return;
      }
      notes := NoteRemoved(notes, id);
    }

    /** `addNoteSection`, with the fresh section id as input; returns the
        new section's id whether or not a note matched. */
    method AddNoteSection(noteId: string, title: string, freshId: string) returns (id: string)
      requires SectionIdFresh(notes, freshId)
      modifies this
      ensures notes == SectionAdded(old(notes), noteId, Section(freshId, title, ""))
      ensures id == freshId
    {
      var newSection := Section(freshId, title, "");
      notes := SectionAdded(notes, noteId, newSection);
      id := newSection.id;
    }

    /** `updateNoteSection`. */
    method UpdateNoteSection(noteId: string, sectionId: string, updates: SectionPatch)
      modifies this
      ensures notes == SectionUpdated(old(notes), noteId, sectionId, updates)
    {
      notes := SectionUpdated(notes, noteId, sectionId, updates);
    }

    /** `deleteNoteSection`. */
    method DeleteNoteSection(noteId: string, sectionId: string)
      modifies this
      ensures notes == SectionRemoved(old(notes), noteId, sectionId)
    {
      notes := SectionRemoved(notes, noteId, sectionId);
    }
  }
}
