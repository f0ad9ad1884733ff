/**
 The notes page: its cached list, the loading flag, the type filter, the
 handlers that call the API and reconcile the list, and the per-type views
 and counters.
 */
module NotesPage {

  import opened Records
  import Seqs
  import Reconcile

  /** `'all'` or one of the three types. */
  datatype Filter = All | Only(kind: NoteType)

  datatype Page = Page(notes: seq<Note>, isLoading: bool, filter: Filter)

  /** The page as first rendered, before the initial fetch settles. */
  const Initial: Page := Page([], true, All)

  /** `fetchNotes`: an OK response replaces the list; anything else keeps it,
      and the loading flag drops whatever happened. */
  function FetchNotes(p: Page, reply: Reply<seq<Note>>): (r: Page)
    ensures !r.isLoading && r.filter == p.filter
    ensures reply.Ok? ==> r.notes == reply.value
    ensures !reply.Ok? ==> r.notes == p.notes
  {
    match reply
    case Ok(data) => p.(notes := data, isLoading := false)
    case _ => p.(isLoading := false)
  }

  /** `handleAddNote`: an OK response prepends the created note. The form
      does not await it, so its outcome is not reported. */
  function HandleAdd(p: Page, reply: Reply<Note>): (r: Page)
    ensures reply.Ok? ==> r.notes == [reply.value] + p.notes
    ensures !reply.Ok? ==> r == p
    ensures r.isLoading == p.isLoading && r.filter == p.filter
  {
    match reply
    case Ok(note) => p.(notes := Reconcile.Prepend(p.notes, note))
    case _ => p
  }

  /** `handleUpdateNote`: on an OK response, swap in the returned note
      wherever the id matches. */
  function HandleUpdate(p: Page, id: int, reply: Reply<Note>): (r: Page)
    ensures |r.notes| == |p.notes|
    ensures reply.Ok? ==> forall i :: 0 <= i < |p.notes| ==>
              r.notes[i] == (if p.notes[i].id == id then reply.value else p.notes[i])
    ensures !reply.Ok? ==> r == p
    ensures r.isLoading == p.isLoading && r.filter == p.filter
  {
    match reply
    case Ok(note) => p.(notes := Reconcile.ReplaceById(p.notes, NoteId, id, note))
    case _ => p
  }

  /** `handleDeleteNote`: an OK response filters the id out. */
  function HandleDelete(p: Page, id: int, reply: Reply<()>): (r: Page)
    ensures reply.Ok? ==> (forall n :: n in r.notes <==> n in p.notes && n.id != id)
                          && Seqs.IsSubseq(r.notes, p.notes)
                          && |r.notes| + Seqs.Count(p.notes, Reconcile.WithKey(NoteId, id)) == |p.notes|
    ensures !reply.Ok? ==> r == p
    ensures r.isLoading == p.isLoading && r.filter == p.filter
  {
    match reply
    case Ok(_) => p.(notes := Reconcile.RemoveById(p.notes, NoteId, id))
    case _ => p
  }

  function SetFilter(p: Page, f: Filter): (r: Page)
    ensures r.filter == f && r.notes == p.notes && r.isLoading == p.isLoading
  {
    p.(filter := f)
  }

  /** `n => n.type === name`. */
  function HasType(name: string): Note -> bool {
    (n: Note) => n.noteType == name
  }

  /** `importantCount`, `dailyCount`, `generalCount`. */
  function CountOf(notes: seq<Note>, k: NoteType): (r: nat)
    ensures r <= |notes|
    ensures r > 0 <==> exists n :: n in notes && n.noteType == TypeName(k)
  {
    var v := Seqs.Filter(notes, HasType(TypeName(k)));
    assert v != [] ==> v[0] in v;
    |v|
  }

  /** `filteredNotes`: everything under `all`, otherwise exactly the notes
      whose stored type is the filter's wire name, in list order. */
  function Visible(notes: seq<Note>, f: Filter): (r: seq<Note>)
    ensures Seqs.IsSubseq(r, notes)
    ensures f == All ==> r == notes
    ensures f.Only? ==> forall n :: n in r <==> n in notes && n.noteType == TypeName(f.kind)
    ensures f.Only? ==> |r| == CountOf(notes, f.kind)
  {
    match f
    case All =>
      Seqs.SubseqReflexive(notes);
      notes
    case Only(k) => Seqs.Filter(notes, HasType(TypeName(k)))
  }

  /** The Important, Daily and General stats added up. */
  function TypeTotal(notes: seq<Note>): nat {
    CountOf(notes, Important) + CountOf(notes, Daily) + CountOf(notes, General)
  }

  /** Every stored type is one of the three client values. */
  predicate AllKnownTypes(notes: seq<Note>) {
    forall i :: 0 <= i < |notes| ==> IsKnownType(notes[i].noteType)
  }

  /** Prepending a note of a client type keeps every type known. */
  lemma PrependKeepsKnown(n: Note, notes: seq<Note>)
    requires IsKnownType(n.noteType) && AllKnownTypes(notes)
    ensures AllKnownTypes([n] + notes)
  {
    forall i | 0 <= i < |[n] + notes|
      ensures IsKnownType(([n] + notes)[i].noteType)
    {
      if i > 0 {
        assert ([n] + notes)[i] == notes[i - 1];
      }
    }
  }

  /** A list has only client types exactly when its head and its tail do. */
  lemma KnownStep(notes: seq<Note>)
    requires notes != []
    ensures AllKnownTypes(notes) <==> IsKnownType(notes[0].noteType) && AllKnownTypes(notes[1..])
  {
    assert forall i :: 0 <= i < |notes[1..]| ==> notes[1..][i] == notes[i + 1];
  }

  /** One step of a per-type count: the head counts for its own type only. */
  lemma CountStep(notes: seq<Note>, k: NoteType)
    requires notes != []
    ensures CountOf(notes, k) == (if notes[0].noteType == TypeName(k) then 1 else 0) + CountOf(notes[1..], k)
  {
  }

  /** The three per-type stats never exceed the Total stat, and add up to it
      exactly when every stored type is one of the three client values. The
      server does not enforce that, so the equality needs it as a hypothesis. */
  lemma {:induction false} TypeCountsCover(notes: seq<Note>)
    ensures TypeTotal(notes) <= |notes|
    ensures TypeTotal(notes) == |notes| <==> AllKnownTypes(notes)
  {
    if notes != [] {
      var rest := notes[1..];
      TypeCountsCover(rest);
      CountStep(notes, Important);
      CountStep(notes, Daily);
      CountStep(notes, General);
      assert TypeTotal(notes) == (if IsKnownType(notes[0].noteType) then 1 else 0) + TypeTotal(rest);
      KnownStep(notes);
    }
  }

  /** A successful delete after a successful add of a note with a fresh id
      restores the list the page had before the add. */
  lemma DeleteUndoesAdd(p: Page, note: Note)
    requires note.id !in Reconcile.Keys(p.notes, NoteId)
    ensures HandleDelete(HandleAdd(p, Ok(note)), note.id, Ok(())) == p
  {
    Reconcile.RemoveUndoesPrepend(p.notes, NoteId, note);
  }
}
