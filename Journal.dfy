/** The journal page: a list of notes with an undo stack and a redo stack of
    earlier lists, a draft for the next note, and the list shown to the user
    (pinned notes first, narrowed by a case-insensitive search). Every edit
    that goes through `PushUndo` can be undone. */
module Journal {
  import opened Seqs
  import opened Text
  import opened Options

  /** A file attached to a note; `mimeType` is the browser's `File.type`. */
  datatype Attachment = Attachment(id: string, name: string, url: string, mimeType: string)

  /** One earlier version of a note, recorded when an edit is saved. */
  datatype NoteHistory = NoteHistory(title: string, content: string, date: string)

  /** A note. The optional `attachments` and `history` of the page are
      sequences here: the page treats a missing list exactly as an empty one. */
  datatype Note = Note(
    id: int,
    title: string,
    content: string,
    color: string,
    favorite: bool,
    pinned: bool,
    date: string,
    attachments: seq<Attachment>,
    history: seq<NoteHistory>)

  /** The "New Note" form. */
  datatype Draft = Draft(title: string, content: string, color: string, attachments: seq<Attachment>)

  /** A file picked in the file input, before it becomes an attachment. */
  datatype File = File(name: string, mimeType: string)

  /** The first entry of the colour palette, the colour of a fresh draft. */
  const DefaultColor: string := "bg-yellow-100"

  const EmptyDraft: Draft := Draft("", "", DefaultColor, [])

  // ---------------------------------------------------------------------
  // Pure note transforms (the `map` / `filter` inside the handlers)
  // ---------------------------------------------------------------------

  /** `notes.map(n => n.id === id ? f(n) : n)`. */
  function UpdateWhere(notes: seq<Note>, id: int, f: Note -> Note): (r: seq<Note>)
    ensures |r| == |notes|
    ensures forall k :: 0 <= k < |notes| && notes[k].id == id ==> r[k] == f(notes[k])
    ensures forall k :: 0 <= k < |notes| && notes[k].id != id ==> r[k] == notes[k]
  {
    if notes == [] then []
    else [if notes[0].id == id then f(notes[0]) else notes[0]] + UpdateWhere(notes[1..], id, f)
  }

  function FlipPinned(n: Note): Note { n.(pinned := !n.pinned) }

  function FlipFavorite(n: Note): Note { n.(favorite := !n.favorite) }

  /** The list after `handlePin(id)`: the pin flag of the notes with that id
      is toggled; order, length, every other note and every other field stay. */
  function TogglePin(notes: seq<Note>, id: int): (r: seq<Note>)
    ensures |r| == |notes|
    ensures forall k :: 0 <= k < |notes| ==> r[k].pinned == (notes[k].pinned != (notes[k].id == id))
    ensures forall k :: 0 <= k < |notes| ==> r[k].(pinned := notes[k].pinned) == notes[k]
  {
    UpdateWhere(notes, id, FlipPinned)
  }

  /** The list after `handleFavorite(id)`: as `TogglePin`, for the favourite flag. */
  function ToggleFavorite(notes: seq<Note>, id: int): (r: seq<Note>)
    ensures |r| == |notes|
    ensures forall k :: 0 <= k < |notes| ==> r[k].favorite == (notes[k].favorite != (notes[k].id == id))
    ensures forall k :: 0 <= k < |notes| ==> r[k].(favorite := notes[k].favorite) == notes[k]
  {
    UpdateWhere(notes, id, FlipFavorite)
  }

  /** Toggling the same flag twice restores the list. */
  lemma TogglePinTwice(notes: seq<Note>, id: int)
    ensures TogglePin(TogglePin(notes, id), id) == notes
  {
    var once := TogglePin(notes, id);
    var twice := TogglePin(once, id);
    forall k | 0 <= k < |notes|
      ensures twice[k] == notes[k]
    {
      assert once[k].id == notes[k].id;
    }
  }

  lemma ToggleFavoriteTwice(notes: seq<Note>, id: int)
    ensures ToggleFavorite(ToggleFavorite(notes, id), id) == notes
  {
    var once := ToggleFavorite(notes, id);
    var twice := ToggleFavorite(once, id);
    forall k | 0 <= k < |notes|
      ensures twice[k] == notes[k]
    {
      assert once[k].id == notes[k].id;
    }
  }

  function HasOtherId(id: int): Note -> bool
  {
    (n: Note) => n.id != id
  }

  /** The list after `handleDelete(id)`: exactly the notes with another id,
      each as often as before; `DeleteConcat` gives their order. */
  function DeleteNote(notes: seq<Note>, id: int): (r: seq<Note>)
    ensures forall n :: n in r <==> n in notes && n.id != id
    ensures forall n: Note :: n.id != id ==> multiset(r)[n] == multiset(notes)[n]
    ensures forall k :: 0 <= k < |r| ==> r[k].id != id
  {
    Filter(notes, HasOtherId(id))
  }

  /** Deleting from a concatenation deletes from each part, so the kept notes
      keep their relative order. */
  lemma DeleteConcat(a: seq<Note>, b: seq<Note>, id: int)
    ensures DeleteNote(a + b, id) == DeleteNote(a, id) + DeleteNote(b, id)
  {
    FilterConcat(a, b, HasOtherId(id));
  }

  /** Deleting an id that no note carries changes nothing. */
  lemma DeleteAbsent(notes: seq<Note>, id: int)
    requires forall k :: 0 <= k < |notes| ==> notes[k].id != id
    ensures DeleteNote(notes, id) == notes
  {
    FilterAll(notes, HasOtherId(id));
  }

  /** The note as `handleSave` leaves it: the new title and content, and its
      previous title, content and date appended to its history. */
  function Saved(n: Note, title: string, content: string): (r: Note)
    ensures r.title == title && r.content == content
    ensures r.history == n.history + [NoteHistory(n.title, n.content, n.date)]
    ensures r.(title := n.title, content := n.content, history := n.history) == n
  {
    n.(title := title, content := content,
       history := n.history + [NoteHistory(n.title, n.content, n.date)])
  }

  function SaveWith(title: string, content: string): Note -> Note
  {
    (n: Note) => Saved(n, title, content)
  }

  /** The list after `handleSave(id, title, content)`: only the notes with
      that id change, and they change as `Saved` says. */
  function SaveNote(notes: seq<Note>, id: int, title: string, content: string): (r: seq<Note>)
    ensures |r| == |notes|
    ensures forall k :: 0 <= k < |notes| && notes[k].id != id ==> r[k] == notes[k]
    ensures forall k :: 0 <= k < |notes| && notes[k].id == id ==>
      r[k].id == id && r[k].title == title && r[k].content == content
      && r[k].history == notes[k].history + [NoteHistory(notes[k].title, notes[k].content, notes[k].date)]
      && r[k].(title := notes[k].title, content := notes[k].content, history := notes[k].history) == notes[k]
  {
    UpdateWhere(notes, id, SaveWith(title, content))
  }

  function SetTitle(title: string): Note -> Note
  {
    (n: Note) => n.(title := title)
  }

  function SetContent(content: string): Note -> Note
  {
    (n: Note) => n.(content := content)
  }

  /** The list after typing into the title field of the note being edited
      (no undo entry, no history entry). */
  function RetitleNote(notes: seq<Note>, id: int, title: string): (r: seq<Note>)
    ensures |r| == |notes|
    ensures forall k :: 0 <= k < |notes| ==>
      r[k] == if notes[k].id == id then notes[k].(title := title) else notes[k]
  {
    UpdateWhere(notes, id, SetTitle(title))
  }

  /** The list after typing into the content field of the note being edited. */
  function RewriteNote(notes: seq<Note>, id: int, content: string): (r: seq<Note>)
    ensures |r| == |notes|
    ensures forall k :: 0 <= k < |notes| ==>
      r[k] == if notes[k].id == id then notes[k].(content := content) else notes[k]
  {
    UpdateWhere(notes, id, SetContent(content))
  }

  /** The page's save button passes the note's current title and content,
      which the in-place edits have already overwritten; so when a note was
      edited in place and then saved, its newest history entry holds the
      edited text, not the text from before the edit. */
  lemma SaveAfterInPlaceEdit(notes: seq<Note>, id: int, title: string, content: string, k: nat)
    requires k < |notes| && notes[k].id == id
    ensures var edited := RewriteNote(RetitleNote(notes, id, title), id, content);
            var saved := SaveNote(edited, id, title, content);
            |saved| == |notes|
            && saved[k].title == title && saved[k].content == content
            && saved[k].history == notes[k].history + [NoteHistory(title, content, notes[k].date)]
  {
    var retitled := RetitleNote(notes, id, title);
    assert retitled[k] == notes[k].(title := title);
    var edited := RewriteNote(retitled, id, content);
    assert edited[k] == notes[k].(title := title, content := content);
  }

  // ---------------------------------------------------------------------
  // The displayed list
  // ---------------------------------------------------------------------

  predicate IsPinned(n: Note) { n.pinned }

  predicate IsUnpinned(n: Note) { !n.pinned }

  /** Some attachment of `n` has a name that includes `query` (both lowered). */
  predicate AttachmentHit(n: Note, query: string)
  {
    exists k | 0 <= k < |n.attachments| :: Contains(Lower(n.attachments[k].name), Lower(query))
  }

  /** The note passes the search box. */
  predicate MatchesSearch(n: Note, query: string)
  {
    Contains(Lower(n.title), Lower(query))
    || Contains(Lower(n.content), Lower(query))
    || AttachmentHit(n, query)
  }

  function SearchHit(query: string): Note -> bool
  {
    (n: Note) => MatchesSearch(n, query)
  }

  /** The notes the grid shows: pinned ones, then the others, then narrowed
      by the search. */
  function Visible(notes: seq<Note>, query: string): (v: seq<Note>)
    ensures |v| <= |notes|
    ensures forall n :: n in v <==> n in notes && MatchesSearch(n, query)
  {
    var pinned := Filter(notes, IsPinned);
    var unpinned := Filter(notes, IsUnpinned);
    FilterPartition(notes, IsPinned, IsUnpinned);
    assert |pinned + unpinned| == |multiset(pinned) + multiset(unpinned)|;
    Filter(pinned + unpinned, SearchHit(query))
  }

  /** The displayed list is the shown pinned notes followed by the shown
      unpinned ones. */
  lemma VisibleSplits(notes: seq<Note>, query: string)
    ensures Visible(notes, query)
      == Filter(Filter(notes, IsPinned), SearchHit(query)) + Filter(Filter(notes, IsUnpinned), SearchHit(query))
  {
    FilterConcat(Filter(notes, IsPinned), Filter(notes, IsUnpinned), SearchHit(query));
  }

  /** Every shown pinned note comes before every shown unpinned note. */
  lemma PinnedFirst(notes: seq<Note>, query: string)
    ensures forall i, j :: 0 <= i < j < |Visible(notes, query)| && Visible(notes, query)[j].pinned
                           ==> Visible(notes, query)[i].pinned
  {
    var a := Filter(Filter(notes, IsPinned), SearchHit(query));
    var b := Filter(Filter(notes, IsUnpinned), SearchHit(query));
    VisibleSplits(notes, query);
    FilterKeeps(notes, IsPinned, SearchHit(query));
    FilterKeeps(notes, IsUnpinned, SearchHit(query));
    ConcatGrouped(a, b, IsPinned);
  }

  /** The shown pinned notes are the pinned notes in their list order,
      narrowed by the search. */
  lemma PinnedGroupKeepsOrder(notes: seq<Note>, query: string)
    ensures Filter(Visible(notes, query), IsPinned) == Filter(Filter(notes, IsPinned), SearchHit(query))
  {
    var a := Filter(Filter(notes, IsPinned), SearchHit(query));
    var b := Filter(Filter(notes, IsUnpinned), SearchHit(query));
    VisibleSplits(notes, query);
    FilterConcat(a, b, IsPinned);
    FilterKeeps(notes, IsPinned, SearchHit(query));
    FilterAll(a, IsPinned);
    FilterKeeps(notes, IsUnpinned, SearchHit(query));
    FilterNone(b, IsPinned);
  }

  /** The shown unpinned notes are the unpinned notes in their list order,
      narrowed by the search. */
  lemma UnpinnedGroupKeepsOrder(notes: seq<Note>, query: string)
    ensures Filter(Visible(notes, query), IsUnpinned) == Filter(Filter(notes, IsUnpinned), SearchHit(query))
  {
    var a := Filter(Filter(notes, IsPinned), SearchHit(query));
    var b := Filter(Filter(notes, IsUnpinned), SearchHit(query));
    VisibleSplits(notes, query);
    FilterConcat(a, b, IsUnpinned);
    FilterKeeps(notes, IsPinned, SearchHit(query));
    FilterNone(a, IsUnpinned);
    FilterKeeps(notes, IsUnpinned, SearchHit(query));
    FilterAll(b, IsUnpinned);
  }

  /** Grouping before searching, as the page does, shows in each group the
      same notes in the same order as searching first and grouping after. */
  lemma PinnedShownAreHits(notes: seq<Note>, query: string)
    ensures Filter(Visible(notes, query), IsPinned) == Filter(Filter(notes, SearchHit(query)), IsPinned)
  {
    PinnedGroupKeepsOrder(notes, query);
    FilterCommutes(notes, IsPinned, SearchHit(query));
  }

  lemma UnpinnedShownAreHits(notes: seq<Note>, query: string)
    ensures Filter(Visible(notes, query), IsUnpinned) == Filter(Filter(notes, SearchHit(query)), IsUnpinned)
  {
    UnpinnedGroupKeepsOrder(notes, query);
    FilterCommutes(notes, IsUnpinned, SearchHit(query));
  }

  /** Every note passes the empty search. */
  lemma EmptySearchMatches(n: Note)
    ensures MatchesSearch(n, "")
  {
    assert Lower("") == "";
    ContainsEmpty(Lower(n.title));
  }

  /** With an empty search box every note is shown, each exactly once. */
  lemma EmptySearchShowsAll(notes: seq<Note>)
    ensures Visible(notes, "") == Filter(notes, IsPinned) + Filter(notes, IsUnpinned)
    ensures multiset(Visible(notes, "")) == multiset(notes)
    ensures |Visible(notes, "")| == |notes|
  {
    var grouped := Filter(notes, IsPinned) + Filter(notes, IsUnpinned);
    forall k | 0 <= k < |grouped|
      ensures SearchHit("")(grouped[k])
    {
      EmptySearchMatches(grouped[k]);
    }
    FilterAll(grouped, SearchHit(""));
    FilterPartition(notes, IsPinned, IsUnpinned);
    assert |multiset(grouped)| == |multiset(notes)|;
  }

  // ---------------------------------------------------------------------
  // Attachments picked for the draft
  // ---------------------------------------------------------------------

  /** The attachment made from the `i`-th picked file; its id is the template
      `${name}-${Date.now()}-${i}`. */
  function MakeAttachment(file: File, stamp: nat, url: string, i: nat): Attachment
  {
    Attachment(file.name + "-" + DecimalString(stamp) + "-" + DecimalString(i), file.name, url, file.mimeType)
  }

  /** The loop of `handleAttachmentChange`: one attachment per picked file, in
      order; `urls[i]` and `stamps[i]` are what `URL.createObjectURL` and
      `Date.now()` returned in round `i`. */
  method CollectAttachments(files: seq<File>, urls: seq<string>, stamps: seq<nat>)
    returns (attachments: seq<Attachment>)
    requires |urls| == |files| && |stamps| == |files|
    ensures |attachments| == |files|
    ensures forall i :: 0 <= i < |files| ==>
      attachments[i] == MakeAttachment(files[i], stamps[i], urls[i], i)
  {
    attachments := [];
    for i := 0 to |files|
      invariant |attachments| == i
      invariant forall k :: 0 <= k < i ==> attachments[k] == MakeAttachment(files[k], stamps[k], urls[k], k)
    {
      var file := files[i];
      var url := urls[i];
      attachments := attachments + [Attachment(file.name + "-" + DecimalString(stamps[i]) + "-" + DecimalString(i),
                                               file.name, url, file.mimeType)];
    }
  }

  // ---------------------------------------------------------------------
  // The page state
  // ---------------------------------------------------------------------

  class JournalPage {
    var notes: seq<Note>
    var undoStack: seq<seq<Note>>
    var redoStack: seq<seq<Note>>
    var draft: Draft
    var editingId: Option<int>

    constructor ()
      ensures notes == [] && undoStack == [] && redoStack == []
      ensures draft == EmptyDraft && editingId == None
    {
      notes := [];
      undoStack := [];
      redoStack := [];
      draft := EmptyDraft;
      editingId := None;
    }

    /** Record the current list on the undo stack, forget the redo stack and
        show `newNotes`. */
    method PushUndo(newNotes: seq<Note>)
      modifies this
      ensures notes == newNotes
      ensures undoStack == old(undoStack) + [old(notes)]
      ensures redoStack == []
      ensures draft == old(draft) && editingId == old(editingId)
    {
      undoStack := undoStack + [notes];
      redoStack := [];
      notes := newNotes;
    }

    /** Go back to the most recent snapshot; nothing happens when there is none. */
    method Undo()
      modifies this
      ensures old(undoStack) == [] ==>
        notes == old(notes) && undoStack == [] && redoStack == old(redoStack)
      ensures old(undoStack) != [] ==>
        notes == old(undoStack)[|old(undoStack)| - 1]
        && undoStack == old(undoStack)[..|old(undoStack)| - 1]
        && redoStack == old(redoStack) + [old(notes)]
      ensures |undoStack| + |redoStack| == old(|undoStack| + |redoStack|)
      ensures draft == old(draft) && editingId == old(editingId)
    {
      if |undoStack| == 0 {
        return;
      }
      redoStack := redoStack + [notes];
      notes := undoStack[|undoStack| - 1];
      undoStack := undoStack[..|undoStack| - 1];
    }

    /** Return to the most recently undone list; nothing happens when there is none. */
    method Redo()
      modifies this
      ensures old(redoStack) == [] ==>
        notes == old(notes) && redoStack == [] && undoStack == old(undoStack)
      ensures old(redoStack) != [] ==>
        notes == old(redoStack)[|old(redoStack)| - 1]
        && redoStack == old(redoStack)[..|old(redoStack)| - 1]
        && undoStack == old(undoStack) + [old(notes)]
      ensures |undoStack| + |redoStack| == old(|undoStack| + |redoStack|)
      ensures draft == old(draft) && editingId == old(editingId)
    {
      if |redoStack| == 0 {
        return;
      }
      undoStack := undoStack + [notes];
      notes := redoStack[|redoStack| - 1];
      redoStack := redoStack[..|redoStack| - 1];
    }

    /** Turn the draft into a note at the head of the list and clear the
        draft; an entirely empty draft is ignored. `now` and `today` are what
        `Date.now()` and `toLocaleDateString()` return. */
    method AddNote(now: int, today: string)
      modifies this
      ensures old(draft.title == "" && draft.content == "" && draft.attachments == []) ==>
        notes == old(notes) && undoStack == old(undoStack) && redoStack == old(redoStack)
        && draft == old(draft) && editingId == old(editingId)
      ensures !old(draft.title == "" && draft.content == "" && draft.attachments == []) ==>
        notes == [Note(now, old(draft.title), old(draft.content), old(draft.color), false, false,
                       today, old(draft.attachments), [])] + old(notes)
        && undoStack == old(undoStack) + [old(notes)] && redoStack == []
        && draft == EmptyDraft && editingId == old(editingId)
    {
      if draft.title == "" && draft.content == "" && |draft.attachments| == 0 {
        return;
      }
      var note := Note(now, draft.title, draft.content, draft.color, false, false, today, draft.attachments, []);
      PushUndo([note] + notes);
      draft := EmptyDraft;
    }

    method Pin(id: int)
      modifies this
      ensures notes == TogglePin(old(notes), id)
      ensures undoStack == old(undoStack) + [old(notes)] && redoStack == []
      ensures draft == old(draft) && editingId == old(editingId)
    {
      PushUndo(TogglePin(notes, id));
    }

    method Favorite(id: int)
      modifies this
      ensures notes == ToggleFavorite(old(notes), id)
      ensures undoStack == old(undoStack) + [old(notes)] && redoStack == []
      ensures draft == old(draft) && editingId == old(editingId)
    {
      PushUndo(ToggleFavorite(notes, id));
    }

    method Delete(id: int)
      modifies this
      ensures notes == DeleteNote(old(notes), id)
      ensures undoStack == old(undoStack) + [old(notes)] && redoStack == []
      ensures draft == old(draft) && editingId == old(editingId)
    {
      PushUndo(DeleteNote(notes, id));
    }

    /** Start editing the note with this id. */
    method Edit(id: int)
      modifies this
      ensures editingId == Some(id)
      ensures notes == old(notes) && undoStack == old(undoStack) && redoStack == old(redoStack)
      ensures draft == old(draft)
    {
      editingId := Some(id);
    }

    /** "Cancel editing": leave editing mode; edits typed in place stay. */
    method CancelEdit()
      modifies this
      ensures editingId == None
      ensures notes == old(notes) && undoStack == old(undoStack) && redoStack == old(redoStack)
      ensures draft == old(draft)
    {
      editingId := None;
    }

    /** Save an edit: record it for undo, extend the note's history, leave
        editing mode. */
    method Save(id: int, title: string, content: string)
      modifies this
      ensures notes == SaveNote(old(notes), id, title, content)
      ensures undoStack == old(undoStack) + [old(notes)] && redoStack == []
      ensures editingId == None && draft == old(draft)
    {
      PushUndo(SaveNote(notes, id, title, content));
      editingId := None;
    }

    /** Typing into the title field while editing: the list is replaced
        without an undo entry. */
    method EditTitleInPlace(id: int, title: string)
      modifies this
      ensures notes == RetitleNote(old(notes), id, title)
      ensures undoStack == old(undoStack) && redoStack == old(redoStack)
      ensures draft == old(draft) && editingId == old(editingId)
    {
      notes := RetitleNote(notes, id, title);
    }

    /** Typing into the content field while editing. */
    method EditContentInPlace(id: int, content: string)
      modifies this
      ensures notes == RewriteNote(old(notes), id, content)
      ensures undoStack == old(undoStack) && redoStack == old(redoStack)
      ensures draft == old(draft) && editingId == old(editingId)
    {
      notes := RewriteNote(notes, id, content);
    }

    /** The title input of the "New Note" dialog. */
    method SetDraftTitle(title: string)
      modifies this
      ensures draft == old(draft).(title := title)
      ensures notes == old(notes) && undoStack == old(undoStack) && redoStack == old(redoStack)
      ensures editingId == old(editingId)
    {
      draft := draft.(title := title);
    }

    /** The content text area of the "New Note" dialog. */
    method SetDraftContent(content: string)
      modifies this
      ensures draft == old(draft).(content := content)
      ensures notes == old(notes) && undoStack == old(undoStack) && redoStack == old(redoStack)
      ensures editingId == old(editingId)
    {
      draft := draft.(content := content);
    }

    /** The colour selector of the "New Note" dialog. */
    method SetDraftColor(color: string)
      modifies this
      ensures draft == old(draft).(color := color)
      ensures notes == old(notes) && undoStack == old(undoStack) && redoStack == old(redoStack)
      ensures editingId == old(editingId)
    {
      draft := draft.(color := color);
    }

    /** Append the picked files to the draft's attachments; `None` stands for
        an input with no file list. */
    method AttachmentChange(files: Option<seq<File>>, urls: seq<string>, stamps: seq<nat>)
      requires files.Some? ==> |urls| == |files.value| && |stamps| == |files.value|
      modifies this
      ensures files.None? ==> draft == old(draft)
      ensures files.Some? ==>
        draft.(attachments := old(draft.attachments)) == old(draft)
        && |draft.attachments| == |old(draft.attachments)| + |files.value|
        && draft.attachments[..|old(draft.attachments)|] == old(draft.attachments)
        && forall i :: 0 <= i < |files.value| ==>
             draft.attachments[|old(draft.attachments)| + i]
               == MakeAttachment(files.value[i], stamps[i], urls[i], i)
      ensures notes == old(notes) && undoStack == old(undoStack) && redoStack == old(redoStack)
      ensures editingId == old(editingId)
    {
      if files.None? {
        return;
      }
      var picked := CollectAttachments(files.value, urls, stamps);
      draft := draft.(attachments := draft.attachments + picked);
    }

    /** Drop the draft attachment at position `idx`. */
    method RemoveAttachment(idx: nat)
      modifies this
      ensures draft == old(draft).(attachments := RemoveAt(old(draft.attachments), idx))
      ensures notes == old(notes) && undoStack == old(undoStack) && redoStack == old(redoStack)
      ensures editingId == old(editingId)
    {
      draft := draft.(attachments := RemoveAt(draft.attachments, idx));
    }
  }

  /** An edit followed by an undo restores the list and the undo stack, and
      leaves just the edited list on the redo stack. */
  method PushThenUndo(page: JournalPage, newNotes: seq<Note>)
    modifies page
    ensures page.notes == old(page.notes)
    ensures page.undoStack == old(page.undoStack)
    ensures page.redoStack == [newNotes]
    ensures page.draft == old(page.draft) && page.editingId == old(page.editingId)
  {
    page.PushUndo(newNotes);
    page.Undo();
  }

  /** An edit, an undo and a redo amount to the edit alone. */
  method PushUndoRedo(page: JournalPage, newNotes: seq<Note>)
    modifies page
    ensures page.notes == newNotes
    ensures page.undoStack == old(page.undoStack) + [old(page.notes)]
    ensures page.redoStack == []
    ensures page.draft == old(page.draft) && page.editingId == old(page.editingId)
  {
    page.PushUndo(newNotes);
    page.Undo();
    page.Redo();
  }
}
