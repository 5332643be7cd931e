/** The notes screen: a list of free-text notes with an input line and an "Add" button. */
module Notes {
  import opened Wrappers
  import opened Text
  import opened Tasks
  import opened Storage

  datatype Note = Note(id: Time, text: string)

  const NotesKey: string := "notes"

  /** `addNote`'s new list: unchanged for blank text, otherwise one note with the text as typed. */
  function AddedNotes(notes: seq<Note>, text: string, now: Time): (r: seq<Note>)
    ensures IsBlank(text) ==> r == notes
    ensures !IsBlank(text) ==>
      |r| == |notes| + 1 && r[..|notes|] == notes && r[|notes|].id == now && r[|notes|].text == text
  {
    if Trim(text) == [] then notes else notes + [Note(now, text)]
  }

  predicate AllNonBlank(notes: seq<Note>) {
    forall i :: 0 <= i < |notes| ==> !IsBlank(notes[i].text)
  }

  /** Only non-blank notes are ever added. */
  lemma AddedNotesNonBlank(notes: seq<Note>, text: string, now: Time)
    requires AllNonBlank(notes)
    ensures AllNonBlank(AddedNotes(notes, text, now))
  {
    var r := AddedNotes(notes, text, now);
    if !IsBlank(text) {
      assert forall i :: 0 <= i < |notes| ==> r[i] == r[..|notes|][i];
    }
  }

  /** The note keeps its surrounding spaces: " hi " is stored as typed, not as "hi". */
  lemma NoteTextNotTrimmed(now: Time)
    ensures AddedNotes([], " hi ", now) == [Note(now, " hi ")]
    ensures Trim(" hi ") != " hi "
  {
    assert !IsWhitespace(" hi "[1]);
  }

  class NotesScreen {
    var notes: seq<Note>
    var text: string
    const storage: KeyValueStore<Note>

    /** The stored list, when there is one, is the list on screen; with none the screen is empty. */
    ghost predicate Valid()
      reads this, storage
    {
      (NotesKey in storage.items ==> storage.items[NotesKey] == notes)
      && (NotesKey !in storage.items ==> notes == [])
    }

    /** Mounting: load the stored list if there is one. */
    constructor (storage: KeyValueStore<Note>)
      ensures this.storage == storage && Valid()
      ensures notes == storage.GetItem(NotesKey).GetOr([]) && text == ""
    {
      this.storage := storage;
      notes := storage.GetItem(NotesKey).GetOr([]);
      text := "";
    }

    /** The input's `onChange` handler. */
    method SetText(newText: string)
      modifies this`text
      ensures text == newText
    {
      text := newText;
    }

    /** `addNote`: blank input changes nothing; otherwise append, persist and clear the input. */
    method AddNote(now: Time)
      requires Valid()
      modifies this`notes, this`text, storage
      ensures Valid()
      ensures IsBlank(old(text)) ==>
        notes == old(notes) && text == old(text) && storage.items == old(storage.items)
      ensures !IsBlank(old(text)) ==>
        notes == AddedNotes(old(notes), old(text), now) && text == ""
        && storage.items == old(storage.items)[NotesKey := notes]
    {
      if Trim(text) == [] {
        return;
      }
      var newNotes := AddedNotes(notes, text, now);
      notes := newNotes;
      storage.SetItem(NotesKey, newNotes);
      text := "";
    }
  }
}
