/**
 * The note list kept by the app's table screen (`NotesTableViewController`):
 * the ordered rows, the row whose deletion awaits confirmation, the archive
 * file the rows are saved to, and the navigation-bar title and editing mode
 * that the list operations set. Table-view animation, cell rendering, segue
 * routing and alert presentation are UIKit side effects and are not modelled;
 * what UIKit reports to the screen (the selected row, whether the editor was
 * opened from the add button, the alert button tapped, whether the archive
 * write succeeded) arrives as parameters.
 */
module NotesScreen {
  import opened Wrappers
  import opened NoteList
  import opened NavigationTitle

  /** What `CurrentDateAndTimeHelper.get()` returns; its representation is not part of this model. */
  type Timestamp(==)

  /** One stored note (the app's `Notes` record): its text and its two timestamps. */
  datatype Note = Note(entry: string, dateOfCreation: Timestamp, dateModificationTimeStamp: string)

  /** The two buttons of the delete confirmation alert. */
  datatype Delete = Yes | No

  /** The title of each alert button (`Delete.operation`). */
  function Operation(d: Delete): string
  {
    match d
    case Yes => "Delete"
    case No => "Don't Delete"
  }

  /**
   * Which button a tapped title stands for, checked in the order the alert
   * delegate compares it: first the "Delete" title, then the "Don't Delete" one.
   */
  function ParseOperation(buttonTitle: string): (d: Option<Delete>)
    ensures d.Some? ==> Operation(d.value) == buttonTitle
    ensures d.None? ==> Operation(Yes) != buttonTitle && Operation(No) != buttonTitle
  {
    if buttonTitle == Operation(Yes) then Some(Yes)
    else if buttonTitle == Operation(No) then Some(No)
    else None
  }

  /** The two titles differ, so dispatching on the tapped title recovers the button. */
  lemma OperationRoundTrip(d: Delete)
    ensures ParseOperation(Operation(d)) == Some(d)
    ensures Operation(Yes) != Operation(No)
  {
  }

  const FirstSampleEntry: string :=
    "Hello Sunshine! Come & tap me first!\n\U{1F447}\U{1F447}\U{1F447}\n\nYou can power up your note by writing your words like **this** or _this_, create an [url link](http://apple.com), or even make a todo list:\n\n* Watch WWDC videos.\n* Write `code`.\n* Fetch my girlfriend for a ride.\n* Refactor `code`.\n\nOr even create quote:\n\n> A block of quote.\n\nTap *Go!* to preview your enhanced note.\n\nTap *How?* to learn more."
  const SecondSampleEntry: string := "Swipe me left or tap edit to delete."
  const ThirdSampleEntry: string := "Tap edit to move me or delete me."
  const SampleEntries: seq<string> := [FirstSampleEntry, SecondSampleEntry, ThirdSampleEntry]

  /**
   * `made` is what the failable `Notes(entry:dateOfCreation:)` initializer
   * returned for `text`: nothing, or a note carrying exactly that text.
   */
  predicate Constructed(made: Option<Note>, text: string) {
    made.Some? ==> made.value.entry == text
  }

  /**
   * The sample notes appended on first launch, given what the initializer made
   * of the three sample texts: all three in order, or none at all when any of
   * them could not be made.
   */
  function SampleNotes(first: Option<Note>, second: Option<Note>, third: Option<Note>): (r: seq<Note>)
    requires Constructed(first, FirstSampleEntry)
    requires Constructed(second, SecondSampleEntry)
    requires Constructed(third, ThirdSampleEntry)
    ensures |r| == 3 <==> first.Some? && second.Some? && third.Some?
    ensures |r| == 0 || |r| == 3
    ensures |r| == 3 ==> r == [first.value, second.value, third.value]
    ensures forall k :: 0 <= k < |r| ==> r[k].entry == SampleEntries[k]
  {
    if first.Some? && second.Some? && third.Some? then [first.value, second.value, third.value] else []
  }

  /**
   * Whether a note returned from the editor for the selected row replaces it:
   * a row is selected and its text differs from the returned text.
   */
  predicate ReplacesSelection(notes: seq<Note>, edited: Note, selectedRow: Option<nat>)
    requires selectedRow.Some? ==> selectedRow.value < |notes|
  {
    selectedRow.Some? && notes[selectedRow.value].entry != edited.entry
  }

  class NotesTableViewController {
    /** The rows of the table, top to bottom. */
    var notes: seq<Note>
    /** The row whose delete action was tapped last (its section is always 0). */
    var pendingDelete: Option<nat>
    /** What reading the archive file yields: `None` when there is no file or it does not decode as a list of notes. */
    var archive: Option<seq<Note>>
    /** The navigation-bar title. */
    var title: string
    /** Whether the table is in editing mode. */
    var editing: bool

    /** A screen created over the archive file found on the device; nothing is loaded yet. */
    constructor (stored: Option<seq<Note>>)
      ensures notes == [] && pendingDelete == None && archive == stored
      ensures title == "" && !editing
    {
      notes := [];
      pendingDelete := None;
      archive := stored;
      title := "";
      editing := false;
    }

    /**
     * Overwrites the archive with the whole current list. `writeOk` is the
     * archiver's success flag; a failed write only logs, and the archive keeps
     * its previous content.
     */
    method SaveNotes(writeOk: bool)
      modifies this`archive
      ensures archive == if writeOk then Some(notes) else old(archive)
    {
      if writeOk {
        archive := Some(notes);
      }
    }

    /**
     * Back from the note editor carrying `returned` (`None` when the editor
     * produced no note). Opened from the add button, the note goes on top.
     * Opened from a row, the note replaces that row and moves to the top when
     * its text changed; with the same text, or no row selected, nothing
     * happens and nothing is saved.
     */
    method UnwindToNotesTableViewController(returned: Option<Note>, fromAddButton: bool,
                                            selectedRow: Option<nat>, writeOk: bool)
      requires returned.Some? && !fromAddButton && selectedRow.Some? ==> selectedRow.value < |notes|
      modifies this`notes, this`archive
      ensures returned.None? ==> notes == old(notes) && archive == old(archive)
      ensures returned.Some? && fromAddButton ==>
        && notes == [returned.value] + old(notes)
        && NumberOfRowsInSection(0) == old(NumberOfRowsInSection(0)) + 1
        && archive == (if writeOk then Some(notes) else old(archive))
      ensures returned.Some? && !fromAddButton && !ReplacesSelection(old(notes), returned.value, selectedRow) ==>
        notes == old(notes) && archive == old(archive)
      ensures returned.Some? && !fromAddButton && ReplacesSelection(old(notes), returned.value, selectedRow) ==>
        && notes == [returned.value] + RemoveAt(old(notes), selectedRow.value)
        && |notes| == |old(notes)|
        && NumberOfRowsInSection(0) == old(NumberOfRowsInSection(0))
        && multiset(notes) + multiset{old(notes)[selectedRow.value]} == multiset(old(notes)) + multiset{returned.value}
        && archive == (if writeOk then Some(notes) else old(archive))
    {
      if returned.None? {
        return;
      }
      var note := returned.value;
      if fromAddButton {
        notes := InsertAt(notes, note, 0);
      } else {
        if selectedRow.None? || notes[selectedRow.value].entry == note.entry {
          return;
        }
        notes := RemoveAt(notes, selectedRow.value);
        notes := InsertAt(notes, note, 0);
      }
      SaveNotes(writeOk);
    }

    /**
     * Appends the three sample notes, given what the initializer made of the
     * three sample texts; when any of them could not be made, nothing is added.
     */
    method LoadSampleNotes(first: Option<Note>, second: Option<Note>, third: Option<Note>)
      requires Constructed(first, FirstSampleEntry)
      requires Constructed(second, SecondSampleEntry)
      requires Constructed(third, ThirdSampleEntry)
      modifies this`notes
      ensures notes == old(notes) + SampleNotes(first, second, third)
    {
      if first.None? {
        return;
      }
      if second.None? {
        return;
      }
      if third.None? {
        return;
      }
      notes := notes + [first.value, second.value, third.value];
    }

    /** Startup: the saved list when the archive reads back, the sample notes otherwise. */
    method ViewDidLoad(first: Option<Note>, second: Option<Note>, third: Option<Note>)
      requires Constructed(first, FirstSampleEntry)
      requires Constructed(second, SecondSampleEntry)
      requires Constructed(third, ThirdSampleEntry)
      modifies this`notes
      ensures archive.Some? ==> notes == archive.value
      ensures archive.None? ==> notes == old(notes) + SampleNotes(first, second, third)
    {
      if archive.Some? {
        notes := archive.value;
      } else {
        LoadSampleNotes(first, second, third);
      }
    }

    /** Each time the screen appears, the title shows the number of notes. */
    method ViewWillAppear()
      modifies this`title
      ensures title == Title(|notes|)
    {
      title := Title(|notes|);
    }

    /** The table has a single section. */
    function NumberOfSections(): (n: nat)
    {
      1
    }

    /** Every section reports one row per note, so the rows shown are exactly the notes. */
    function NumberOfRowsInSection(section: int): (n: nat)
      reads this
      ensures n == |notes|
    {
      |notes|
    }

    /**
     * Drag to reorder: the note at `src` is taken out and reinserted at `dst`.
     * The list is a permutation of the old one, the dragged note is at `dst`,
     * the other notes keep their order, and the archive is not rewritten.
     */
    method MoveRow(src: nat, dst: nat)
      requires src < |notes| && dst < |notes|
      modifies this`notes
      ensures notes == Moved(old(notes), src, dst)
      ensures |notes| == |old(notes)| && multiset(notes) == multiset(old(notes))
      ensures notes[dst] == old(notes)[src]
      ensures RemoveAt(notes, dst) == RemoveAt(old(notes), src)
      ensures NumberOfRowsInSection(0) == old(NumberOfRowsInSection(0))
    {
      var noteToBeMoved := notes[src];
      notes := RemoveAt(notes, src);
      notes := InsertAt(notes, noteToBeMoved, dst);
    }

    /** The row's delete action: remember the row until the confirmation alert is answered. */
    method DeleteActionTapped(row: nat)
      modifies this`pendingDelete
      ensures pendingDelete == Some(row)
    {
      pendingDelete := Some(row);
    }

    /**
     * The confirmation alert answered with the button titled `buttonTitle`.
     * "Delete" removes the remembered row, saves and retitles the screen;
     * "Don't Delete" leaves editing mode; with no remembered row, or any other
     * title, nothing happens. The remembered row is kept either way.
     */
    method AlertViewClicked(buttonTitle: string, writeOk: bool)
      requires pendingDelete.Some? && buttonTitle == Operation(Yes) ==> pendingDelete.value < |notes|
      modifies this`notes, this`archive, this`title, this`editing
      ensures old(pendingDelete).None? || ParseOperation(buttonTitle).None? ==>
        notes == old(notes) && archive == old(archive) && title == old(title) && editing == old(editing)
      ensures old(pendingDelete).Some? && ParseOperation(buttonTitle) == Some(Yes) ==>
        && notes == RemoveAt(old(notes), old(pendingDelete).value)
        && archive == (if writeOk then Some(notes) else old(archive))
        && NumberOfRowsInSection(0) == old(NumberOfRowsInSection(0)) - 1
        && title == Title(|notes|)
        && editing == old(editing)
      ensures old(pendingDelete).Some? && ParseOperation(buttonTitle) == Some(No) ==>
        notes == old(notes) && archive == old(archive) && title == old(title) && !editing
    {
      if pendingDelete.None? {
        return;
      }
      var row := pendingDelete.value;
      if buttonTitle == Operation(Yes) {
        notes := RemoveAt(notes, row);
        SaveNotes(writeOk);
        title := Title(|notes|);
      } else if buttonTitle == Operation(No) {
        editing := false;
      }
    }
  }

  /**
   * The next launch after a successful save: a new screen over the same
   * archive shows exactly the rows that were saved.
   */
  method RelaunchAfterSave(screen: NotesTableViewController,
                           first: Option<Note>, second: Option<Note>, third: Option<Note>)
    returns (next: NotesTableViewController)
    requires Constructed(first, FirstSampleEntry)
    requires Constructed(second, SecondSampleEntry)
    requires Constructed(third, ThirdSampleEntry)
    modifies screen
    ensures fresh(next) && next.notes == old(screen.notes)
  {
    screen.SaveNotes(true);
    next := new NotesTableViewController(screen.archive);
    next.ViewDidLoad(first, second, third);
  }

  /** Adding a note on top of a restored two-note list. */
  method AddWalkthrough(a: Note, b: Note, c: Note)
  {
    var screen := new NotesTableViewController(Some([a, b]));
    screen.ViewDidLoad(None, None, None);
    assert screen.notes == [a, b];
    screen.UnwindToNotesTableViewController(Some(c), true, None, true);
    assert screen.notes == [c, a, b] && screen.archive == Some([c, a, b]);
  }

  /** Editing the first of two notes: a changed text promotes it, an unchanged one does nothing. */
  method EditWalkthrough(a: Note, b: Note, a2: Note)
    requires a.entry != a2.entry
  {
    var screen := new NotesTableViewController(None);
    screen.notes := [b, a];
    assert RemoveAt([b, a], 1) == [b];
    screen.UnwindToNotesTableViewController(Some(a2), false, Some(1), true);
    assert screen.notes == [a2, b] && screen.archive == Some([a2, b]);
    screen.UnwindToNotesTableViewController(Some(a2), false, Some(0), true);
    assert screen.notes == [a2, b];
  }

  /** Cancelling and then confirming the deletion of the middle note of three. */
  method DeleteWalkthrough(a: Note, b: Note, c: Note)
  {
    var screen := new NotesTableViewController(None);
    screen.notes := [a, b, c];
    screen.DeleteActionTapped(1);
    OperationRoundTrip(No);
    screen.AlertViewClicked(Operation(No), true);
    assert screen.notes == [a, b, c] && !screen.editing;
    OperationRoundTrip(Yes);
    assert RemoveAt([a, b, c], 1) == [a, c];
    screen.AlertViewClicked(Operation(Yes), true);
    assert screen.notes == [a, c] && screen.archive == Some([a, c]);
    assert screen.pendingDelete == Some(1);
  }
}
