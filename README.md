# Thoughtless note list, in Dafny

This project models the note list kept by the table screen of the Thoughtless
note-taking app (`NotesTableViewController`). The screen holds the notes as an
ordered array and remembers which row's deletion awaits confirmation. It saves
the whole list to an archive file, reads that file back at startup, and shows
"<count> Notes" as its title. Users add and edit notes in a separate editor
screen, drag rows to reorder them, and delete rows through a confirmation
alert.

Modules:

- `Wrappers` (`wrappers.dfy`): `Option`, standing for Swift's optionals.
- `NoteList` (`note_list.dfy`): the list edits the screen uses. `RemoveAt` and
  `InsertAt` are Swift's `remove(at:)` and `insert(_:at:)`. `Moved` is
  drag-to-reorder. It is proved to be a permutation that puts the dragged note
  at its destination and keeps the other notes in order, and dragging back
  undoes it.
- `NavigationTitle` (`title.dfy`): the decimal notation that string
  interpolation gives a count, its inverse, and the title "<count> Notes".
- `NotesScreen` (`notes_screen.dfy`): the `Note` record, the alert's
  `Delete` buttons and their titles, the three sample notes, and the class
  `NotesTableViewController`. The class's fields are the ones the screen
  updates in place: `notes`, `pendingDelete` (the stored `indexPath`),
  `archive` (what reading the archive file yields), `title` and `editing`.
  Each handler is a method whose postcondition gives the whole new state in
  terms of the old one. `RelaunchAfterSave` shows that a saved list is what
  the next launch loads. Three walkthrough methods replay add, edit and
  delete on small lists.

What UIKit tells the screen comes in as parameters:

- whether the editor was opened from the add button, which the source checks
  with `presentedViewController is UINavigationController`;
- the selected row;
- the title of the alert button tapped;
- whether the archiver's write succeeded;
- what the `Notes` initializer made of each sample text.

The table always has one section (`NumberOfSections`), and the row index
alone identifies a note.

The screen does not save after a drag-to-reorder (lines 137-141). The new
order reaches the archive only with the next add, edit or delete, and is lost
if the app ends first. `MoveRow` does not touch `archive`.

## Model

| member | source | states |
|---|---|---|
| `NoteList.RemoveAt` | Thoughtless/NotesTableViewController.swift:178 | removing row i shortens the list by one, keeps the rows before i, shifts the later rows down by one, and drops exactly one copy of the removed note from the multiset of notes |
| `NoteList.InsertAt` | Thoughtless/NotesTableViewController.swift:33 | inserting at i lengthens the list by one, puts the note at i, keeps the earlier rows and shifts the later ones up. Inserting at 0 prepends. Removing at i again gives back the original list |
| `NoteList.InsertRemoved` | Thoughtless/NotesTableViewController.swift:139-140 | putting a removed note back at the position it came from restores the list |
| `NoteList.Moved` | Thoughtless/NotesTableViewController.swift:137-141 | a reorder keeps the length and the multiset of notes, puts the dragged note at the destination, and leaves the other notes in their old relative order |
| `NoteList.MovedBack` | Thoughtless/NotesTableViewController.swift:137-141 | dragging the note back from the destination to the source undoes the reorder |
| `NoteList.MovedAt` | Thoughtless/NotesTableViewController.swift:137-141 | where each row of a reordered list takes its note from: the destination holds the dragged note, rows between source and destination shift by one toward the source, all other rows are unchanged |
| `NavigationTitle.Decimal` | Thoughtless/NotesTableViewController.swift:95 | the interpolated count is a non-empty string of digits with no leading zero, and it is "0" exactly for zero |
| `NavigationTitle.DecimalRoundTrip` | Thoughtless/NotesTableViewController.swift:95 | reading the interpolated count back as a decimal number gives the count |
| `NavigationTitle.DecimalInjective` | Thoughtless/NotesTableViewController.swift:181 | different counts are written differently, so the title tells how many notes there are |
| `NavigationTitle.Title` | Thoughtless/NotesTableViewController.swift:95 | the title ends in " Notes", and what precedes that is exactly `Decimal` of the count (digits, no leading zero), which reads back as the count |
| `NotesScreen.ParseOperation` | Thoughtless/NotesTableViewController.swift:177-185 | the alert delegate compares the tapped title with "Delete", then "Don't Delete". A recognised title is that button's title, and an unrecognised title matches neither button |
| `NotesScreen.OperationRoundTrip` | Thoughtless/NotesTableViewController.swift:197-205 | `Operation` gives the button titles, "Delete" for `Yes` and "Don't Delete" for `No`. The two titles differ, so the title of either button dispatches back to that button |
| `NotesScreen.SampleNotes` | Thoughtless/NotesTableViewController.swift:47-51 | the samples are exactly the three notes the initializer made, in order (timestamps included) and carrying the three sample texts, or none of them when any of the three could not be made |
| `NotesScreen.NotesTableViewController.constructor` | Thoughtless/NotesTableViewController.swift:16-25 | a new screen has no notes and no row pending deletion, and it starts over the archive found on the device |
| `NotesScreen.NotesTableViewController.SaveNotes` | Thoughtless/NotesTableViewController.swift:63-66 | a successful save overwrites the archive with the whole current list. A failed one leaves the archive as it was |
| `NotesScreen.NotesTableViewController.UnwindToNotesTableViewController` | Thoughtless/NotesTableViewController.swift:29-43 | no returned note changes nothing. A note from the add button becomes row 0 in front of the old list, then the list is saved. An edited note whose text differs from the selected row's text replaces that row and moves to the top: same length, the old note swapped for the new one, then saved. Unchanged text, or no selected row, leaves both list and archive untouched |
| `NotesScreen.NotesTableViewController.LoadSampleNotes` | Thoughtless/NotesTableViewController.swift:47-52 | appends exactly `SampleNotes` to the current list: all three samples or nothing |
| `NotesScreen.NotesTableViewController.ViewDidLoad` | Thoughtless/NotesTableViewController.swift:74-82 | when the archive reads back, the list becomes exactly the saved list. Otherwise the sample notes are appended |
| `NotesScreen.NotesTableViewController.ViewWillAppear` | Thoughtless/NotesTableViewController.swift:94-96 | on appearing, the title shows the current number of notes |
| `NotesScreen.NotesTableViewController.NumberOfRowsInSection` | Thoughtless/NotesTableViewController.swift:118-124 | the table has one section (`NumberOfSections`) with one row per note. The handlers' contracts state how the row count changes: one more after an add, unchanged after an edit or a reorder, one fewer after a confirmed delete |
| `NotesScreen.NotesTableViewController.MoveRow` | Thoughtless/NotesTableViewController.swift:137-141 | the list becomes `Moved` of the old one: a permutation with the dragged note at the destination and the other notes in order. The archive is not rewritten |
| `NotesScreen.NotesTableViewController.DeleteActionTapped` | Thoughtless/NotesTableViewController.swift:155-157 | the row's delete action records that row as the one awaiting confirmation |
| `NotesScreen.NotesTableViewController.AlertViewClicked` | Thoughtless/NotesTableViewController.swift:175-186 | "Delete" with a recorded row removes that row, then saves and sets the title to the new count. "Don't Delete" only leaves editing mode. With no recorded row, or any other title, nothing changes. The recorded row is not cleared |
| `NotesScreen.RelaunchAfterSave` | Thoughtless/NotesTableViewController.swift:63-82 | after a successful save, a new screen over the same archive loads exactly the saved list |

## Left out

- UIKit effects carry no list semantics and are not modelled: `insertRows`, `reloadData`, `deleteRows`, cell dequeuing and rendering, and bar and separator styling (lines 84-89, 126-135).
- Showing the confirmation alert and the share sheet (lines 54-59, 158-163) is not modelled. Sharing only reads the tapped note's `entry` and changes nothing.
- The share sheet's completion calls `setEditing(false)` (line 57). It is not modelled. In this model `editing` changes only through the alert's "Don't Delete"; UIKit's edit button is not modelled either.
- `NSKeyedArchiver`/`NSKeyedUnarchiver` and the archive path (lines 63-70) are not modelled. The model keeps the decoded value of the file, and a missing file and an undecodable file both read back as `None`.
- The log line printed when a save fails (line 65) is not modelled.
- A failed write is assumed to leave the previous file intact.
- SaveNotes and RelaunchAfterSave assume that a list written successfully decodes back unchanged, timestamps included. Whether it does depends on how the `Notes` class encodes and decodes itself, and that code is not part of this model.
- Segue routing in `prepare(for:sender:)` (lines 98-114) is not modelled. The editor receives the selected note there, and the model starts from what the editor returns.
- The `Notes` class, its failable initializer and `CurrentDateAndTimeHelper` are not part of this model. The initializer's outcomes are inputs. The empty-entry rule and timestamp behaviour are not asserted.
- SampleNotes, LoadSampleNotes, ViewDidLoad and RelaunchAfterSave assume, through their `Constructed` requires, that a note the `Notes(entry:dateOfCreation:)` initializer makes keeps the text it was given. That initializer is not part of this model, so the sample texts the notes carry rest on this assumption.
- `Notes` objects are class instances in Swift; here a note is a value. Aliasing between the editor and the list is not captured.
- Note texts are compared as sequences of Unicode scalars. Swift's `String ==` compares up to canonical equivalence, which the model does not capture.
- Counts and row indices are unbounded naturals; Swift's `Int` bounds are not modelled.
- `IndexPath.section` is dropped, since the table has one section.
- Out-of-range row indices make Swift trap, so they are excluded by `requires` clauses.
- The navigation title that the storyboard sets before the first `viewWillAppear` is not modelled; the constructor uses the empty string.
