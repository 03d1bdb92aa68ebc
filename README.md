# kadai, modelled in Dafny

kadai is a terminal kanban board. A board is a row of task columns, each with one
optional highlighted task. A nested *mode* value (the tracker, or a pop-up screen wrapping
the mode to return to) decides what each key press does, and forms are edited through a
text field with a caret. This project models:

- **Inputs** (`inputs.dfy`): the text field `Input`, a class holding a string and a caret.
  It covers insertion and backspace at the caret, caret motion that stops at the ends,
  jumps to the previous or next space, delete-previous-word, and destructive extraction.
- **Lists** (`lists.dfy`): `Task`, the `TaskList` column and the `ProjectList` picker,
  as classes whose sequences and selection the methods update in place. The `Vec`
  primitives they use are stated once in `seqs.dfy`.
- **Application** (`app.dfy`): the board `App`, with the ten-variant mode datatype
  `AppState`. It covers cyclic selection movement, column switching, moving the
  highlighted task to a neighbouring column (contents, selection repair and task count
  all stated), detail scrolling, and colour cycling with the source's `u8`/`i8` and
  `u16`/`i16` casts written out.
- **Events** (`events.dfy`): the key handlers of every mode. Each handler is a pure
  function from the key to the ordered list of board operations it performs. Lemmas
  state how one key press moves along the mode stack.
- **Ui** (`ui.dfy`): the pure parts of rendering. These are the order in which screens
  are drawn, the tracker's column constraints, the caret placement loop of the editors,
  and the truncation rules of the task cards.

Strings are sequences of ASCII characters, so Rust's byte offsets are character indices.

## Model

| member | source | states |
|---|---|---|
| Seqs.InsertAt | src/lists.rs:86-88 | inserting at `i` puts the element at `i`, keeps the prefix, shifts the suffix right and adds one element to the multiset |
| Seqs.RemoveAt | src/lists.rs:78-80 | removing at `i` keeps the prefix, shifts the suffix left and takes exactly that element out of the multiset |
| Seqs.Swapped | src/lists.rs:74-76 | a swap exchanges the two entries and leaves every other entry alone |
| Seqs.RemoveAfterInsert | src/lists.rs:78-88 | removing at the index just inserted at gives back the original sequence |
| Seqs.InsertAfterRemove | src/lists.rs:78-88 | re-inserting the removed element at its index gives back the original sequence |
| Seqs.SwapInvolutive | src/lists.rs:74-76 | swapping the same pair twice is the identity |
| Seqs.SwapPermutes | src/lists.rs:74-76 | a swap is a permutation (same multiset) |
| Seqs.TransferKeepsSum | src/app.rs:91-137 | moving one task from one column to another keeps the total count |
| Inputs.Find | src/inputs.rs:112-121 | the result is the first space of the string, and is absent exactly when there is no space |
| Inputs.RFind | src/inputs.rs:102-110 | the result is the last space of the string, and is absent exactly when there is no space |
| Inputs.PrevSpace | src/inputs.rs:102-110 | the caret goes to the last space strictly before it, or to 0 when there is none; it never moves right |
| Inputs.NextSpace | src/inputs.rs:112-121 | the caret goes to the first space after it, or to the end; it never moves left and always moves right unless already at the end |
| Inputs.TrailingSpaces | src/inputs.rs:44-53 | the count is the length of the longest all-space suffix |
| Inputs.Input.New | src/inputs.rs:11-17 | `Input::new` gives an empty field with the caret at 0 |
| Inputs.Input.From | src/inputs.rs:19-25 | a pre-filled field has its caret at the end of its text |
| Inputs.Input.WithName | src/inputs.rs:27-30 | the builder sets the name and nothing else |
| Inputs.Input.Len | src/inputs.rs:32-34 | the length is the text length and bounds the caret |
| Inputs.Input.Last | src/inputs.rs:36-42 | the result is the last character as a string, or empty for empty text |
| Inputs.Input.NumTrailingSpaces | src/inputs.rs:44-53 | the popping loop returns the length of the all-space suffix |
| Inputs.Input.Push | src/inputs.rs:55-63 | a space at caret 0 is refused; otherwise the character is inserted at the caret and the caret advances |
| Inputs.Input.Pop | src/inputs.rs:65-70 | nothing happens at caret 0; otherwise the character before the caret is removed and the caret steps back |
| Inputs.Input.Extract | src/inputs.rs:72-75 | returns the whole text and leaves the field empty with the caret at 0 |
| Inputs.Input.Clear | src/inputs.rs:77-80 | empties the text and resets the caret |
| Inputs.Input.MoveLeft | src/inputs.rs:82-86 | the caret steps left, stopping at 0 |
| Inputs.Input.MoveRight | src/inputs.rs:88-92 | the caret steps right, stopping at the end |
| Inputs.Input.MoveStart | src/inputs.rs:94-96 | the caret goes to 0 and the text is unchanged |
| Inputs.Input.MoveEnd | src/inputs.rs:98-100 | the caret goes to the end and the text is unchanged |
| Inputs.Input.MoveToPrevSpace | src/inputs.rs:102-110 | the caret goes to `PrevSpace` of the old caret and the text is unchanged |
| Inputs.Input.MoveToNextSpace | src/inputs.rs:112-121 | the caret goes to `NextSpace` of the old caret and the text is unchanged |
| Inputs.Input.DeleteToLeftSpace | src/inputs.rs:123-132 | the span from the previous space up to the caret is cut out and the caret lands at that space |
| Inputs.PushThenPop | src/inputs.rs:55-70 | an accepted push followed by a pop restores both the text and the caret |
| Inputs.DeleteTwoWords | src/inputs.rs:123-132 | deleting the previous word twice from "hello world" leaves the field empty with the caret at 0 |
| Lists.TaskList.Default | src/lists.rs:22-29 | the default column is "Tasks" with colour 7, no tasks and no selection |
| Lists.TaskList.From | src/lists.rs:31-38 | a named column has colour 7, no tasks and no selection |
| Lists.TaskList.EmptyBacklog | src/lists.rs:40-47 | the backlog is "Backlog" with colour 6, empty and unselected |
| Lists.TaskList.EmptyArchive | src/lists.rs:49-56 | the archive is "Archive" with colour 1, empty and unselected |
| Lists.TaskList.IsEmpty | src/lists.rs:58-60 | a column is empty exactly when its length is 0 |
| Lists.TaskList.Len | src/lists.rs:70-72 | the length is the number of tasks |
| Lists.TaskList.Select | src/lists.rs:62-64 | the selection is stored verbatim and nothing else changes |
| Lists.TaskList.GetSelectedIndex | src/lists.rs:66-68 | returns the stored selection |
| Lists.TaskList.Swap | src/lists.rs:74-76 | the two tasks are exchanged: a permutation that keeps the selection |
| Lists.TaskList.Remove | src/lists.rs:78-80 | returns task `i`, and the others keep their order; the selection is not repaired |
| Lists.TaskList.Push | src/lists.rs:82-84 | appends the task |
| Lists.TaskList.Insert | src/lists.rs:86-88 | inserts the task at `i` |
| Lists.InsertThenRemove | src/lists.rs:78-88 | inserting and then removing at one index returns the inserted task and restores the column |
| Lists.SwapTwice | src/lists.rs:74-76 | swapping the same pair twice restores the column |
| Lists.ProjectList.Create | src/lists.rs:97-108 | the picker holds the listing and selects its first entry exactly when it is non-empty |
| Lists.ProjectList.IsEmpty | src/lists.rs:110-112 | the picker is empty exactly when it has no projects |
| Lists.ProjectList.Select | src/lists.rs:114-116 | the selection is stored verbatim |
| Lists.ProjectList.GetSelectedIndex | src/lists.rs:118-120 | returns the stored selection |
| Lists.ProjectList.Len | src/lists.rs:122-124 | the length is the number of projects |
| Lists.ProjectList.Remove | src/lists.rs:126-128 | returns project `i`, and the others keep their order |
| Lists.ProjectList.Push | src/lists.rs:130-132 | appends the project |
| Lists.ProjectList.Insert | src/lists.rs:134-136 | inserts the project at `i` |
| Application.App.New | src/app.rs:18-41 | three empty columns "Planned"/5, "In Progress"/3 and "Completed"/2, the first active; each is given selection 0, which breaks the selection invariant on empty columns |
| Application.DownIndex | src/app.rs:43-59 | moving down stays in range, goes to the next index cyclically and resets to 0 from no selection or a stale one |
| Application.UpIndex | src/app.rs:61-77 | moving up goes to the previous index cyclically and to the last index from no selection; an index at or beyond the end is only decremented |
| Application.UpDownInverse | src/app.rs:43-77 | from a valid selection, down then up, and up then down, come back |
| Application.DownCycle | src/app.rs:43-59 | as many down moves as the column has tasks bring the selection back to where it started |
| Application.App.ListDown | src/app.rs:43-59 | the active column's selection becomes `DownIndex`; nothing changes on an empty column |
| Application.App.ListUp | src/app.rs:61-77 | the active column's selection becomes `UpIndex`; nothing changes on an empty column |
| Application.NextIndex | src/app.rs:79-81 | the next column index is in range and wraps from the last to the first |
| Application.PrevIndex | src/app.rs:83-89 | the previous column index is in range, and `NextIndex` of it is the starting index |
| Application.NextPrevInverse | src/app.rs:79-89 | `next_list` and `prev_list` undo each other |
| Application.App.NextList | src/app.rs:79-81 | the active column becomes `NextIndex` and nothing else changes |
| Application.App.PrevList | src/app.rs:83-89 | the active column becomes `PrevIndex` and nothing else changes |
| Application.SelectionAfterRemove | src/app.rs:97-102 | after the highlighted task is taken out, the repaired selection satisfies the selection invariant and is the same index or one less |
| Application.TakeSelected | src/app.rs:93-102 | the highlighted task is returned and removed, and the selection is repaired |
| Application.AppendSelected | src/app.rs:105-108 | the task is appended to the column and selected there |
| Application.App.MoveTaskToNextList | src/app.rs:91-113 | unless the last column is active or nothing is highlighted, the task leaves the active column and is appended to and highlighted in the next, which becomes active; every other column is unchanged and the total task count is kept |
| Application.App.MoveTaskToPrevList | src/app.rs:115-137 | the mirror image toward the previous column, a no-op on the first column |
| Application.PrevOnFreshBoard | src/app.rs:115-137 | Backspace on a fresh board (src/app.rs:18-41), whose first column is active, leaves it unchanged despite the stale selections |
| Application.App.MoveSelectedTask | src/app.rs:95-111 | the shared body of both moves for a given neighbour |
| Application.App.ChangeState | src/app.rs:139-141 | the mode is replaced and nothing else changes |
| Application.App.GetSelectedTask | src/app.rs:143-149 | no task exactly when nothing is selected; otherwise the task at the selected index of the active column |
| Application.App.FocusedListIsEmpty | src/app.rs:151-153 | true exactly when the active column has no tasks |
| Application.AsI8 | src/app.rs:169 | the `u8` to `i8` cast: a value in the `i8` range congruent modulo 256 |
| Application.AsI16 | src/app.rs:156 | the `u16` to `i16` cast: a value in the `i16` range congruent modulo 65536 |
| Application.ScrolledBy | src/app.rs:155-161 | the new scroll is the shifted offset, clamped at 0 |
| Application.App.ScrollDetails | src/app.rs:155-161 | the detail scroll becomes `ScrolledBy` and nothing else changes |
| Application.App.ResetScroll | src/app.rs:163-165 | the detail scroll becomes 0 |
| Application.CycledColor | src/app.rs:167-176 | the new colour is always in 1..7: the plain sum when in range, otherwise wrapped to the other end |
| Application.ColorCycleInverse | src/app.rs:167-176 | stepping a colour forward and back returns it, and 7 and 1 wrap into each other |
| Application.App.CycleListColor | src/app.rs:167-176 | the active column's colour becomes `CycledColor` and nothing else changes |
| Events.HandleTracker | src/events.rs:53-109 | tracker keys: every mode change wraps the tracker, 'd', 'e' and Enter do something exactly when the focused column is not empty, Space and Backspace move the highlighted task to the next and previous column, and 'c'/'C' cycle the colour forward and back |
| Events.HandleTaskView | src/events.rs:111-122 | detail view keys: 'j' and 'k' scroll by one line down and up, and only Enter closes it, after resetting the scroll |
| Events.HandleBacklogPopup | src/events.rs:124-198 | backlog keys: opened screens return to the popup, 'd', 'e' and Enter do something exactly on a non-empty column, 'b' only closes it and 'a' only swaps to the archive |
| Events.HandleArchivePopup | src/events.rs:200-249 | archive keys: the same shape with 'd' and Enter guarded, 'a' only closing it, 'b' only swapping to the backlog, and Space moving the task to the last column |
| Events.HandleTaskEditor | src/events.rs:251-279 | task editor keys: characters are typed, Backspace deletes one, Delete clears the input and Tab cycles the focus; the details are saved exactly on Enter, and the mode changes exactly on Enter or Esc, returning to the screen below |
| Events.HandleListEditor | src/events.rs:297-323 | list editor keys: characters are typed, Backspace deletes one, Delete clears the input and Tab does nothing; it saves to the list exactly on Enter and leaves exactly on Enter or Esc |
| Events.HandleDeletePrompt | src/events.rs:281-295 | prompt keys: 'y' and Enter run the deletion and then return, 'n' and Esc only return, and every other key does nothing |
| Events.HandleEvents | src/events.rs:13-51 | dispatch on the mode; a mode change is always the last operation |
| Events.ReachableDepth | src/events.rs:53-249 | every reachable mode is at most two screens deep, and a two-deep one sits on a popup |
| Events.StepPreservesReachable | src/events.rs:13-339 | a key press keeps the mode reachable |
| Events.StepShape | src/events.rs:13-339 | a key press keeps the mode, pushes one screen, pops one, or swaps one popup for the other |
| Events.StepDepth | src/events.rs:13-339 | the mode stack's depth changes by at most one per key |
| Events.QuitOnlyOnQ | src/events.rs:55-126 | quitting is requested exactly on 'q' in the tracker, the detail view or a popup |
| Events.EditorsTypeCharacters | src/events.rs:251-323 | in an editor every character, 'q' included, is typed and the mode stays |
| Events.EditorStays | src/events.rs:251-323 | in an editor every key but Enter and Esc keeps the mode |
| Events.EscapeReturns | src/events.rs:251-339 | Esc leaves an editor or prompt for the screen below and does nothing else |
| Events.EnterConfirms | src/events.rs:251-339 | Enter runs the editor's save or the prompt's deletion and then returns |
| Events.EmptyColumnGuards | src/events.rs:61-102 | on an empty column the tracker opens neither the delete prompt, the task editor nor the detail view, and 'd', 'e' and Enter do nothing at all |
| Events.OpenThenCancel | src/events.rs:56-167 | opening the task creator (on any column) or the editor or delete prompt (on a non-empty column) and pressing Esc returns to where it started |
| Events.PopupRoundTrips | src/events.rs:103-105 | 'b' and 'a' open and close the backlog and archive popups |
| Events.PopupSwap | src/events.rs:177-233 | the popups swap into each other over the same screen, and back |
| Events.TrackerKeys | src/events.rs:53-109 | which screen 'n', 'N', 'D', 'E', 'b' and 'a' open from the tracker; 'd', 'e' and Enter open the delete prompt, the editor and the detail view on a non-empty column and keep the tracker on an empty one |
| Events.TrackerOtherKeys | src/events.rs:53-109 | every other key keeps the tracker mode |
| Events.BacklogKeys | src/events.rs:124-198 | 'n' opens the creator over the popup, 'b' returns to the screen below, 'a' swaps to the archive; 'd', 'e' and Enter open their screens over the popup exactly on a non-empty column |
| Events.BacklogOtherKeys | src/events.rs:124-198 | every other key keeps the backlog popup |
| Events.ArchiveKeys | src/events.rs:200-249 | 'a' returns to the screen below, 'b' swaps to the backlog; 'd' and Enter open their screens over the popup exactly on a non-empty column |
| Events.ArchiveOtherKeys | src/events.rs:200-249 | every other key, 'n' and 'e' included, keeps the archive popup |
| Events.TaskViewCloses | src/events.rs:116-119 | Enter in the detail view resets the scroll and then returns |
| Ui.Below | src/ui.rs:99-141 | popping `k` screens lowers the depth by `k` |
| Ui.Layers | src/ui.rs:99-141 | the layers drawn are as many as the mode's depth plus one, the tracker once and first, and layer i is the screen i levels up |
| Ui.TrackerConstraints | src/ui.rs:162-177 | one constraint per column: a single `Min(10)` at the middle index and `Length(width / n)` elsewhere |
| Ui.StopRow | src/ui.rs:609-623 | the caret row is the first line the caret does not lie beyond |
| Ui.OffsetWithinPos | src/ui.rs:609-623 | the running offset never exceeds the caret while lines are skipped, so the column subtraction cannot underflow |
| Ui.Caret | src/ui.rs:609-623 | the caret row is in range, the offset plus the column is the caret, the column lies within the line and its slack, and past every line the column is 0 |
| Ui.CaretPosition | src/ui.rs:598-623 | the loop computes `Caret`; the list editor's loop at src/ui.rs:716-730 is the same computation |
| Ui.CaretAtStart | src/ui.rs:609-623 | a caret at 0 is at row 0, column 0 |
| Ui.CaretWithoutTrailing | src/ui.rs:609-623 | without trailing spaces, counting them on every line or only on the last line agree |
| Ui.TrailingSpacesMisplaceCaret | src/ui.rs:602-623 | as written, two trailing spaces move a caret from (1, 1) to (6, 0) |
| Ui.CorrectedCaretIgnoresTrailing | src/ui.rs:602-623 | counted on the last line only, trailing spaces leave any caret inside the wrapped text where it is |
| Ui.CaretAtEndOfThreeLines | src/ui.rs:609-623 | the source's loop puts the end caret of "aaaa bbbb cccc" wrapped at width 5 at column 4 of row 2 |
| Ui.Truncated | src/ui.rs:891-895 | the result is shorter than the limit, equal to the field exactly when the field is shorter, and otherwise its first `limit - 5` characters plus "..." |
| Ui.SummaryText | src/ui.rs:891-895 | the summary is cut at two thirds of the card width |
| Ui.CategoryText | src/ui.rs:907-912 | a category is kept or cut at a third of the card width, and absence is kept |
| Ui.ShownDescription | src/ui.rs:956-961 | at most three description lines are shown; more become the first two and "..." |

## Left out

- Terminal rendering and layout are not modelled, because they are foreign library calls. This covers widgets, `Frame`, `Layout::split`, border painting, the centred-rectangle helpers and `set_cursor`. The floating-point width at src/ui.rs:663 is left out with them.
- `textwrap::wrap` is a library call: the caret functions take its output lines as a parameter.
- Reading keys from the terminal (src/events.rs:14) and `io::Result` are I/O: the handlers take the key, and key codes they do not match become `OtherKey`.
- src/main.rs (argument handling, the terminal loop, `App::create`) is not part of this model.
- The `get_projects` directory listing (src/lists.rs:139-154) and the serde derives are file-system and serialisation code. `ProjectList.Create` models `create` after a successful listing, which it takes as a parameter.
- The `From<Input> for Text` conversions (src/inputs.rs:135-151) only wrap the text in a library type.
- Most `App` methods that src/events.rs calls are not defined in src/app.rs and are kept as named `Call` values, not given behaviour; the handlers record the ordered calls. These include `set_quit`, `task_up`/`task_down`, `list_left`/`list_right`, the jumps, `move_task_to_backlog`/`_archive`/`_list`, `save_details_*`, `delete_*`, `populate_*` and the detail-input calls.
- `ListState` is reduced to its selected index; its scroll offset plays no part here.
- Application.App.MoveTaskToNextList: when the last column is not active, requires the stored selection, when present, to be a valid index, because `Vec::remove` panics otherwise. With the last column active the move is a no-op and any selection is accepted. `MoveTaskToPrevList` is the same with the first column. `MoveSelectedTask` and `GetSelectedTask` require a valid or absent selection in every case, because they always remove or index.
- Lists.TaskList.Swap: requires in-range indices, because `Vec::swap` panics otherwise; `Lists.TaskList.Remove`, `Lists.TaskList.Insert`, `Lists.ProjectList.Remove` and `Lists.ProjectList.Insert` likewise require the index bound under which `Vec::remove` and `Vec::insert` do not panic.
- Application.App.ScrollDetails: requires the `i16` sum not to overflow, because Rust's addition panics there in a debug build; `ScrolledBy` likewise.
- Application.App.CycleListColor: requires the colour to fit a `u8` and the `i8` sum not to overflow, for the same reason; `CycledColor` likewise.
- Ui.TrackerConstraints: requires 1 to 65535 columns, because the source divides by the column count cast to `u16`.
- Ui.Truncated: requires a limit of at least 5 whenever it cuts, because `limit - 5` on `usize` underflows otherwise; `SummaryText` and `CategoryText` likewise.
- Events.HandleArchivePopup: requires at least one column before Space is handled, because `len() - 1` underflows otherwise.
- src/app.rs declares `AppState` with two unit variants. The model uses the ten-variant recursive form that src/events.rs and src/ui.rs match on.
- `App::new` builds its columns with a `TaskList::new` builder chain that neither src/task_list.rs nor src/lists.rs define. The model builds them with `From` and sets the colour.
- Text is ASCII: Rust's byte-indexed `String` operations on multi-byte characters are not modelled.
- The padding that fills out the task card summary line (src/ui.rs:925-948) is left out, because it depends on the terminal width of styled spans.

## Findings

| source | as written | input that shows it | evidently intended | confidence | as-written member | corrected member |
|---|---|---|---|---|---|---|
| src/ui.rs:611-613 | the trailing-space count is added to every wrapped line's length when deciding whether the caret lies beyond that line | text "aaaa bbbb  " wrapped at width 5 into "aaaa" and "bbbb", caret 6 (after the first 'b'): the caret is drawn at column 6 of row 0 instead of column 1 of row 1 | trailing spaces extend only the last wrapped line, so they move no caret that lies inside the wrapped text | medium; depends on `wrap` dropping trailing spaces; not executed | Ui.TrailingSpacesMisplaceCaret | Ui.CorrectedCaretIgnoresTrailing |
