# Terminal Velocity search, autocomplete and selection engine

This project models the engine inside Terminal Velocity's console front end
(`terminal_velocity/urwid_ui.py`) that keeps three pieces of state in step as
the user types: the text typed into the search box, the autocomplete
suggestion shown after it, and the note highlighted in the list below. It
also models the list box's widget cache and focus, the two suppression flags
of the main frame, and the key dispatch of `MainFrame.keypress`.

The files:

- `wrappers.dfy` (`Wrappers`): an `Option` type.
- `case_fold.dfy` (`CaseFold`): ASCII lower-casing and the case-insensitive
  "starts with" test used by `filter`, `get_text` and the backspace rule.
- `notes.dfy` (`Notes`): the note record `(abspath, title, mtime)`, the stable
  newest-first ordering of search results, and the note `filter` proposes to
  select.
- `note_list.dfy` (`NoteList`): the list box's rows, its widget cache keyed by
  path, one filter pass over the cache, and the row `focus_note` finds.
- `autocomplete.dfy` (`Autocomplete`): the four-way choice of
  `AutocompleteWidget.get_text`.
- `main_frame.dfy` (`Frame`): one class `MainFrame` holding the whole
  engine's state (search box, list box and frame fields), with a method per
  operation and the branches of `keypress`.

The notebook's `search` is a parameter (a function from query to notes),
`add_new`'s outcome is a parameter (`Creation`), urwid's `Edit.keypress` is
represented by what it did (`EditResult`), and urwid's `ListBox.keypress` and
`mouse_event` by the row they moved the focus to and whether they used the
key. Running the editor and quitting are returned as an `Effect`.

urwid's "change" signal of the search box calls `filter` with the new text
(lines 242-243 and 394-395). The model makes this an explicit call to
`Filter` after every change of the typed text, including the one inside
`consume`.

Three facts about the code that shape the model:

- `suppress_filter` is reset at line 292 and read at line 368, but nothing
  ever sets it to true. The only flag that breaks the feedback loop between
  the search box and the list is `suppress_focus`, set by enter (line 319)
  and backspace (line 359). `Frame.MainFrame.Keypress` accordingly ensures
  that `suppressFilter` is false afterwards.
- Backspace with a selection calls `consume` when the typed text is empty or
  does not start the selected title up to case, and clears the selection in
  every other case (lines 346-358).
- So backspace over "Gro" with "Grocery List" selected clears the selection
  before the key reaches the search box, and `suppress_focus` keeps the
  re-filter on "Gr" from selecting a note again.

## Model

| member | source | states |
|---|---|---|
| CaseFold.Lower | terminal_velocity/urwid_ui.py:120-121 | The folded text has the same length, contains no capital letter, and keeps every character that is not a capital |
| CaseFold.LowerIdempotent | terminal_velocity/urwid_ui.py:120-121 | Folding an already folded text changes nothing |
| CaseFold.LowerConcat | terminal_velocity/urwid_ui.py:120-121 | Lower-casing distributes over concatenation |
| CaseFold.StartsWithCIFacts | terminal_velocity/urwid_ui.py:120-121 | A case-insensitive prefix is no longer than the text; every text starts with itself and with the empty text |
| CaseFold.CompletionFolds | terminal_velocity/urwid_ui.py:126-127 | When the typed text starts the suggestion up to case, typed text followed by the rest of the suggestion equals the suggestion up to case |
| Autocomplete.GetText | terminal_velocity/urwid_ui.py:107-135 | Both empty: "Find or Create" in one placeholder span; no suggestion: the typed text without spans; typed text a non-empty case-insensitive prefix: exactly the typed text followed by the suggestion from the typed length on, with a search span of the typed length and a suggestion span for the rest; otherwise the whole suggestion in one suggestion span; with a suggestion the shown text equals it up to case; span lengths always add up to the text length |
| Notes.KeepMembers | terminal_velocity/urwid_ui.py:383-387 | A note is kept exactly when it is listed and meets the criterion |
| Notes.KeepNone | terminal_velocity/urwid_ui.py:383-389 | When no listed note meets the criterion nothing is kept |
| Notes.KeepConcat | terminal_velocity/urwid_ui.py:383-387 | Selecting from a concatenation selects from each part |
| Notes.KeepExtend | terminal_velocity/urwid_ui.py:385-387 | One more loop step appends the next note exactly when it meets the criterion |
| Notes.InsertPermutes | terminal_velocity/urwid_ui.py:379 | Inserting a note adds exactly that note to the multiset |
| Notes.InsertOrdered | terminal_velocity/urwid_ui.py:379 | Inserting into a newest-first list keeps it newest first |
| Notes.SortNewestFirstPermutes | terminal_velocity/urwid_ui.py:379 | The sorted search result is a permutation of the search result |
| Notes.SortNewestFirstOrdered | terminal_velocity/urwid_ui.py:379 | The sorted search result has non-increasing modification times |
| Notes.KeepInsert | terminal_velocity/urwid_ui.py:379 | Selecting notes commutes with inserting into a newest-first list |
| Notes.KeepSortNewestFirst | terminal_velocity/urwid_ui.py:379 | Selecting notes from the sorted list equals sorting the selected notes |
| Notes.SortSameTime | terminal_velocity/urwid_ui.py:379 | A list whose notes share one time is left as it is |
| Notes.SortNewestFirstStable | terminal_velocity/urwid_ui.py:379 | The sort is stable: the notes of any one modification time keep their search order |
| Notes.SortNewestFirstHead | terminal_velocity/urwid_ui.py:379 | The first sorted note is the first listed note of the newest time: none is newer and all before it are strictly older |
| Notes.ProposalNewest | terminal_velocity/urwid_ui.py:377-390 | When some found title starts with the non-empty query up to case, a note is proposed, and it is such a note, the newest of them, and the first newest one in search order |
| Notes.ProposalIsNewestMatch | terminal_velocity/urwid_ui.py:377-392 | A note is proposed exactly when the query is non-empty and some result's title starts with it up to case; the proposal is such a result, the newest of them, and the first newest one in search order |
| NoteList.RebuildGrowsCache | terminal_velocity/urwid_ui.py:187-198 | After a pass the cache's keys are the old keys plus the listed paths, and no old entry is replaced |
| NoteList.RebuildShowsCached | terminal_velocity/urwid_ui.py:190-198 | Row i is the cache's widget for note i's path |
| NoteList.RebuildKeyed | terminal_velocity/urwid_ui.py:192-197 | A pass keeps every cache entry filed under its own note's path |
| NoteList.RebuildNewEntry | terminal_velocity/urwid_ui.py:192-197 | A path the cache lacked gets the widget of the first listed note with that path |
| NoteList.RebuildIdempotent | terminal_velocity/urwid_ui.py:187-203 | Filtering twice on the same notes gives the same cache and rows as filtering once |
| NoteList.RebuildStep | terminal_velocity/urwid_ui.py:191-198 | One loop step: the first note's widget, then the pass over the rest with the updated cache |
| NoteList.RebuildAdvance | terminal_velocity/urwid_ui.py:191-198 | One loop iteration keeps the rows built so far plus the pass over the remaining notes equal to the whole pass |
| NoteList.RebuildRowsCached | terminal_velocity/urwid_ui.py:187-203 | With a keyed cache every shown row is the cache entry for its own note's path |
| NoteList.RebuildLists | terminal_velocity/urwid_ui.py:187-203 | With a keyed cache the list has one row per note, in order, row i for note i's path |
| NoteList.FirstIndexOf | terminal_velocity/urwid_ui.py:208-211 | The result is the first row whose note equals the given note, or None when no row shows it |
| Frame.CollectAutocompletable | terminal_velocity/urwid_ui.py:383-387 | The loop collects, for a non-empty query, the notes whose title starts with the query up to case, in list order; a note is collected exactly when it qualifies |
| Frame.MainFrame.constructor | terminal_velocity/urwid_ui.py:228-250 | Starts with empty typed text, no suggestion or selection, both flags clear, then filters on the empty query: the list is the newest-first result of search("") and the cache holds its widgets |
| Frame.MainFrame.FocusedNote | terminal_velocity/urwid_ui.py:167-169 | The list's selected note is the note of a shown row and is cached under its path |
| Frame.MainFrame.FilterList | terminal_velocity/urwid_ui.py:187-203 | The cache and rows become those of one pass over the notes, the list shows one row per note in order, and the focus is on the first row |
| Frame.MainFrame.CacheWidgets | terminal_velocity/urwid_ui.py:190-198 | The first loop leaves the cache and the collected widgets as one pass over the notes makes them |
| Frame.MainFrame.ReplaceRows | terminal_velocity/urwid_ui.py:200-203 | Clearing the walker and appending the widgets leaves exactly those widgets, focused on the first |
| Frame.MainFrame.FocusNote | terminal_velocity/urwid_ui.py:205-211 | The focus moves to the first row showing the note and stays put when none does |
| Frame.MainFrame.SetSelectedNote | terminal_velocity/urwid_ui.py:256-281 | With focusing suppressed nothing changes; otherwise the selection is the note, the suggestion its title (or None), the list looks focused exactly when there is a note, and the focus is on the note's first row |
| Frame.MainFrame.Filter | terminal_velocity/urwid_ui.py:365-392 | With filtering suppressed nothing changes; otherwise the list is rebuilt from the newest-first search result, the cache only grows, and unless focusing is suppressed the proposed note (or None) is selected |
| Frame.MainFrame.SetEditText | terminal_velocity/urwid_ui.py:394-395 | Setting the typed text clamps the cursor and re-filters on the new text |
| Frame.MainFrame.Consume | terminal_velocity/urwid_ui.py:137-147 | Consumes exactly when the suggestion is non-empty and longer than the typed text; then the typed text is the old suggestion, re-filtered on it, the cursor at the length of the suggestion the re-filter proposes (which is the end of the text) and the suggestion None; otherwise nothing changes; the typed text never gets shorter |
| Frame.MainFrame.ForwardToSearchBox | terminal_velocity/urwid_ui.py:360-363 | A key the search box does not use is returned with nothing changed; a cursor move only moves the cursor; new text re-filters on it |
| Frame.MainFrame.ListBoxKeypress | terminal_velocity/urwid_ui.py:213-216 | The focus moves to the given row and, unless focusing is suppressed, that row's note is selected; the key is returned when the list did not use it |
| Frame.MainFrame.ListBoxMouseEvent | terminal_velocity/urwid_ui.py:218-222 | As for a list key, and the flags are not reset, so after enter or backspace the selection stays |
| Frame.MainFrame.Cancel | terminal_velocity/urwid_ui.py:292-301 | After resetting both flags: with a selection only the selection (and with it the suggestion and the list's look of focus) is cleared; else non-empty typed text becomes empty with the cursor at 0 and the list rebuilt from search("") focused on row 0; else nothing changes |
| Frame.MainFrame.Accept | terminal_velocity/urwid_ui.py:303-323 | Opens the selected note's path, else nothing for empty text, else the new note's path, else typed text plus extension when the note exists, else nothing; the list is rebuilt from the typed text's search with focus on row 0 while text, cursor, suggestion and selection are kept |
| Frame.MainFrame.Leave | terminal_velocity/urwid_ui.py:325-326 | ctrl x quits and changes nothing but the reset flags |
| Frame.MainFrame.Complete | terminal_velocity/urwid_ui.py:328-332 | When the suggestion is longer than the typed text it becomes the typed text with the cursor at its end, no suggestion, the proposal of its search selected and focused, the list rebuilt, and the key swallowed; otherwise the key goes to the search box as in ForwardToSearchBox |
| Frame.MainFrame.Scroll | terminal_velocity/urwid_ui.py:334-343 | Down on a list that does not look focused selects the focused row's note and swallows the key; any other list key focuses and selects the row the list moved to and returns the key when the list did not use it; text, cursor, rows and cache are unchanged |
| Frame.MainFrame.Erase | terminal_velocity/urwid_ui.py:345-360 | With a selection and typed text empty or not starting its title the suggestion is consumed (when it can be), otherwise the selection is cleared; then, with focusing suppressed, the key goes to the search box; the resulting text, cursor, selection, suggestion, rows and focus are stated for each of the search box's three outcomes |
| Frame.MainFrame.Type | terminal_velocity/urwid_ui.py:362-363 | Any other key goes to the search box as in ForwardToSearchBox, after resetting both flags |
| Frame.MainFrame.CommandKey | terminal_velocity/urwid_ui.py:292-326 | esc / ctrl d as in Cancel, enter as in Accept, ctrl x as in Leave; the key is swallowed |
| Frame.MainFrame.OtherKey | terminal_velocity/urwid_ui.py:328-363 | tab / left / right with a selection as in Complete, list keys as in Scroll, backspace as in Erase, any other key as in Type |
| Frame.MainFrame.Keypress | terminal_velocity/urwid_ui.py:288-363 | Each key class gets its branch's full outcome (Cancelled, Accepted, Completed, Scrolled, Erased, Forwarded); afterwards the engine is consistent, the cache has only grown, filtering is never suppressed, focusing is suppressed exactly after enter and backspace, and only enter and ctrl x have an effect |

## Left out

- `system` and `shlex.quote` (lines 24-44, 305-314): running the editor in a shell is returned as `Open(path)`.
- `quit` (lines 283-286) and the main loop: ctrl x returns the `Quit` effect.
- Rendering: the palette, `placeholder_text`, `NoteWidget.render`, the `render` overrides (lines 104-105, 180-185) and the choice of body placeholder in `filter` (lines 371-375).
- The search box's own `fake_focus` (line 91): it only affects rendering and is never reassigned.
- urwid's `Edit` and `ListBox`: character editing, cursor movement and list scrolling are parameters of the model (what the widget did), not computed.
- The notebook (`search`, `add_new`, `len`, `extension`): its code is not part of this model; search is a parameter, add_new's outcome is a parameter, the extension a constant.
- Python's Unicode `str.lower()`: the model folds ASCII letters only.
- Widget identity: a widget is modelled as the note it shows, so two widgets for equal notes are equal values.
- Frame.MainFrame.Keypress: the down, up and page keys require a non-empty list; the code dereferences a missing focus widget there (line 169) rather than handling it.
- Frame.MainFrame.ListBoxMouseEvent: requires the row clicked to exist, so the model does not cover a click on an empty list, where `on_changed(self.selected_note)` (line 221) dereferences a missing focus widget (line 169) and raises.
- Frame.MainFrame.Consume: line 143 reads `len(self.autocomplete_text)` after `set_edit_text` has re-filtered, so when that re-filter proposes no note the suggestion is None and Python raises TypeError; the model requires instead (`SuggestionRefound`) that the search for the accepted suggestion still finds a note it starts, which fails only when the notebook changed (a note renamed or deleted, say by the editor) since the suggestion was made. When either flag is set the re-filter leaves the suggestion as it was, so no requirement is made then. `move_cursor_to_coords` is modelled as placing the cursor at the column given, clamped to the single line of text.
- Frame.MainFrame.Complete: inherits Consume's requirement that the suggestion is still found by its own search.
- Frame.MainFrame.Erase: inherits Consume's requirement when backspace consumes.
- NoteList.FirstIndexOf: notes are compared as whole values (path, title and modification time), as `widget.note == note` (line 209) is read here; the notebook's note class, which defines that equality, is not part of this model. A cached widget keeps the note it was made for, so after a note's title or modification time changes its row no longer equals the fresh proposal, and `FocusAfter` leaves the focus on row 0.
