/**
 * The search/select/create engine of the console UI: the search box's typed
 * text and suggestion, the note list box's rows, cache and focus, and the main
 * frame's selected note and suppression flags, all held by one object.
 *
 * urwid's "change" signal of the search box is connected to MainFrame.filter;
 * here every change of the typed text is followed by an explicit call to Filter.
 */
module Frame {
  import opened Wrappers
  import opened CaseFold
  import opened Notes
  import opened NoteList

  /** The keys MainFrame.keypress tells apart; every other key is `Other`. */
  datatype Key =
    | Esc | CtrlD | Enter | CtrlX | Tab | Left | Right
    | Down | Up | PageUp | PageDown | Backspace
    | Other(name: string)  // any key not named above; `name` is never one of them
  {
    /** "esc" and "ctrl d" */
    predicate Cancels() { Esc? || CtrlD? }
    /** "tab", "left" and "right": the keys that accept the suggestion */
    predicate Completes() { Tab? || Left? || Right? }
    /** the keys that move through the note list */
    predicate Scrolls() { Down? || Up? || PageUp? || PageDown? }
  }

  /** What urwid's Edit.keypress did with a key it was given. */
  datatype EditResult =
    | Unhandled                          // returned the key
    | MovedTo(pos: nat)                  // moved the cursor only
    | Replaced(text: string, pos: nat)   // set new text (firing "change") and cursor

  /** Outcome of the notebook's add_new(title). */
  datatype Creation = Created(note: Note) | AlreadyExists | InvalidTitle

  /** What a keypress asks of the outside world. */
  datatype Effect = NoEffect | Open(path: string) | Quit

  /** urwid clamps a cursor position to the length of the text. */
  function Clamp(pos: nat, bound: nat): nat
  {
    if pos <= bound then pos else bound
  }

  function TitleOf(note: Option<Note>): Option<string>
  {
    match note
    case Some(n) => Some(n.title)
    case None => None
  }

  /** The condition of AutocompleteWidget.consume: a suggestion longer than the typed text. */
  predicate CanConsume(typed: string, suggestion: Option<string>)
  {
    suggestion.Some? && suggestion.value != "" && |typed| < |suggestion.value|
  }

  /**
   * The `consume` flag of the backspace branch: a note is selected and the typed
   * text is empty or is not the start of its title up to case.
   */
  predicate BackspaceConsumes(selected: Option<Note>, typed: string)
  {
    selected.Some? && (typed == "" || !StartsWithCI(selected.value.title, typed))
  }

  /**
   * The loop of MainFrame.filter that gathers `autocompletable_matches`: with a
   * non-empty query, the notes whose title starts with it up to case, in order.
   */
  method CollectAutocompletable(matching: seq<Note>, query: string) returns (matches: seq<Note>)
    ensures matches == Autocompletable(matching, query)
    ensures forall n :: n in matches <==> query != "" && n in matching && StartsWithCI(n.title, query)
  {
    matches := [];
    if query != "" {
      var i := 0;
      while i < |matching|
        invariant 0 <= i <= |matching|
        invariant matches == Keep(matching[..i], TitlePrefix(query))
      {
        KeepExtend(matching, i, TitlePrefix(query));
        if StartsWithCI(matching[i].title, query) {
          matches := matches + [matching[i]];
        }
        i := i + 1;
      }
      assert matching[..i] == matching;
      KeepMembers(matching, TitlePrefix(query));
    }
  }

  class MainFrame {
    /** notebook.extension, appended to the typed text when the note already exists */
    const extension: string

    // AutocompleteWidget
    var editText: string
    var cursor: nat
    var autocompleteText: Option<string>

    // NoteFilterListBox: the list walker's widgets and focus, the widget cache, fake focus
    var walker: seq<NoteWidget>
    var focus: nat
    var widgets: map<string, NoteWidget>
    var listFakeFocus: bool

    // MainFrame
    var selected: Option<Note>
    var suppressFilter: bool
    var suppressFocus: bool

    /** The invariants urwid and the cache maintain. */
    ghost predicate WellFormed()
      reads this`cursor, this`editText, this`walker, this`focus, this`widgets
    {
      && cursor <= |editText|
      && (if walker == [] then focus == 0 else focus < |walker|)
      && Keyed(widgets)
      && forall i :: 0 <= i < |walker| ==>
           walker[i].note.abspath in widgets && widgets[walker[i].note.abspath] == walker[i]
    }

    /**
     * The suggestion, when there is one, is the selected note's title, and the
     * list looks focused exactly when a note is selected.
     */
    ghost predicate Consistent()
      reads this`autocompleteText, this`selected, this`listFakeFocus
    {
      && (autocompleteText.Some? ==> selected.Some? && autocompleteText.value == selected.value.title)
      && (listFakeFocus <==> selected.Some?)
    }

    ghost predicate Valid()
      reads this`cursor, this`editText, this`walker, this`focus, this`widgets,
        this`autocompleteText, this`selected, this`listFakeFocus
    {
      WellFormed() && Consistent()
    }

    /** Nothing of the engine's state changed (the suppression flags aside). */
    twostate predicate Kept()
      reads this
    {
      && editText == old(editText) && cursor == old(cursor) && autocompleteText == old(autocompleteText)
      && walker == old(walker) && focus == old(focus) && widgets == old(widgets)
      && listFakeFocus == old(listFakeFocus) && selected == old(selected)
    }

    /** The widget cache only grew: old entries are all still there, unreplaced. */
    twostate predicate CacheGrown()
      reads this`widgets
    {
      old(widgets).Keys <= widgets.Keys && forall p :: p in old(widgets) ==> widgets[p] == old(widgets)[p]
    }

    /** The selected_note setter's result for `note`, from list focus `focusBefore`. */
    ghost predicate Shows(note: Option<Note>, focusBefore: nat)
      reads this`selected, this`autocompleteText, this`listFakeFocus, this`focus, this`walker
    {
      && selected == note && autocompleteText == TitleOf(note) && listFakeFocus == note.Some?
      && focus == (if note.Some? then FocusAfter(walker, note.value, focusBefore) else focusBefore)
    }

    /**
     * The list and selection after MainFrame.filter(query) with search result
     * `found`: unchanged when filtering is suppressed; otherwise the list is
     * rebuilt from the newest-first result and, unless focusing is suppressed,
     * the proposed note is selected.
     */
    twostate predicate Refiltered(query: string, found: seq<Note>)
      reads this`walker, this`widgets, this`focus, this`selected, this`listFakeFocus
      reads this`suppressFilter, this`suppressFocus
    {
      if suppressFilter then
        && walker == old(walker) && widgets == old(widgets) && focus == old(focus)
        && selected == old(selected) && listFakeFocus == old(listFakeFocus)
      else
        var r := Rebuild(old(widgets), SortNewestFirst(found));
        && widgets == r.cache && walker == r.shown
        && Lists(walker, SortNewestFirst(found))
        && if suppressFocus then
             selected == old(selected) && listFakeFocus == old(listFakeFocus) && focus == 0
           else
             var p := Proposal(found, query);
             && selected == p && listFakeFocus == p.Some?
             && focus == (if p.Some? then FocusAfter(walker, p.value, 0) else 0)
    }

    /** MainFrame.__init__: empty search box, nothing selected, then filter(""). */
    constructor (extension: string, search: string -> seq<Note>)
      ensures Valid()
      ensures this.extension == extension
      ensures editText == "" && cursor == 0 && autocompleteText == None
      ensures selected == None && !listFakeFocus && !suppressFilter && !suppressFocus
      ensures widgets == Rebuild(map[], SortNewestFirst(search(""))).cache
      ensures walker == Rebuild(map[], SortNewestFirst(search(""))).shown && focus == 0
    {
      this.extension := extension;
      suppressFilter, suppressFocus := false, false;
      selected := None;
      editText, cursor, autocompleteText := "", 0, None;
      walker, focus, widgets, listFakeFocus := [], 0, map[], false;
      new;
      Filter(editText, search);
    }

    /** NoteFilterListBox.selected_note: the note of the focused row. */
    function FocusedNote(): (n: Note)
      reads this
      requires WellFormed() && walker != []
      ensures n.abspath in widgets && widgets[n.abspath].note == n
      ensures exists i :: 0 <= i < |walker| && walker[i].note == n
    {
      walker[focus].note
    }

    /**
     * NoteFilterListBox.filter: show one row per note, reusing the cached widget
     * of a known path and caching a new widget for an unknown one. The cleared
     * and refilled walker has its focus on the first row.
     */
    method FilterList(notes: seq<Note>)
      requires WellFormed()
      modifies this`walker, this`widgets, this`focus
      ensures WellFormed()
      ensures widgets == Rebuild(old(widgets), notes).cache
      ensures walker == Rebuild(old(widgets), notes).shown
      ensures Lists(walker, notes)
      ensures focus == 0
    {
      var matching := CacheWidgets(notes);
      ReplaceRows(matching);
      RebuildRowsCached(old(widgets), notes);
      RebuildLists(old(widgets), notes);
    }

    /** The first loop of NoteFilterListBox.filter: look up or create each note's widget. */
    method CacheWidgets(notes: seq<Note>) returns (matching: seq<NoteWidget>)
      modifies this`widgets
      ensures widgets == Rebuild(old(widgets), notes).cache
      ensures matching == Rebuild(old(widgets), notes).shown
    {
      ghost var target := Rebuild(widgets, notes);
      matching := [];
      var i := 0;
      while i < |notes|
        invariant 0 <= i <= |notes|
        invariant Rebuild(widgets, notes[i..]).cache == target.cache
        invariant matching + Rebuild(widgets, notes[i..]).shown == target.shown
      {
        var n := notes[i];
        var cache := if n.abspath in widgets then widgets else widgets[n.abspath := NoteWidget(n)];
        RebuildAdvance(widgets, notes, i, matching, target);
        matching := matching + [cache[n.abspath]];
        widgets := cache;
        i := i + 1;
      }
      assert notes[i..] == [];
      assert Rebuild(widgets, notes[i..]) == Listing(widgets, []);
    }

    /** `del list_walker[:]` and the appending loop: the walker shows `rows`, focused on the first. */
    method ReplaceRows(rows: seq<NoteWidget>)
      modifies this`walker, this`focus
      ensures walker == rows && focus == 0
    {
      walker := [];
      focus := 0;
      var j := 0;
      while j < |rows|
        invariant 0 <= j <= |rows|
        invariant walker == rows[..j] && focus == 0
      {
        walker := walker + [rows[j]];
        j := j + 1;
      }
    }

    /**
     * NoteFilterListBox.focus_note: focus the first row showing `note`; the
     * focus stays where it is when no row does.
     */
    method FocusNote(note: Note)
      requires WellFormed()
      modifies this`focus
      ensures WellFormed()
      ensures focus == FocusAfter(walker, note, old(focus))
    {
      var i := 0;
      while i < |walker|
        invariant 0 <= i <= |walker|
        invariant forall j :: 0 <= j < i ==> walker[j].note != note
      {
        if walker[i].note == note {
          focus := i;
          return;
        }
        i := i + 1;
      }
    }

    /**
     * The MainFrame.selected_note setter: unless focusing is suppressed, the
     * suggestion becomes the note's title (or None), the list looks focused
     * exactly when there is a note, the list focuses the note, and the note
     * becomes the selection.
     */
    method SetSelectedNote(note: Option<Note>)
      requires WellFormed()
      modifies this
      ensures WellFormed()
      ensures old(suppressFocus) ==> unchanged(this)
      ensures !old(suppressFocus) ==> Shows(note, old(focus)) && Consistent()
      ensures editText == old(editText) && cursor == old(cursor)
      ensures walker == old(walker) && widgets == old(widgets)
      ensures suppressFilter == old(suppressFilter) && suppressFocus == old(suppressFocus)
    {
      if suppressFocus {
        return;
      }
      if note.Some? {
        autocompleteText := Some(note.value.title);
        listFakeFocus := true;
        FocusNote(note.value);
      } else {
        autocompleteText := None;
        listFakeFocus := false;
      }
      selected := note;
    }

    /**
     * MainFrame.filter: unless suppressed, sort the notebook's search result
     * newest first, rebuild the list from it, and select the first note whose
     * title starts with the (non-empty) query up to case, or nothing.
     */
    method Filter(query: string, search: string -> seq<Note>)
      requires Valid()
      modifies this
      ensures Valid()
      ensures CacheGrown()
      ensures Refiltered(query, search(query))
      ensures autocompleteText ==
                if !suppressFilter && !suppressFocus then TitleOf(selected) else old(autocompleteText)
      ensures editText == old(editText) && cursor == old(cursor)
      ensures suppressFilter == old(suppressFilter) && suppressFocus == old(suppressFocus)
    {
      if suppressFilter {
        return;
      }
      var matching := SortNewestFirst(search(query));
      FilterList(matching);
      RebuildGrowsCache(old(widgets), matching);

      var autocompletable := CollectAutocompletable(matching, query);
      assert First(autocompletable) == Proposal(search(query), query);

      if autocompletable != [] {
        SetSelectedNote(Some(autocompletable[0]));
      } else {
        SetSelectedNote(None);
      }
    }

    /**
     * Edit.set_edit_text followed by the "change" signal's handler
     * (on_search_box_changed, which filters on the new text).
     */
    method SetEditText(text: string, search: string -> seq<Note>)
      requires Valid()
      modifies this
      ensures Valid()
      ensures CacheGrown()
      ensures editText == text && cursor == Clamp(old(cursor), |text|)
      ensures Refiltered(text, search(text))
      ensures autocompleteText ==
                if !suppressFilter && !suppressFocus then TitleOf(selected) else old(autocompleteText)
      ensures suppressFilter == old(suppressFilter) && suppressFocus == old(suppressFocus)
    {
      editText := text;
      cursor := Clamp(cursor, |text|);
      Filter(text, search);
    }

    /**
     * The notebook still holds a note for the suggestion: when consume would
     * accept it, the re-filter on it proposes a note. Line 143 reads the
     * suggestion again after that re-filter; with no proposal it reads None
     * and fails.
     */
    ghost predicate SuggestionRefound(search: string -> seq<Note>)
      reads this`editText, this`autocompleteText
    {
      CanConsume(editText, autocompleteText) ==>
        Proposal(search(autocompleteText.value), autocompleteText.value).Some?
    }

    /**
     * AutocompleteWidget.consume: when the suggestion is longer than the typed
     * text it becomes the typed text, which fires the "change" signal and so
     * re-filters on it; the cursor goes to the column of the length of the
     * suggestion as it is after that re-filter, which is at least as long as the
     * text, so the cursor ends at the end of the text; the suggestion is then
     * dropped. Otherwise nothing changes.
     */
    method Consume(search: string -> seq<Note>) returns (consumed: bool)
      requires Valid()
      requires !suppressFilter && !suppressFocus ==> SuggestionRefound(search)
      modifies this
      ensures Valid()
      ensures CacheGrown()
      ensures consumed == CanConsume(old(editText), old(autocompleteText))
      ensures !consumed ==> unchanged(this)
      ensures consumed ==>
                && editText == old(autocompleteText).value && cursor == |editText|
                && autocompleteText == None
                && Refiltered(editText, search(editText))
      ensures |old(editText)| <= |editText|
      ensures suppressFilter == old(suppressFilter) && suppressFocus == old(suppressFocus)
    {
      if autocompleteText.Some? && autocompleteText.value != "" && |editText| < |autocompleteText.value| {
        var suggestion := autocompleteText.value;
        SetEditText(suggestion, search);
        assert Refiltered(suggestion, search(suggestion));
        if !suppressFilter && !suppressFocus {
          ProposalIsNewestMatch(search(suggestion), suggestion);
          StartsWithCIFacts(selected.value.title, suggestion);
        }
        cursor := Clamp(|autocompleteText.value|, |editText|);
        autocompleteText := None;
        consumed := true;
      } else {
        consumed := false;
      }
    }

    /**
     * Passing a key to the search box (`search_box.keypress`): urwid's Edit
     * either returns the key, moves the cursor, or sets new text, which fires
     * the "change" signal and so filters on it.
     */
    method ForwardToSearchBox(key: Key, edit: EditResult, search: string -> seq<Note>)
      returns (unhandled: Option<Key>)
      requires Valid()
      modifies this
      ensures Valid()
      ensures CacheGrown()
      ensures unhandled == (if edit.Unhandled? then Some(key) else None)
      ensures edit.Unhandled? ==> unchanged(this)
      ensures edit.MovedTo? ==>
                && cursor == Clamp(edit.pos, |editText|)
                && unchanged(this`editText, this`autocompleteText, this`walker, this`widgets)
                && unchanged(this`focus, this`listFakeFocus, this`selected)
      ensures edit.Replaced? ==>
                && editText == edit.text && cursor == Clamp(edit.pos, |edit.text|)
                && Refiltered(edit.text, search(edit.text))
                && autocompleteText ==
                     if !suppressFilter && !suppressFocus then TitleOf(selected) else old(autocompleteText)
      ensures suppressFilter == old(suppressFilter) && suppressFocus == old(suppressFocus)
    {
      match edit
      case Unhandled =>
        unhandled := Some(key);
      case MovedTo(pos) =>
        cursor := Clamp(pos, |editText|);
        unhandled := None;
      case Replaced(text, pos) =>
        SetEditText(text, search);
        cursor := Clamp(pos, |editText|);
        unhandled := None;
    }

    /**
     * NoteFilterListBox.keypress: urwid's ListBox moves the focus to row `moveTo`
     * and reports whether it used the key; then on_changed (the main frame's
     * on_list_box_changed) selects the focused row's note.
     */
    method ListBoxKeypress(key: Key, moveTo: nat, handled: bool) returns (unhandled: Option<Key>)
      requires Valid() && moveTo < |walker|
      modifies this
      ensures Valid()
      ensures unhandled == (if handled then None else Some(key))
      ensures old(suppressFocus) ==> focus == moveTo && unchanged(this`selected, this`autocompleteText, this`listFakeFocus)
      ensures !old(suppressFocus) ==> Shows(Some(old(walker)[moveTo].note), moveTo)
      ensures editText == old(editText) && cursor == old(cursor)
      ensures walker == old(walker) && widgets == old(widgets)
      ensures suppressFilter == old(suppressFilter) && suppressFocus == old(suppressFocus)
    {
      focus := moveTo;
      SetSelectedNote(Some(FocusedNote()));
      unhandled := if handled then None else Some(key);
    }

    /**
     * NoteFilterListBox.mouse_event: like a list keypress, the focus moves to
     * row `moveTo` and on_changed selects its note. Mouse events do not reset
     * the suppression flags, so after Enter or Backspace the selection stays.
     */
    method ListBoxMouseEvent(moveTo: nat, handled: bool) returns (result: bool)
      requires Valid() && moveTo < |walker|
      modifies this
      ensures Valid()
      ensures result == handled
      ensures old(suppressFocus) ==> focus == moveTo && unchanged(this`selected, this`autocompleteText, this`listFakeFocus)
      ensures !old(suppressFocus) ==> Shows(Some(old(walker)[moveTo].note), moveTo)
      ensures editText == old(editText) && cursor == old(cursor)
      ensures walker == old(walker) && widgets == old(widgets)
      ensures suppressFilter == old(suppressFilter) && suppressFocus == old(suppressFocus)
    {
      focus := moveTo;
      SetSelectedNote(Some(FocusedNote()));
      result := handled;
    }

    /**
     * The outcome of esc / ctrl d: with a selection only the selection is
     * cleared; else non-empty typed text is cleared, which re-filters on "" and
     * so proposes nothing; else nothing changes.
     */
    twostate predicate Cancelled(search: string -> seq<Note>)
      reads this
    {
      if old(selected).Some? then
        && selected == None && autocompleteText == None && !listFakeFocus
        && editText == old(editText) && cursor == old(cursor)
        && walker == old(walker) && widgets == old(widgets) && focus == old(focus)
      else if old(editText) != "" then
        var r := Rebuild(old(widgets), SortNewestFirst(search("")));
        && editText == "" && cursor == 0
        && selected == None && autocompleteText == None && !listFakeFocus
        && widgets == r.cache && walker == r.shown && focus == 0
      else
        Kept()
    }

    /**
     * The outcome of enter: the path to open (the selected note's, else the new
     * note's, else the typed text plus the extension when that note exists,
     * else none), and a re-filter on the typed text that keeps the selection
     * because focusing is suppressed.
     */
    twostate predicate Accepted(search: string -> seq<Note>, creation: Creation, new effect: Effect)
      reads this
    {
      var r := Rebuild(old(widgets), SortNewestFirst(search(old(editText))));
      && effect == (if old(selected).Some? then Open(old(selected).value.abspath)
                    else if old(editText) == "" then NoEffect
                    else match creation
                         case Created(n) => Open(n.abspath)
                         case AlreadyExists => Open(old(editText) + extension)
                         case InvalidTitle => NoEffect)
      && editText == old(editText) && cursor == old(cursor)
      && selected == old(selected) && autocompleteText == old(autocompleteText)
      && listFakeFocus == old(listFakeFocus)
      && widgets == r.cache && walker == r.shown && focus == 0
    }

    /**
     * The outcome of tab / left / right with a selection: a suggestion longer
     * than the typed text becomes the typed text, re-filtered on (proposing
     * the newest note it starts), with the cursor at its end and no suggestion
     * shown; otherwise the key goes to the search box.
     */
    twostate predicate Completed(key: Key, edit: EditResult, search: string -> seq<Note>,
                                 new unhandled: Option<Key>)
      reads this
    {
      if CanConsume(old(editText), old(autocompleteText)) then
        var text := old(autocompleteText).value;
        var r := Rebuild(old(widgets), SortNewestFirst(search(text)));
        && unhandled == None
        && editText == text && cursor == |text| && autocompleteText == None
        && selected == Proposal(search(text), text) && listFakeFocus == selected.Some?
        && widgets == r.cache && walker == r.shown
        && focus == (if selected.Some? then FocusAfter(walker, selected.value, 0) else 0)
      else
        Forwarded(key, edit, search, unhandled)
    }

    /**
     * The outcome of a list key: down on a list that does not look focused
     * selects the focused row's note; any other list key moves the focus to
     * `moveTo` and selects that row's note. Text, cursor and rows are untouched.
     */
    twostate predicate Scrolled(key: Key, moveTo: nat, handled: bool, new unhandled: Option<Key>)
      reads this
    {
      && old(focus) < |old(walker)| && moveTo < |old(walker)|
      && editText == old(editText) && cursor == old(cursor)
      && walker == old(walker) && widgets == old(widgets)
      && if key.Down? && !old(listFakeFocus) then
           unhandled == None && Shows(Some(old(walker)[old(focus)].note), old(focus))
         else
           unhandled == (if handled then None else Some(key)) && Shows(Some(old(walker)[moveTo].note), moveTo)
    }

    /**
     * The outcome of backspace. First, with a selection and typed text that is
     * empty or does not start its title, consume runs (re-filtering on the
     * suggestion when it is accepted); otherwise the selection is cleared. Then,
     * with focusing suppressed, the key goes to the search box: the selection
     * stays, and new text re-filters the list and puts the focus on row 0.
     */
    twostate predicate Erased(edit: EditResult, search: string -> seq<Note>, new unhandled: Option<Key>)
      reads this
    {
      var consumes := BackspaceConsumes(old(selected), old(editText));
      var consumed := consumes && CanConsume(old(editText), old(autocompleteText));
      var typed := if consumed then old(autocompleteText).value else old(editText);
      var listed := if consumed then Rebuild(old(widgets), SortNewestFirst(search(typed)))
                    else Listing(old(widgets), old(walker));
      && unhandled == (if edit.Unhandled? then Some(Backspace) else None)
      && (!consumes ==> selected == None && autocompleteText == None && !listFakeFocus)
      && (consumed ==>
            selected == Proposal(search(typed), typed) && autocompleteText == None
            && listFakeFocus == selected.Some?)
      && (consumes && !consumed ==>
            selected == old(selected) && autocompleteText == old(autocompleteText)
            && listFakeFocus == old(listFakeFocus))
      && editText == (if edit.Replaced? then edit.text else typed)
      && cursor == (match edit
                    case Unhandled => if consumed then |typed| else old(cursor)
                    case MovedTo(pos) => Clamp(pos, |typed|)
                    case Replaced(text, pos) => Clamp(pos, |text|))
      && if edit.Replaced? then
           var r := Rebuild(listed.cache, SortNewestFirst(search(edit.text)));
           widgets == r.cache && walker == r.shown && focus == 0
         else
           && widgets == listed.cache && walker == listed.shown
           && focus == (if !consumed then old(focus)
                        else if selected.Some? then FocusAfter(walker, selected.value, 0)
                        else 0)
    }

    /** MainFrame.keypress for esc and ctrl d, from resetting both flags on. */
    method Cancel(search: string -> seq<Note>)
      requires Valid()
      modifies this
      ensures Valid()
      ensures CacheGrown()
      ensures !suppressFilter && !suppressFocus
      ensures Cancelled(search)
    {
      suppressFilter, suppressFocus := false, false;
      if selected.Some? {
        SetSelectedNote(None);
      } else if editText != "" {
        SetEditText("", search);
      }
    }

    /** MainFrame.keypress for enter, from resetting both flags on. */
    method Accept(search: string -> seq<Note>, creation: Creation) returns (effect: Effect)
      requires Valid()
      modifies this
      ensures Valid()
      ensures CacheGrown()
      ensures !suppressFilter && suppressFocus
      ensures Accepted(search, creation, effect)
    {
      suppressFilter, suppressFocus := false, false;
      effect := NoEffect;
      if selected.Some? {
        effect := Open(selected.value.abspath);
      } else if editText != "" {
        match creation
        case Created(n) => effect := Open(n.abspath);
        case AlreadyExists => effect := Open(editText + extension);
        case InvalidTitle =>
      }
      suppressFocus := true;
      Filter(editText, search);
    }

    /**
     * MainFrame.keypress for tab, left and right while a note is selected, from
     * resetting both flags on.
     */
    method Complete(key: Key, edit: EditResult, search: string -> seq<Note>) returns (unhandled: Option<Key>)
      requires Valid() && SuggestionRefound(search)
      modifies this
      ensures Valid()
      ensures CacheGrown()
      ensures !suppressFilter && !suppressFocus
      ensures Completed(key, edit, search, unhandled)
    {
      suppressFilter, suppressFocus := false, false;
      var consumed := Consume(search);
      if consumed {
        unhandled := None;
      } else {
        unhandled := ForwardToSearchBox(key, edit, search);
      }
    }

    /**
     * MainFrame.keypress for down, up, page up and page down, from resetting
     * both flags on: a list that does not look focused is made to on down,
     * selecting its focused note; otherwise the list box takes the key.
     */
    method Scroll(key: Key, moveTo: nat, handled: bool) returns (unhandled: Option<Key>)
      requires Valid() && key.Scrolls() && moveTo < |walker|
      modifies this
      ensures Valid()
      ensures CacheGrown()
      ensures !suppressFilter && !suppressFocus
      ensures Scrolled(key, moveTo, handled, unhandled)
    {
      suppressFilter, suppressFocus := false, false;
      if key.Down? && !listFakeFocus {
        listFakeFocus := true;
        SetSelectedNote(Some(FocusedNote()));
        unhandled := None;
      } else {
        unhandled := ListBoxKeypress(key, moveTo, handled);
      }
    }

    /** MainFrame.keypress for backspace, from resetting both flags on. */
    method Erase(edit: EditResult, search: string -> seq<Note>) returns (unhandled: Option<Key>)
      requires Valid()
      requires BackspaceConsumes(selected, editText) ==> SuggestionRefound(search)
      modifies this
      ensures Valid()
      ensures CacheGrown()
      ensures !suppressFilter && suppressFocus
      ensures Erased(edit, search, unhandled)
    {
      suppressFilter, suppressFocus := false, false;
      var consume := false;
      if selected.Some? {
        if editText == "" {
          consume := true;
        } else {
          var title := Lower(selected.value.title);
          var typed := Lower(editText);
          if !(typed <= title) {
            consume := true;
          }
        }
      }
      if consume {
        var _ := Consume(search);
      } else {
        SetSelectedNote(None);
      }
      suppressFocus := true;
      unhandled := ForwardToSearchBox(Backspace, edit, search);
    }

    /** MainFrame.keypress for ctrl x, from resetting both flags on: quit, changing nothing. */
    method Leave() returns (effect: Effect)
      requires Valid()
      modifies this`suppressFilter, this`suppressFocus
      ensures !suppressFilter && !suppressFocus
      ensures effect == Quit
    {
      suppressFilter, suppressFocus := false, false;
      effect := Quit;
    }

    /**
     * MainFrame.keypress for every key it does not name (and tab, left and right
     * without a selection), from resetting both flags on: the search box takes it.
     */
    method Type(key: Key, edit: EditResult, search: string -> seq<Note>) returns (unhandled: Option<Key>)
      requires Valid()
      modifies this
      ensures Valid()
      ensures CacheGrown()
      ensures !suppressFilter && !suppressFocus
      ensures Forwarded(key, edit, search, unhandled)
    {
      suppressFilter, suppressFocus := false, false;
      unhandled := ForwardToSearchBox(key, edit, search);
    }

    /**
     * MainFrame.keypress: reset both suppression flags, then act on the key.
     * Each branch method below starts with the reset.
     *
     * `search` is the notebook's search; `creation` the outcome of add_new;
     * `edit` what urwid's Edit does with a key passed to it; `moveTo` and
     * `handledByList` what urwid's ListBox does with a list key.
     */
    method Keypress(key: Key, search: string -> seq<Note>, creation: Creation, edit: EditResult,
                    moveTo: nat, handledByList: bool)
      returns (unhandled: Option<Key>, effect: Effect)
      requires Valid()
      requires key.Scrolls() ==> moveTo < |walker|
      requires key.Completes() && selected.Some? ==> SuggestionRefound(search)
      requires key.Backspace? && BackspaceConsumes(selected, editText) ==> SuggestionRefound(search)
      modifies this
      ensures Valid()
      ensures CacheGrown()
      ensures !suppressFilter
      ensures suppressFocus == (key.Enter? || key.Backspace?)
      ensures !key.Enter? && !key.CtrlX? ==> effect == NoEffect
      ensures key.Cancels() ==> unhandled == None && Cancelled(search)
      ensures key.Enter? ==> unhandled == None && Accepted(search, creation, effect)
      ensures key.CtrlX? ==> unhandled == None && effect == Quit && Kept()
      ensures key.Completes() && old(selected).Some? ==> Completed(key, edit, search, unhandled)
      ensures key.Scrolls() ==> Scrolled(key, moveTo, handledByList, unhandled)
      ensures key.Backspace? ==> Erased(edit, search, unhandled)
      ensures key.Other? || (key.Completes() && old(selected).None?) ==> Forwarded(key, edit, search, unhandled)
    {
      if key.Cancels() || key.Enter? || key.CtrlX? {
        unhandled, effect := CommandKey(key, search, creation);
      } else {
        unhandled := OtherKey(key, search, edit, moveTo, handledByList);
        effect := NoEffect;
      }
    }

    /** MainFrame.keypress for esc, ctrl d, enter and ctrl x. */
    method CommandKey(key: Key, search: string -> seq<Note>, creation: Creation)
      returns (unhandled: Option<Key>, effect: Effect)
      requires Valid() && (key.Cancels() || key.Enter? || key.CtrlX?)
      modifies this
      ensures Valid()
      ensures CacheGrown()
      ensures !suppressFilter && suppressFocus == key.Enter?
      ensures unhandled == None
      ensures key.Cancels() ==> effect == NoEffect && Cancelled(search)
      ensures key.Enter? ==> Accepted(search, creation, effect)
      ensures key.CtrlX? ==> effect == Quit && Kept()
    {
      unhandled, effect := None, NoEffect;
      if key.Cancels() {
        Cancel(search);
      } else if key.Enter? {
        effect := Accept(search, creation);
      } else {
        effect := Leave();
      }
    }

    /** MainFrame.keypress for every key but esc, ctrl d, enter and ctrl x. */
    method OtherKey(key: Key, search: string -> seq<Note>, edit: EditResult, moveTo: nat, handledByList: bool)
      returns (unhandled: Option<Key>)
      requires Valid() && !key.Cancels() && !key.Enter? && !key.CtrlX?
      requires key.Scrolls() ==> moveTo < |walker|
      requires key.Completes() && selected.Some? ==> SuggestionRefound(search)
      requires key.Backspace? && BackspaceConsumes(selected, editText) ==> SuggestionRefound(search)
      modifies this
      ensures Valid()
      ensures CacheGrown()
      ensures !suppressFilter && suppressFocus == key.Backspace?
      ensures key.Completes() && old(selected).Some? ==> Completed(key, edit, search, unhandled)
      ensures key.Scrolls() ==> Scrolled(key, moveTo, handledByList, unhandled)
      ensures key.Backspace? ==> Erased(edit, search, unhandled)
      ensures key.Other? || (key.Completes() && old(selected).None?) ==> Forwarded(key, edit, search, unhandled)
    {
      if selected.Some? && key.Completes() {
        unhandled := Complete(key, edit, search);
      } else if key.Scrolls() {
        unhandled := Scroll(key, moveTo, handledByList);
      } else if key.Backspace? {
        unhandled := Erase(edit, search);
      } else {
        unhandled := Type(key, edit, search);
      }
    }

    /**
     * The state after passing `key` to the search box with the flags reset:
     * the key comes back with nothing changed, or the cursor moves, or new text
     * re-filters the list and selects the proposed note.
     */
    twostate predicate Forwarded(key: Key, edit: EditResult, search: string -> seq<Note>, new unhandled: Option<Key>)
      reads this
    {
      match edit
      case Unhandled => unhandled == Some(key) && Kept()
      case MovedTo(pos) =>
        && unhandled == None && cursor == Clamp(pos, |editText|)
        && editText == old(editText) && autocompleteText == old(autocompleteText)
        && walker == old(walker) && widgets == old(widgets) && focus == old(focus)
        && listFakeFocus == old(listFakeFocus) && selected == old(selected)
      case Replaced(text, pos) =>
        var r := Rebuild(old(widgets), SortNewestFirst(search(text)));
        && unhandled == None && editText == text && cursor == Clamp(pos, |text|)
        && Shows(Proposal(search(text), text), 0)
        && widgets == r.cache && walker == r.shown
    }
  }
}
