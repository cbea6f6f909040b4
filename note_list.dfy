/**
 * The note list box's contents: the widget cache keyed by note path that
 * NoteFilterListBox.filter fills, the list of widgets it shows, and the
 * search focus_note makes for a note's widget.
 */
module NoteList {
  import opened Wrappers
  import opened Notes

  /** A list row; it keeps the note it was built for. */
  datatype NoteWidget = NoteWidget(note: Note)

  /** The cache `widgets`: every entry is filed under its own note's path. */
  ghost predicate Keyed(cache: map<string, NoteWidget>)
  {
    forall p :: p in cache ==> cache[p].note.abspath == p
  }

  function PathsOf(notes: seq<Note>): set<string>
  {
    set n | n in notes :: n.abspath
  }

  /** The cache after a filter pass, and the widgets the list then shows. */
  datatype Listing = Listing(cache: map<string, NoteWidget>, shown: seq<NoteWidget>)

  /**
   * One pass of NoteFilterListBox.filter over `notes`: the cached widget of each
   * note, and a new widget, put in the cache, for a path seen for the first time.
   */
  function Rebuild(cache: map<string, NoteWidget>, notes: seq<Note>): (r: Listing)
    ensures |r.shown| == |notes|
    decreases |notes|
  {
    if notes == [] then Listing(cache, [])
    else
      var n := notes[0];
      var c := if n.abspath in cache then cache else cache[n.abspath := NoteWidget(n)];
      var rest := Rebuild(c, notes[1..]);
      Listing(rest.cache, [c[n.abspath]] + rest.shown)
  }

  lemma PathsOfCons(notes: seq<Note>)
    requires notes != []
    ensures PathsOf(notes) == {notes[0].abspath} + PathsOf(notes[1..])
  {
    assert forall m :: m in notes[1..] ==> m in notes;
    assert forall m :: m in notes ==> m == notes[0] || m in notes[1..];
  }

  /** The cache only grows: it keeps every old entry and gains exactly the listed paths. */
  lemma {:induction false} RebuildGrowsCache(cache: map<string, NoteWidget>, notes: seq<Note>)
    ensures Rebuild(cache, notes).cache.Keys == cache.Keys + PathsOf(notes)
    ensures forall p :: p in cache ==> Rebuild(cache, notes).cache[p] == cache[p]
    decreases |notes|
  {
    if notes != [] {
      var n := notes[0];
      var c := if n.abspath in cache then cache else cache[n.abspath := NoteWidget(n)];
      RebuildGrowsCache(c, notes[1..]);
      PathsOfCons(notes);
    }
  }

  /** Row i of the rebuilt list is the cache's widget for the path of note i. */
  lemma {:induction false} RebuildShowsCached(cache: map<string, NoteWidget>, notes: seq<Note>)
    ensures forall i :: 0 <= i < |notes| ==>
              notes[i].abspath in Rebuild(cache, notes).cache
              && Rebuild(cache, notes).shown[i] == Rebuild(cache, notes).cache[notes[i].abspath]
    decreases |notes|
  {
    if notes != [] {
      var n := notes[0];
      var c := if n.abspath in cache then cache else cache[n.abspath := NoteWidget(n)];
      RebuildShowsCached(c, notes[1..]);
      RebuildGrowsCache(c, notes[1..]);
      forall i | 0 < i < |notes| ensures notes[i] == notes[1..][i - 1] { }
    }
  }

  /** A pass keeps the cache filed by path. */
  lemma {:induction false} RebuildKeyed(cache: map<string, NoteWidget>, notes: seq<Note>)
    requires Keyed(cache)
    ensures Keyed(Rebuild(cache, notes).cache)
    decreases |notes|
  {
    if notes != [] {
      var n := notes[0];
      var c := if n.abspath in cache then cache else cache[n.abspath := NoteWidget(n)];
      RebuildKeyed(c, notes[1..]);
    }
  }

  /**
   * A path the cache did not hold gets the widget of the first note listed
   * with that path: later notes of the same path reuse it.
   */
  lemma {:induction false} RebuildNewEntry(cache: map<string, NoteWidget>, notes: seq<Note>, p: string)
    requires p in PathsOf(notes) && p !in cache
    ensures p in Rebuild(cache, notes).cache
    ensures exists k :: 0 <= k < |notes| && notes[k].abspath == p
              && Rebuild(cache, notes).cache[p] == NoteWidget(notes[k])
              && forall i :: 0 <= i < k ==> notes[i].abspath != p
    decreases |notes|
  {
    RebuildGrowsCache(cache, notes);
    var n := notes[0];
    if n.abspath == p {
      RebuildGrowsCache(cache[p := NoteWidget(n)], notes[1..]);
    } else {
      var c := cache[n.abspath := NoteWidget(n)];
      PathsOfCons(notes);
      RebuildNewEntry(if n.abspath in cache then cache else c, notes[1..], p);
      var k :| 0 <= k < |notes[1..]| && notes[1..][k].abspath == p
                && p in Rebuild(if n.abspath in cache then cache else c, notes[1..]).cache
                && Rebuild(if n.abspath in cache then cache else c, notes[1..]).cache[p] == NoteWidget(notes[1..][k])
                && forall i :: 0 <= i < k ==> notes[1..][i].abspath != p;
      assert notes[k + 1] == notes[1..][k];
      forall i | 0 <= i < k + 1 ensures notes[i].abspath != p {
        if i > 0 { assert notes[i] == notes[1..][i - 1]; }
      }
    }
  }

  /** A second pass over the same notes finds every widget cached and changes nothing. */
  lemma RebuildIdempotent(cache: map<string, NoteWidget>, notes: seq<Note>)
    ensures Rebuild(Rebuild(cache, notes).cache, notes) == Rebuild(cache, notes)
  {
    var r := Rebuild(cache, notes);
    var r2 := Rebuild(r.cache, notes);
    RebuildGrowsCache(cache, notes);
    RebuildGrowsCache(r.cache, notes);
    RebuildShowsCached(cache, notes);
    RebuildShowsCached(r.cache, notes);
    assert r2.cache == r.cache;
    assert r2.shown == r.shown;
  }

  /** The list shows one row per note of `notes`, in order, each for that note's path. */
  ghost predicate Lists(shown: seq<NoteWidget>, notes: seq<Note>)
  {
    |shown| == |notes| && forall i :: 0 <= i < |notes| ==> shown[i].note.abspath == notes[i].abspath
  }

  /** One step of a pass: the first note's widget, then the pass over the rest. */
  lemma RebuildStep(cache: map<string, NoteWidget>, notes: seq<Note>, c: map<string, NoteWidget>)
    requires notes != []
    requires c == if notes[0].abspath in cache then cache else cache[notes[0].abspath := NoteWidget(notes[0])]
    ensures Rebuild(cache, notes).cache == Rebuild(c, notes[1..]).cache
    ensures Rebuild(cache, notes).shown == [c[notes[0].abspath]] + Rebuild(c, notes[1..]).shown
  {
  }

  /**
   * The loop form of a pass: when the rows built so far followed by a pass over
   * the notes from i on give `target`, so do the rows with note i's widget
   * followed by a pass over the notes after i.
   */
  lemma RebuildAdvance(cache: map<string, NoteWidget>, notes: seq<Note>, i: nat, done: seq<NoteWidget>,
                       target: Listing)
    requires i < |notes|
    requires Rebuild(cache, notes[i..]).cache == target.cache
    requires done + Rebuild(cache, notes[i..]).shown == target.shown
    ensures var n := notes[i];
            var c := if n.abspath in cache then cache else cache[n.abspath := NoteWidget(n)];
            && n.abspath in c
            && Rebuild(c, notes[i + 1..]).cache == target.cache
            && (done + [c[n.abspath]]) + Rebuild(c, notes[i + 1..]).shown == target.shown
  {
    var n := notes[i];
    var c := if n.abspath in cache then cache else cache[n.abspath := NoteWidget(n)];
    assert notes[i..][0] == n && notes[i..][1..] == notes[i + 1..];
    RebuildStep(cache, notes[i..], c);
    var rest := Rebuild(c, notes[i + 1..]).shown;
    assert done + ([c[n.abspath]] + rest) == (done + [c[n.abspath]]) + rest;
  }

  /** With a keyed cache, every rebuilt row is the cache's widget for its own note's path. */
  lemma RebuildRowsCached(cache: map<string, NoteWidget>, notes: seq<Note>)
    requires Keyed(cache)
    ensures Keyed(Rebuild(cache, notes).cache)
    ensures forall i :: 0 <= i < |notes| ==>
              var r := Rebuild(cache, notes);
              r.shown[i].note.abspath in r.cache && r.cache[r.shown[i].note.abspath] == r.shown[i]
  {
    RebuildShowsCached(cache, notes);
    RebuildKeyed(cache, notes);
  }

  /** With a keyed cache, the rebuilt list shows exactly the given notes' paths. */
  lemma RebuildLists(cache: map<string, NoteWidget>, notes: seq<Note>)
    requires Keyed(cache)
    ensures Lists(Rebuild(cache, notes).shown, notes)
  {
    RebuildShowsCached(cache, notes);
    RebuildKeyed(cache, notes);
  }

  /**
   * The first row whose widget's note equals `n`, as focus_note searches the
   * list walker; None when no row shows `n`.
   */
  function FirstIndexOf(shown: seq<NoteWidget>, n: Note): (r: Option<nat>)
    ensures r.Some? ==> r.value < |shown| && shown[r.value].note == n
                        && forall j :: 0 <= j < r.value ==> shown[j].note != n
    ensures r.None? ==> forall j :: 0 <= j < |shown| ==> shown[j].note != n
  {
    if shown == [] then None
    else if shown[0].note == n then Some(0)
    else
      match FirstIndexOf(shown[1..], n)
      case None => None
      case Some(i) => Some(i + 1)
  }

  /** The focus after focus_note(n) from focus `focus`. */
  function FocusAfter(shown: seq<NoteWidget>, n: Note, focus: nat): nat
  {
    match FirstIndexOf(shown, n)
    case Some(i) => i
    case None => focus
  }
}
