/**
 * The text the search box shows: AutocompleteWidget.get_text, a four-way
 * choice between a placeholder, the typed text, the typed text completed by
 * the suggestion, and the suggestion alone, each with its style runs.
 */
module Autocomplete {
  import opened Wrappers
  import opened CaseFold

  /** The palette entries the search box uses. */
  datatype Style = Placeholder | Search | Suggestion

  /** One style run: `length` characters drawn in `style`. */
  datatype Span = Span(style: Style, length: nat)

  /** What urwid's get_text returns: the text and its attribute runs. */
  datatype Shown = Shown(text: string, spans: seq<Span>)

  const PlaceholderText: string := "Find or Create"

  /** Number of characters the runs cover. */
  function Covered(spans: seq<Span>): nat
  {
    if spans == [] then 0 else spans[0].length + Covered(spans[1..])
  }

  /** Python truthiness of `autocomplete_text`: None and "" are both false. */
  predicate HasSuggestion(suggestion: Option<string>)
  {
    suggestion.Some? && suggestion.value != ""
  }

  /**
   * The search bar's content for typed text `typed` and suggestion `suggestion`.
   * Whenever there is a suggestion the bar shows it up to case, and the typed
   * characters are kept verbatim when they are a case-insensitive prefix of it.
   */
  function GetText(typed: string, suggestion: Option<string>): (r: Shown)
    ensures typed == "" && !HasSuggestion(suggestion) ==>
              r.text == PlaceholderText && r.spans == [Span(Placeholder, |PlaceholderText|)]
    ensures typed != "" && !HasSuggestion(suggestion) ==> r.text == typed && r.spans == []
    ensures HasSuggestion(suggestion) ==> Lower(r.text) == Lower(suggestion.value)
    ensures HasSuggestion(suggestion) && typed != "" && StartsWithCI(suggestion.value, typed) ==>
              |typed| <= |suggestion.value| && r.text == typed + suggestion.value[|typed|..]
              && |typed| <= |r.text| && r.text[..|typed|] == typed
              && r.spans == [Span(Search, |typed|), Span(Suggestion, |r.text| - |typed|)]
    ensures HasSuggestion(suggestion) && (typed == "" || !StartsWithCI(suggestion.value, typed)) ==>
              r.text == suggestion.value && r.spans == [Span(Suggestion, |r.text|)]
    ensures r.spans != [] ==> Covered(r.spans) == |r.text|
  {
    if typed == "" && !HasSuggestion(suggestion) then
      Shown(PlaceholderText, [Span(Placeholder, |PlaceholderText|)])
    else if !HasSuggestion(suggestion) then
      Shown(typed, [])
    else
      var s := suggestion.value;
      if typed != "" && StartsWithCI(s, typed) then
        CompletionFolds(s, typed);
        var text := typed + s[|typed|..];
        var spans := [Span(Search, |typed|), Span(Suggestion, |text| - |typed|)];
        assert Covered(spans[1..]) == |text| - |typed| by { assert spans[1..][1..] == []; }
        Shown(text, [Span(Search, |typed|), Span(Suggestion, |text| - |typed|)])
      else
        assert [Span(Suggestion, |s|)][1..] == [];
        Shown(s, [Span(Suggestion, |s|)])
  }
}
