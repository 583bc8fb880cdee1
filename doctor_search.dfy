/**
 * The search box with autocomplete: up to three suggestions computed from
 * the typed text with the list's own text predicate, and the handlers that
 * commit a search through the view-state store.
 */
module DoctorSearch {
  import opened Types
  import opened Seqs
  import opened Text
  import opened SearchParamsHook
  import opened DoctorList

  /** Most suggestions shown at once. */
  const MaxSuggestions := 3

  /** The suggestion predicate for the typed text. */
  function SuggestionFilter(input: string): (f: Doctor -> bool)
    ensures IsSet(Some(input)) ==> forall d :: f(d) == TextStage(SearchOnly(input), d)
  {
    d => TextMatch(d, Lower(input))
  }

  /** The suggestions for the typed text: the first three matches, none for blank text. */
  function Suggestions(doctors: seq<Doctor>, input: string): (r: seq<Doctor>)
    ensures |r| <= MaxSuggestions
    ensures IsBlank(input) ==> r == []
  {
    if IsBlank(input) then []
    else
      var matches := Keep(doctors, SuggestionFilter(input));
      if |matches| <= MaxSuggestions then matches else matches[..MaxSuggestions]
  }

  /** The store state after committing `input` with no other filter set. */
  function SearchOnly(input: string): SearchParams
  {
    SearchParams(Some(input), None, None, None)
  }

  /**
   * For non-blank text the suggestions are the first min(3, k) records of the
   * list that committing that text alone would show, where k is that list's
   * length; in particular every suggestion is in that list.
   */
  lemma SuggestionsLeadTheList(doctors: seq<Doctor>, input: string)
    requires !IsBlank(input)
    ensures var l := Filtered(doctors, SearchOnly(input));
            var r := Suggestions(doctors, input);
            |r| == (if |l| <= MaxSuggestions then |l| else MaxSuggestions) && r == l[..|r|]
    ensures forall d :: d in Suggestions(doctors, input) ==> d in Filtered(doctors, SearchOnly(input))
  {
    assert input != "";
    KeepSame(doctors, SuggestionFilter(input), MatchFilter(SearchOnly(input)));
    var l := Filtered(doctors, SearchOnly(input));
    var r := Suggestions(doctors, input);
    assert r == l[..|r|];
    forall d | d in r ensures d in l {
      var i :| 0 <= i < |r| && r[i] == d;
      assert l[i] == d;
    }
  }

  /** A record whose name was committed as the search passes the text filter. */
  lemma SelectedRecordPassesTextFilter(d: Doctor, p: SearchParams)
    requires p.search == Some(d.name)
    ensures TextStage(p, d)
  {
    ContainsItself(Lower(d.name));
  }

  /**
   * The `DoctorSearch` component: the text in the box, the suggestions for it
   * and whether they are shown, next to the store it commits to.
   */
  class SearchBox {
    const doctors: seq<Doctor>
    const store: Store
    var inputValue: string
    var suggestions: seq<Doctor>
    var showSuggestions: bool

    /** Suggestions always belong to the current text and are only shown for non-blank text. */
    ghost predicate Valid()
      reads this, store
    {
      && store.Valid()
      && suggestions == Suggestions(doctors, inputValue)
      && (showSuggestions ==> !IsBlank(inputValue))
    }

    /** Mount: the box starts from the committed search, then the suggestion effect runs. */
    constructor (doctors: seq<Doctor>, store: Store)
      requires store.Valid()
      ensures Valid()
      ensures this.doctors == doctors && this.store == store
      ensures inputValue == TextOf(store.state.search)
      ensures showSuggestions == !IsBlank(inputValue)
    {
      this.doctors := doctors;
      this.store := store;
      inputValue := TextOf(store.state.search);
      suggestions := [];
      showSuggestions := false;
      new;
      Recompute();
    }

    /** The suggestion effect, run whenever `inputValue` changes. */
    method Recompute()
      modifies this`suggestions, this`showSuggestions
      ensures suggestions == Suggestions(doctors, inputValue)
      ensures showSuggestions == !IsBlank(inputValue)
    {
      if !IsBlank(inputValue) {
        var matches := Keep(doctors, SuggestionFilter(inputValue));
        suggestions := if |matches| <= MaxSuggestions then matches else matches[..MaxSuggestions];
        showSuggestions := true;
      } else {
        suggestions := [];
        showSuggestions := false;
      }
    }

    /**
     * `handleInputChange`: the box takes the typed text; when it differs
     * from the previous text the suggestion effect runs.
     */
    method InputChange(value: string)
      requires Valid()
      modifies this`inputValue, this`suggestions, this`showSuggestions
      ensures Valid()
      ensures inputValue == value
      ensures value != old(inputValue) ==> showSuggestions == !IsBlank(value)
      ensures value == old(inputValue) ==> showSuggestions == old(showSuggestions)
    {
      if value != inputValue {
        inputValue := value;
        Recompute();
      }
    }

    /**
     * `handleSearch`: commit `term` (the text in the box when absent) as the
     * search, pushing one history entry, and hide the suggestions.
     */
    method Search(term: Option<string>)
      requires store.Valid()
      modifies store, this`showSuggestions
      ensures store.Valid()
      ensures store.state == Merge(old(store.state), SearchOnly(if term.Some? then term.value else inputValue))
      ensures store.state == old(store.state).(search := Some(if term.Some? then term.value else inputValue))
      ensures store.current == old(store.current) + 1
      ensures store.history == old(store.history)[..old(store.current) + 1] + [Encode(store.state)]
      ensures !showSuggestions
    {
      var t := if term.Some? then term.value else inputValue;
      assert Merge(store.state, SearchOnly(t)) == store.state.(search := Some(t));
      store.Update(SearchOnly(t));
      showSuggestions := false;
    }

    /**
     * `handleSuggestionClick`: the box takes the record's name and that name
     * is committed; the suggestion effect then runs if the text changed.
     */
    method SuggestionClick(d: Doctor)
      requires Valid()
      modifies this, store
      ensures Valid()
      ensures inputValue == d.name
      ensures store.state == Merge(old(store.state), SearchOnly(d.name))
      ensures store.current == old(store.current) + 1
      ensures store.history == old(store.history)[..old(store.current) + 1] + [Encode(store.state)]
      ensures showSuggestions == (d.name != old(inputValue) && !IsBlank(d.name))
    {
      var changed := d.name != inputValue;
      inputValue := d.name;
      Search(Some(d.name));
      ghost var committed := store.history;
      if changed {
        Recompute();
      }
      assert store.history == committed;
    }

    /** `handleKeyPress`: Enter commits the text in the box; any other key changes nothing. */
    method KeyPress(key: string)
      requires Valid()
      modifies store, this`showSuggestions
      ensures Valid()
      ensures key == "Enter" ==> store.state == Merge(old(store.state), SearchOnly(inputValue)) && !showSuggestions
      ensures key == "Enter" ==> store.current == old(store.current) + 1
      ensures key == "Enter" ==> store.history == old(store.history)[..old(store.current) + 1] + [Encode(store.state)]
      ensures key != "Enter" ==> store.state == old(store.state) && store.history == old(store.history)
                                 && store.current == old(store.current) && showSuggestions == old(showSuggestions)
    {
      if key == "Enter" {
        Search(None);
      }
    }

    /** Focusing the box shows the suggestions again when the text is not blank. */
    method Focus()
      requires Valid()
      modifies this`showSuggestions
      ensures Valid()
      ensures showSuggestions == (old(showSuggestions) || !IsBlank(inputValue))
    {
      if !IsBlank(inputValue) {
        showSuggestions := true;
      }
    }
  }
}
