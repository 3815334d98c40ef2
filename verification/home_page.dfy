/**
 * The home page's search state: the four fields the page renders from, the
 * search input with its debounce timer, and the transitions that change them
 * (a search, clearing, an input event, a clock tick, a form submit). Each
 * search runs to completion before the next event is handled.
 */
module Home {
  import opened Wrappers
  import opened JsStrings
  import opened Recipe
  import opened SearchPipeline
  import opened Debounce

  /** The four fields the page renders from. */
  datatype Flags = Flags(recipes: seq<MealDetail>, isLoading: bool, error: Option<SearchError>, hasSearched: bool)

  /** Recipes are only ever held after a search that reported no error. */
  predicate Shown(f: Flags) {
    f.recipes != [] ==> f.hasSearched && f.error.None?
  }

  /** The fields after the blank-term branch: no recipes, no error, not searched; loading untouched. */
  function Cleared(f: Flags): (f': Flags)
    ensures Shown(f') && f'.isLoading == f.isLoading
    ensures f'.recipes == [] && !f'.hasSearched && f'.error.None?
  {
    Flags([], f.isLoading, None, false)
  }

  /**
   * The fields once a non-blank search has settled: not loading, searched, and
   * the recipes and error of the settled outcome. They do not depend on the
   * fields before the search, so the same term against the same answers always
   * leaves the same state.
   */
  function Searched(term: string, filter: string -> FilterResponse, lookup: string -> LookupResponse): (f: Flags)
    ensures Shown(f) && !f.isLoading && f.hasSearched
    ensures |f.recipes| <= MaxCandidates
  {
    var o := Settle(filter(QueryTerm(term)), lookup);
    Flags(o.recipes, false, o.error, true)
  }

  /** The fields once a committed term has been handled: the blank-term reset, or the settled search. */
  function Committed(f: Flags, term: string, filter: string -> FilterResponse, lookup: string -> LookupResponse): (f': Flags)
    ensures Shown(f) ==> Shown(f')
    ensures f'.hasSearched <==> !IsBlank(term)
  {
    if IsBlank(term) then Cleared(f) else Searched(term, filter, lookup)
  }

  /** The filter requests a committed term sends: its query term, unless it is blank. */
  function FilterRequestsFor(term: string): (qs: seq<string>)
    ensures qs == [] <==> IsBlank(term)
    ensures qs != [] ==> qs == [QueryTerm(term)]
  {
    if IsBlank(term) then [] else [QueryTerm(term)]
  }

  /** The lookup requests a committed term sends: the candidates of its filter answer, unless it is blank. */
  function LookupRequestsFor(term: string, filter: string -> FilterResponse): (ids: seq<string>)
    ensures IsBlank(term) ==> ids == []
    ensures |ids| <= MaxCandidates
  {
    if IsBlank(term) then [] else LookupRequests(filter(QueryTerm(term)))
  }

  /** JavaScript truthiness of the error: present and its text not the empty string. */
  predicate Truthy(e: Option<SearchError>)
    ensures Truthy(e) <==> e.Some?
  {
    e.Some? && ErrorText(e.value) != ""
  }

  /** The panels of the page's main area. */
  datatype Panel = Loading | ErrorNotice | NoRecipes | RecipeGrid | Welcome

  /** The panels rendered, in page order, each under its own condition. */
  function Panels(f: Flags): (ps: seq<Panel>)
    ensures f.isLoading ==> ps == [Loading]
    ensures !f.isLoading ==> Loading !in ps && 1 <= |ps| <= 2
  {
    (if f.isLoading then [Loading] else [])
    + (if !f.isLoading && Truthy(f.error) then [ErrorNotice] else [])
    + (if !f.isLoading && !Truthy(f.error) && f.hasSearched && |f.recipes| == 0 then [NoRecipes] else [])
    + (if !f.isLoading && !Truthy(f.error) && |f.recipes| > 0 then [RecipeGrid] else [])
    + (if !f.isLoading && !Truthy(f.error) && !f.hasSearched then [Welcome] else [])
  }

  /** The page's state as one enumerated value: loading, error, idle, empty or populated. */
  function UiState(f: Flags): (p: Panel)
    ensures p == Loading <==> f.isLoading
    ensures p == ErrorNotice <==> !f.isLoading && f.error.Some?
    ensures p == NoRecipes ==> f.hasSearched && f.recipes == []
    ensures p == RecipeGrid ==> f.hasSearched && f.recipes != []
  {
    if f.isLoading then Loading
    else if Truthy(f.error) then ErrorNotice
    else if !f.hasSearched then Welcome
    else if f.recipes == [] then NoRecipes
    else RecipeGrid
  }

  /** Whenever recipes imply a clean search, exactly one panel is rendered: the one of the page's state. */
  lemma ExactlyOnePanel(f: Flags)
    requires Shown(f)
    ensures Panels(f) == [UiState(f)]
  {
  }

  /** Without that invariant the page could render the results and the welcome panel together. */
  lemma UnsearchedRecipesShowTwoPanels(f: Flags)
    requires !f.isLoading && !Truthy(f.error) && f.recipes != [] && !f.hasSearched
    ensures Panels(f) == [RecipeGrid, Welcome]
  {
  }

  /** A search with zero matches reports no error, shows no recipes, and counts as searched. */
  lemma SearchedNoMatches(term: string, filter: string -> FilterResponse, lookup: string -> LookupResponse)
    requires filter(QueryTerm(term)).FilterBody? && Matches(filter(QueryTerm(term))) == []
    ensures Searched(term, filter, lookup) == Flags([], false, None, true)
    ensures UiState(Searched(term, filter, lookup)) == NoRecipes
  {
    SettleNoMatches(filter(QueryTerm(term)), lookup);
  }

  /**
   * The panel a completed search shows: the error notice when it reported an
   * error, the empty notice when it found nothing, the results otherwise.
   */
  lemma PanelOfSearch(term: string, filter: string -> FilterResponse, lookup: string -> LookupResponse)
    ensures var o := Settle(filter(QueryTerm(term)), lookup);
            UiState(Searched(term, filter, lookup))
              == (if o.error.Some? then ErrorNotice else if o.recipes == [] then NoRecipes else RecipeGrid)
  {
    var o := Settle(filter(QueryTerm(term)), lookup);
    if o.error.Some? {
      assert ErrorText(o.error.value) != [];
    }
  }

  class HomePage {
    var searchTerm: string
    var recipes: seq<MealDetail>
    var isLoading: bool
    var error: Option<SearchError>
    var hasSearched: bool
    var timer: Timer
    /** The terms sent to the filter endpoint, oldest first. */
    ghost var filterRequests: seq<string>
    /** The ids sent to the lookup endpoint, oldest first. */
    ghost var lookupRequests: seq<string>

    function Fields(): Flags
      reads this
    {
      Flags(recipes, isLoading, error, hasSearched)
    }

    function Input(): Debouncer
      reads this
    {
      Debouncer(searchTerm, timer)
    }

    /** Between events: recipes imply a clean search, nothing is loading, the timer holds the current text. */
    ghost predicate Valid()
      reads this
    {
      Shown(Fields()) && !isLoading && Debounce.Consistent(Input())
    }

    /** The first render at time `now`: empty fields, and the effect's first timer armed for "". */
    constructor (now: int)
      ensures Valid()
      ensures Fields() == Flags([], false, None, false)
      ensures Input() == Debouncer("", Armed("", now + Window))
      ensures filterRequests == [] && lookupRequests == []
    {
      searchTerm := "";
      recipes := [];
      isLoading := false;
      error := None;
      hasSearched := false;
      timer := Armed("", now + Window);
      filterRequests := [];
      lookupRequests := [];
    }

    /** The reset of a blank term: no recipes, not searched, no error; no request is made. */
    method ClearResults()
      modifies this
      ensures Fields() == Cleared(old(Fields()))
      ensures Input() == old(Input())
      ensures filterRequests == old(filterRequests) && lookupRequests == old(lookupRequests)
    {
      recipes := [];
      hasSearched := false;
      error := None;
    }

    /**
     * `performSearch`: a blank term only clears; any other term raises the
     * loading flag, resets the fields, sends the normalised term to the filter
     * endpoint, looks up the first 12 candidates and settles the outcome.
     */
    method PerformSearch(term: string, filter: string -> FilterResponse, lookup: string -> LookupResponse)
      requires Valid()
      modifies this
      ensures Valid()
      ensures Input() == old(Input())
      ensures Fields() == Committed(old(Fields()), term, filter, lookup)
      ensures filterRequests == old(filterRequests) + FilterRequestsFor(term)
      ensures lookupRequests == old(lookupRequests) + LookupRequestsFor(term, filter)
    {
      if IsBlank(term) {
        ClearResults();
      } else {
        Search(term, filter, lookup);
      }
    }

    /**
     * The non-blank branch of `performSearch`: raise the loading flag, reset
     * the fields, run the `try` block for the query term, lower the flag.
     */
    method Search(term: string, filter: string -> FilterResponse, lookup: string -> LookupResponse)
      requires Valid() && !IsBlank(term)
      modifies this
      ensures Valid()
      ensures Input() == old(Input())
      ensures Fields() == Searched(term, filter, lookup)
      ensures filterRequests == old(filterRequests) + [QueryTerm(term)]
      ensures lookupRequests == old(lookupRequests) + LookupRequests(filter(QueryTerm(term)))
    {
      isLoading := true;
      error := None;
      recipes := [];
      hasSearched := true;
      Fetch(QueryTerm(term), filter, lookup);
      isLoading := false;
    }

    /**
     * The `try` block of a search for `query`: one filter request, then one
     * lookup per candidate; the recipes and error become the settled outcome.
     */
    method Fetch(query: string, filter: string -> FilterResponse, lookup: string -> LookupResponse)
      requires recipes == [] && error.None?
      modifies this
      ensures Outcome(recipes, error) == Settle(filter(query), lookup)
      ensures searchTerm == old(searchTerm) && timer == old(timer)
      ensures isLoading == old(isLoading) && hasSearched == old(hasSearched)
      ensures filterRequests == old(filterRequests) + [query]
      ensures lookupRequests == old(lookupRequests) + LookupRequests(filter(query))
    {
      var response := filter(query);
      filterRequests := filterRequests + [query];
      match response {
        case FilterNotOk(statusText) =>
          error := Some(FilterFailed(StatusNotOk(statusText)));
        case FilterThrew(message) =>
          error := Some(FilterFailed(Threw(message)));
        case FilterBody(meals) =>
          if meals.Some? && |meals.value| > 0 {
            var ids := Candidates(meals.value);
            lookupRequests := lookupRequests + ids;
            var found := KeepFound(FetchAll(ids, lookup));
            recipes := found;
            if |found| == 0 {
              error := Some(DetailsUnavailable);
            }
          }
      }
    }

    /** An input event: the text becomes `value`; a real change cancels the timer and arms a new one. */
    method Change(value: string, now: int)
      requires Valid()
      modifies this
      ensures Valid()
      ensures Input() == OnChange(old(Input()), value, now)
      ensures Fields() == old(Fields())
      ensures filterRequests == old(filterRequests) && lookupRequests == old(lookupRequests)
    {
      if value != searchTerm {
        searchTerm := value;
        timer := Armed(value, now + Window);
      }
    }

    /**
     * The clock reads `now`: a timer whose deadline has passed fires, searching
     * for its text when that is not blank and clearing the results otherwise.
     */
    method Tick(now: int, filter: string -> FilterResponse, lookup: string -> LookupResponse)
      requires Valid()
      modifies this
      ensures Valid()
      ensures Input() == OnTick(old(Input()), now)
      ensures old(Fired(Input(), now)).None? ==>
                && Fields() == old(Fields())
                && filterRequests == old(filterRequests) && lookupRequests == old(lookupRequests)
      ensures old(Fired(Input(), now)).Some? ==>
                && Fields() == Committed(old(Fields()), searchTerm, filter, lookup)
                && filterRequests == old(filterRequests) + FilterRequestsFor(searchTerm)
                && lookupRequests == old(lookupRequests) + LookupRequestsFor(searchTerm, filter)
    {
      if Fired(Input(), now).Some? {
        timer := NoTimer;
        Elapse(filter, lookup);
      }
    }

    /**
     * The timer's callback: a non-blank text is searched, a blank one clears
     * the results.
     */
    method Elapse(filter: string -> FilterResponse, lookup: string -> LookupResponse)
      requires Valid()
      modifies this
      ensures Valid()
      ensures Input() == old(Input())
      ensures Fields() == Committed(old(Fields()), searchTerm, filter, lookup)
      ensures filterRequests == old(filterRequests) + FilterRequestsFor(searchTerm)
      ensures lookupRequests == old(lookupRequests) + LookupRequestsFor(searchTerm, filter)
    {
      if !IsBlank(searchTerm) {
        PerformSearch(searchTerm, filter, lookup);
      } else {
        ClearResults();
      }
    }

    /** A form submit: a non-blank text is searched at once; the pending timer is not cancelled. */
    method Submit(filter: string -> FilterResponse, lookup: string -> LookupResponse)
      requires Valid()
      modifies this
      ensures Valid()
      ensures Input() == old(Input())
      ensures IsBlank(searchTerm) ==>
                && Fields() == old(Fields())
                && filterRequests == old(filterRequests) && lookupRequests == old(lookupRequests)
      ensures !IsBlank(searchTerm) ==>
                && Fields() == Committed(old(Fields()), searchTerm, filter, lookup)
                && filterRequests == old(filterRequests) + FilterRequestsFor(searchTerm)
                && lookupRequests == old(lookupRequests) + LookupRequestsFor(searchTerm, filter)
    {
      if !IsBlank(searchTerm) {
        PerformSearch(searchTerm, filter, lookup);
      }
    }
  }

  /**
   * Typing three texts in a row, 100 ms apart from mounting, sends one filter
   * request, for the last text, once the clock reaches 700 ms, and none before.
   */
  method TypingSendsOneRequest(a: string, b: string, c: string,
                               filter: string -> FilterResponse, lookup: string -> LookupResponse)
    returns (page: HomePage)
    requires a != "" && a != b && b != c
    requires c != [] && ' ' !in c && !IsWhitespace(c[0]) && !IsWhitespace(c[|c| - 1])
    ensures page.Valid() && page.filterRequests == [c]
  {
    PlainTermIsItsOwnQuery(c);
    page := new HomePage(0);
    page.Tick(0, filter, lookup);
    page.Change(a, 0);
    page.Change(b, 100);
    page.Change(c, 200);
    assert page.Input() == Debouncer(c, Armed(c, 700));
    page.Tick(699, filter, lookup);
    assert page.filterRequests == [];
    page.Tick(700, filter, lookup);
  }

  /** A submit inside the debounce window searches at once, and the timer then searches the same term again. */
  method SubmitDuringWindowSearchesTwice(term: string, filter: string -> FilterResponse, lookup: string -> LookupResponse)
    returns (page: HomePage)
    requires term != [] && ' ' !in term && !IsWhitespace(term[0]) && !IsWhitespace(term[|term| - 1])
    ensures page.Valid() && page.filterRequests == [term, term]
  {
    PlainTermIsItsOwnQuery(term);
    page := new HomePage(0);
    page.Change(term, 0);
    page.Submit(filter, lookup);
    assert page.filterRequests == [term];
    page.Tick(500, filter, lookup);
  }

  /** Clearing the input after a search returns the page to its idle state once the timer fires. */
  method ClearingReturnsToIdle(term: string, filter: string -> FilterResponse, lookup: string -> LookupResponse)
    returns (page: HomePage)
    requires term != ""
    ensures page.Valid() && UiState(page.Fields()) == Welcome && page.recipes == []
  {
    page := new HomePage(0);
    page.Change(term, 0);
    page.Tick(500, filter, lookup);
    page.Change("", 600);
    page.Tick(1100, filter, lookup);
  }
}
