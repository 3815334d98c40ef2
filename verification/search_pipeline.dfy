/**
 * The pure steps of a search on the home page: normalising the term, turning
 * one lookup response into a record or nothing, capping the candidates,
 * keeping the records that were found, and settling the outcome of a search.
 */
module SearchPipeline {
  import opened Wrappers
  import opened JsStrings
  import opened Recipe

  /** At most this many candidates are looked up. */
  const MaxCandidates := 12

  /** Why the filter request failed: the cause behind the message of the error it threw. */
  datatype FailureCause = StatusNotOk(statusText: string) | Threw(message: string)

  /**
   * The two errors a search can report, each standing for the message the
   * page shows (`ErrorText`): the filter request failed, or candidates were
   * found but none of their details could be fetched.
   */
  datatype SearchError = FilterFailed(cause: FailureCause) | DetailsUnavailable

  /** The message of the error thrown on a non-success filter status, or the caught exception's own message. */
  function CauseMessage(cause: FailureCause): string {
    match cause
    case StatusNotOk(statusText) => "Network response was not ok: " + statusText
    case Threw(message) => message
  }

  /** The message shown for any failure of the filter request, around the cause's message. */
  function SearchFailedMessage(cause: string): string {
    "Failed to fetch recipes: " + cause + ". Please check your internet connection or try again later."
  }

  /** The soft error for candidates none of whose details could be fetched. */
  const DetailsFailedMessage :=
    "Found some recipes, " + "but could not fetch their details. "
    + "They might have incomplete " + "data in the database."

  /** The exact text the page holds in `error`. */
  function ErrorText(e: SearchError): (text: string)
    ensures text != []
  {
    match e
    case FilterFailed(cause) => SearchFailedMessage(CauseMessage(cause))
    case DetailsUnavailable => DetailsFailedMessage
  }

  /** The term sent to the filter endpoint: trimmed, every space replaced by an underscore. */
  function QueryTerm(term: string): (q: string)
    ensures |q| == |Trim(term)|
    ensures ' ' !in q
    ensures forall i :: 0 <= i < |q| ==> q[i] == (if Trim(term)[i] == ' ' then '_' else Trim(term)[i])
  {
    ReplaceSpaces(Trim(term))
  }

  /** A non-blank term gives a non-empty query term that neither starts nor ends with whitespace. */
  lemma QueryTermOfNonBlank(term: string)
    requires !IsBlank(term)
    ensures QueryTerm(term) != [] && !IsWhitespace(QueryTerm(term)[0])
    ensures !IsWhitespace(QueryTerm(term)[|QueryTerm(term)| - 1])
  {
  }

  /** A term with nothing to trim and no space is sent exactly as typed. */
  lemma PlainTermIsItsOwnQuery(term: string)
    requires term != [] && ' ' !in term
    requires !IsWhitespace(term[0]) && !IsWhitespace(term[|term| - 1])
    ensures !IsBlank(term) && QueryTerm(term) == term
  {
    TrimOfTrimmed(term);
    ReplaceSpacesOfSpaceless(term);
  }

  /**
   * `fetchRecipeDetails`: the first record of a successful lookup, and nothing
   * for a bad status, an exception, or a null or empty `meals` list.
   */
  function FetchRecipeDetails(response: LookupResponse): (d: Option<MealDetail>)
    ensures d.Some? <==> response.LookupBody? && response.meals.Some? && response.meals.value != []
    ensures d.Some? ==> d.value == response.meals.value[0]
  {
    match response
    case LookupNotOk(_) => None
    case LookupThrew(_) => None
    case LookupBody(meals) =>
      if meals.Some? && |meals.value| > 0 then Some(meals.value[0]) else None
  }

  /** `data.meals.slice(0, 12)` reduced to the ids that are looked up. */
  function Candidates(meals: seq<MealSummary>): (ids: seq<string>)
    ensures |ids| == Min(|meals|, MaxCandidates)
    ensures forall i :: 0 <= i < |ids| ==> ids[i] == meals[i].idMeal
  {
    var n := Min(|meals|, MaxCandidates);
    seq(n, i requires 0 <= i < n => meals[i].idMeal)
  }

  /** The settled result of every lookup, in candidate order whatever the order of completion. */
  function FetchAll(ids: seq<string>, lookup: string -> LookupResponse): (results: seq<Option<MealDetail>>)
    ensures |results| == |ids|
    ensures forall i :: 0 <= i < |ids| ==> results[i] == FetchRecipeDetails(lookup(ids[i]))
  {
    seq(|ids|, i requires 0 <= i < |ids| => FetchRecipeDetails(lookup(ids[i])))
  }

  /** The number of lookups that found a record. */
  function CountFound(results: seq<Option<MealDetail>>): (n: nat)
    ensures n <= |results|
  {
    if results == [] then 0
    else (if results[0].Some? then 1 else 0) + CountFound(results[1..])
  }

  /** `filter(Boolean)`: the records that were found, in their original order. */
  function KeepFound(results: seq<Option<MealDetail>>): (found: seq<MealDetail>)
    ensures |found| == CountFound(results)
    ensures forall d :: d in found ==> Some(d) in results
  {
    if results == [] then []
    else
      var rest := KeepFound(results[1..]);
      assert forall d :: d in rest ==> Some(d) in results by {
        forall d | d in rest ensures Some(d) in results {
          var k :| 0 <= k < |results[1..]| && results[1..][k] == Some(d);
          assert results[k + 1] == Some(d);
        }
      }
      (if results[0].Some? then [results[0].value] else []) + rest
  }

  /**
   * Order preservation: the record found by the i-th lookup sits in the kept
   * list at the position given by the number of records found before it.
   */
  lemma {:induction false} KeepFoundAt(results: seq<Option<MealDetail>>, i: nat)
    requires i < |results| && results[i].Some?
    ensures CountFound(results[..i]) < |KeepFound(results)|
    ensures KeepFound(results)[CountFound(results[..i])] == results[i].value
  {
    if i == 0 {
      assert results[..0] == [];
    } else {
      KeepFoundAt(results[1..], i - 1);
      assert results[1..][..i - 1] == results[1..i];
      assert results[..i] == [results[0]] + results[1..i];
      assert ([results[0]] + results[1..i])[1..] == results[1..i];
    }
  }

  /** When every lookup found a record, all of them are kept, in order. */
  lemma {:induction false} KeepFoundAll(results: seq<Option<MealDetail>>)
    requires forall i :: 0 <= i < |results| ==> results[i].Some?
    ensures |KeepFound(results)| == |results|
    ensures forall i :: 0 <= i < |results| ==> KeepFound(results)[i] == results[i].value
  {
    if results != [] {
      KeepFoundAll(results[1..]);
    }
  }

  /** When no lookup found a record, nothing is kept. */
  lemma {:induction false} KeepFoundNone(results: seq<Option<MealDetail>>)
    requires forall i :: 0 <= i < |results| ==> results[i].None?
    ensures KeepFound(results) == []
  {
    if results != [] {
      KeepFoundNone(results[1..]);
    }
  }

  /** The matches of a filter answer: the `meals` list, or nothing when it is null. */
  function Matches(response: FilterResponse): seq<MealSummary>
    requires response.FilterBody?
  {
    if response.meals.Some? then response.meals.value else []
  }

  /** The ids a search looks up once its filter request has ended with `response`. */
  function LookupRequests(response: FilterResponse): (ids: seq<string>)
    ensures |ids| <= MaxCandidates
    ensures response.FilterBody? ==>
              && |ids| == Min(|Matches(response)|, MaxCandidates)
              && forall i :: 0 <= i < |ids| ==> ids[i] == Matches(response)[i].idMeal
    ensures !response.FilterBody? ==> ids == []
  {
    if response.FilterBody? then Candidates(Matches(response)) else []
  }

  /** What a search leaves in `recipes` and `error` once it settles. */
  datatype Outcome = Outcome(recipes: seq<MealDetail>, error: Option<SearchError>)

  /** The settled outcome of a non-blank search, from the filter answer and the lookups. */
  function Settle(response: FilterResponse, lookup: string -> LookupResponse): (o: Outcome)
    ensures o.recipes != [] ==> o.error.None?
    ensures |o.recipes| <= |LookupRequests(response)| <= MaxCandidates
    ensures o.error.Some? && o.error.value.FilterFailed? <==> !response.FilterBody?
  {
    match response
    case FilterNotOk(statusText) => Outcome([], Some(FilterFailed(StatusNotOk(statusText))))
    case FilterThrew(message) => Outcome([], Some(FilterFailed(Threw(message))))
    case FilterBody(meals) =>
      if meals.Some? && |meals.value| > 0 then
        var found := KeepFound(FetchAll(Candidates(meals.value), lookup));
        if |found| == 0 then Outcome(found, Some(DetailsUnavailable)) else Outcome(found, None)
      else
        Outcome([], None)
  }

  /** The text shown for a non-success filter status: the generic failure message around the status text. */
  lemma NotOkErrorText(statusText: string)
    ensures ErrorText(FilterFailed(StatusNotOk(statusText))) ==
            "Failed to fetch recipes: " + "Network response was not ok: " + statusText
            + ". Please check your internet connection or try again later."
  {
    var failed, notOk := "Failed to fetch recipes: ", "Network response was not ok: ";
    assert failed + (notOk + statusText) == (failed + notOk) + statusText;
  }

  /** A filter request with a non-success status clears the recipes and reports the status text inside the generic message. */
  lemma SettleFilterNotOk(statusText: string, lookup: string -> LookupResponse)
    ensures Settle(FilterNotOk(statusText), lookup).recipes == []
    ensures Settle(FilterNotOk(statusText), lookup).error.Some?
    ensures ErrorText(Settle(FilterNotOk(statusText), lookup).error.value) ==
            "Failed to fetch recipes: " + "Network response was not ok: " + statusText
            + ". Please check your internet connection or try again later."
  {
    NotOkErrorText(statusText);
  }

  /** A filter request that throws clears the recipes and reports the exception's message inside the generic message. */
  lemma SettleFilterThrew(message: string, lookup: string -> LookupResponse)
    ensures Settle(FilterThrew(message), lookup).recipes == []
    ensures Settle(FilterThrew(message), lookup).error.Some?
    ensures ErrorText(Settle(FilterThrew(message), lookup).error.value) ==
            "Failed to fetch recipes: " + message + ". Please check your internet connection or try again later."
  {
  }

  /** Zero matches (null or empty `meals`) is no error: nothing is found and nothing is reported. */
  lemma SettleNoMatches(response: FilterResponse, lookup: string -> LookupResponse)
    requires response.FilterBody? && Matches(response) == []
    ensures Settle(response, lookup) == Outcome([], None)
  {
  }

  /** Candidates whose lookups all fail give the distinct partial-failure message. */
  lemma SettleAllDetailsFailed(response: FilterResponse, lookup: string -> LookupResponse)
    requires response.FilterBody? && Matches(response) != []
    requires forall id :: id in LookupRequests(response) ==> FetchRecipeDetails(lookup(id)).None?
    ensures Settle(response, lookup) == Outcome([], Some(DetailsUnavailable))
  {
    var ids := Candidates(Matches(response));
    var results := FetchAll(ids, lookup);
    forall i | 0 <= i < |results| ensures results[i].None? {
      assert ids[i] in LookupRequests(response);
    }
    KeepFoundNone(results);
  }

  /**
   * A populated search: the recipes are exactly the records found, in candidate
   * order, one per successful lookup, and no error is reported.
   */
  lemma SettlePopulated(response: FilterResponse, lookup: string -> LookupResponse, i: nat)
    requires response.FilterBody? && i < |LookupRequests(response)|
    requires FetchRecipeDetails(lookup(LookupRequests(response)[i])).Some?
    ensures Settle(response, lookup).error.None?
    ensures var results := FetchAll(LookupRequests(response), lookup);
            && |Settle(response, lookup).recipes| == CountFound(results)
            && CountFound(results[..i]) < |Settle(response, lookup).recipes|
            && Settle(response, lookup).recipes[CountFound(results[..i])] == results[i].value
  {
    var results := FetchAll(LookupRequests(response), lookup);
    KeepFoundAt(results, i);
  }

  /** When every candidate is found, the recipes are the first min(N, 12) matches' records, in order. */
  lemma SettleAllFound(response: FilterResponse, lookup: string -> LookupResponse)
    requires response.FilterBody? && Matches(response) != []
    requires forall id :: id in LookupRequests(response) ==> FetchRecipeDetails(lookup(id)).Some?
    ensures |Settle(response, lookup).recipes| == Min(|Matches(response)|, MaxCandidates)
    ensures forall i :: 0 <= i < |Settle(response, lookup).recipes| ==>
              Some(Settle(response, lookup).recipes[i]) == FetchRecipeDetails(lookup(Matches(response)[i].idMeal))
  {
    var ids := LookupRequests(response);
    var results := FetchAll(ids, lookup);
    forall i | 0 <= i < |results| ensures results[i].Some? {
      assert ids[i] in ids;
    }
    KeepFoundAll(results);
  }

  /** The partial-failure message can never be mistaken for a failed filter request. */
  lemma MessagesDistinct(cause: FailureCause)
    ensures ErrorText(DetailsUnavailable) != ErrorText(FilterFailed(cause))
  {
    var failed := ErrorText(FilterFailed(cause));
    assert failed == "Failed to fetch recipes: " + (CauseMessage(cause) + ". Please check your internet connection or try again later.");
    assert failed[1] == 'a';
    assert DetailsFailedMessage[1] == 'o';
  }

  /** The partial-failure message is shown exactly when candidates exist and every lookup fails. */
  lemma DetailsFailedIff(response: FilterResponse, lookup: string -> LookupResponse)
    ensures var e := Settle(response, lookup).error;
            e.Some? && ErrorText(e.value) == DetailsFailedMessage <==>
              (response.FilterBody? && Matches(response) != []
               && CountFound(FetchAll(LookupRequests(response), lookup)) == 0)
  {
    match response
    case FilterNotOk(statusText) => MessagesDistinct(StatusNotOk(statusText));
    case FilterThrew(message) => MessagesDistinct(Threw(message));
    case FilterBody(_) =>
  }
}
