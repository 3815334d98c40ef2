# Recipe Radar search page, modelled in Dafny

Recipe Radar is a one-page recipe search over TheMealDB. The user types an
ingredient. After a 500 ms pause, or at once on submit, the page asks the
filter endpoint for meals with that ingredient. It then looks up the details
of at most the first 12 matches and shows them as recipe cards, or shows an
error, an empty notice or the welcome panel.

This project models the two parts of that page that carry logic:

- **The home page** (`src/app/page.tsx`).
  - Its four rendered fields (`recipes`, `isLoading`, `error`, `hasSearched`) and the search input with its one debounce timer form a class, `Home.HomePage`.
  - `performSearch`, the debounced effect, the input handler and the submit handler are its methods.
  - The pure steps of a search are functions in `SearchPipeline`: normalising the term, `fetchRecipeDetails`, the 12-candidate cap, `filter(Boolean)`, and the choice of outcome.
  - The debounce is a small state machine on a logical millisecond clock (`Debounce`). An event-trace semantics states the burst-then-pause property.
  - The five panels of the main area are `Home.Panels`.
- **The recipe card** (`src/components/recipe-card.tsx`): `briefDescription`, `isVegetarian` and the conditional info rows, as pure functions (`RecipeCard`).

The JavaScript string operations these rely on are modelled on `seq<char>` in `JsStrings`:

- `trim`, with the exact ECMAScript WhiteSpace and LineTerminator set.
- `replace(/ /g, '_')`.
- `toLowerCase`.
- `includes`.

The network is not modelled. It is two parameters: `filter` maps the query term to the outcome of the filter request, and `lookup` maps a meal id to the outcome of its lookup. Each outcome is one of: a non-success status, an exception, or a parsed body whose `meals` may be null.

Two ghost logs on the page record every query term sent to the filter endpoint and every id sent to the lookup endpoint. This makes "no request is made" and "exactly these lookups" statable.

The page's `error` holds one of the messages the page builds. The model stores which message it is (`SearchPipeline.SearchError`: the filter request failed with a given cause, or none of the details could be fetched). `SearchPipeline.ErrorText` gives the exact text shown. Lemmas state those texts literally.

A search runs to completion before the next event is handled. Between events `isLoading` is therefore false, and `HomePage.Valid` says so, together with two more invariants:

- Recipes are only held after a search that reported no error.
- A pending timer is always for the text currently in the input.

The page keeps one behaviour as written. A submit does not cancel the pending debounce timer. So a submit inside the 500 ms window searches at once, and the timer searches the same text again when it fires (`Home.SubmitDuringWindowSearchesTwice`).

## Model

| member | source | states |
|---|---|---|
| JsStrings.IsWhitespace | src/app/page.tsx:48 | the character set `trim()` strips: space, tab and newline are in it; letters, digits and the underscore are not |
| JsStrings.TrimStart | src/app/page.tsx:48 | the result is a suffix of the input, everything dropped is whitespace, and the result does not start with whitespace |
| JsStrings.TrimEnd | src/app/page.tsx:48 | the result is a prefix of the input, everything dropped is whitespace, and the result does not end with whitespace |
| JsStrings.Trim | src/app/page.tsx:48 | `trim()` is no longer than its input and neither starts nor ends with whitespace |
| JsStrings.TrimKeepsInfix | src/app/page.tsx:48 | what `trim()` keeps is an infix of the input, and what it strips on each side is all whitespace |
| JsStrings.TrimStartOfWhitespace | src/app/page.tsx:35 | stripping leading whitespace leaves nothing exactly when the string is all whitespace |
| JsStrings.BlankIffAllWhitespace | src/app/page.tsx:35 | a term is falsy after `trim()` exactly when every character is whitespace (the empty term included) |
| JsStrings.IsBlank | src/app/page.tsx:35 | no contract; the falsy test `!term.trim()` used at lines 35, 78 and 96, defined as `trim()` giving the empty string (its meaning is `BlankIffAllWhitespace`) |
| JsStrings.TrimOfTrimmed | src/app/page.tsx:48 | a string with no whitespace at either end is its own `trim()` |
| JsStrings.ReplaceSpaces | src/app/page.tsx:48 | `replace(/ /g, '_')` keeps the length and maps every space, and only a space, to an underscore |
| JsStrings.ReplaceSpacesOfSpaceless | src/app/page.tsx:48 | a string without spaces is unchanged by the replacement |
| JsStrings.ToLower | src/components/recipe-card.tsx:13 | `toLowerCase()` keeps the length and lower-cases each character on its own |
| JsStrings.ToLowerSlice | src/components/recipe-card.tsx:13 | lower-casing commutes with taking a slice |
| JsStrings.Includes | src/components/recipe-card.tsx:13 | `includes` holds whenever `pat` is a prefix, and only when `pat` is no longer than the string |
| JsStrings.IncludesIffInfix | src/components/recipe-card.tsx:13 | `includes(pat)` holds exactly when `pat` occurs at some position of the string |
| RecipeCard.BriefDescription | src/components/recipe-card.tsx:12 | empty instructions give "No description available."; otherwise the result ends in "...", what precedes it is a prefix of the instructions, and the length is at most 123 |
| RecipeCard.ShortDescriptionKeepsAll | src/components/recipe-card.tsx:12 | instructions of 1 to 120 characters are kept whole, and "..." is appended all the same |
| RecipeCard.LongDescriptionIsCut | src/components/recipe-card.tsx:12 | longer instructions become exactly their first 120 characters plus "...", 123 characters in all |
| RecipeCard.IsVegetarian | src/components/recipe-card.tsx:13 | vegetarian exactly when the category is "Vegetarian" or the lower-cased tags contain "vegetarian"; absent tags contribute nothing |
| RecipeCard.TagsMatchInAnyCase | src/components/recipe-card.tsx:13 | any slice of the tags that lower-cases to "vegetarian" makes the recipe vegetarian |
| RecipeCard.CategoryIsCaseSensitive | src/components/recipe-card.tsx:13 | the category "vegetarian" in lower case, with no tags, is not vegetarian |
| RecipeCard.InfoRows | src/components/recipe-card.tsx:34-51 | the origin row is shown exactly when the area is non-empty, the category row exactly when the category is non-empty, the badge exactly when the recipe is vegetarian; no other row appears; the rows come in display order, origin, category, badge, each at most once |
| RecipeCard.Rank | src/components/recipe-card.tsx:34-51 | no contract; the display position of each info row: origin 0, category 1, badge 2 |
| SearchPipeline.CauseMessage | src/app/page.tsx:50 | no contract; the `message` of the error caught at line 67: "Network response was not ok: " and the status text for a bad status, the thrown message otherwise |
| SearchPipeline.SearchFailedMessage | src/app/page.tsx:69 | no contract; the catch block's message: "Failed to fetch recipes: ", the cause, then ". Please check your internet connection or try again later." |
| SearchPipeline.DetailsFailedMessage | src/app/page.tsx:62 | a constant; the partial-failure message, word for word |
| SearchPipeline.ErrorText | src/app/page.tsx:49-69 | every error message the page can hold is non-empty, so the error panel shows whenever an error is set |
| SearchPipeline.QueryTerm | src/app/page.tsx:48 | the query term has the trimmed term's length, contains no space, and equals the trimmed term with each space replaced by an underscore |
| SearchPipeline.QueryTermOfNonBlank | src/app/page.tsx:35-48 | a non-blank term gives a non-empty query term with no whitespace at either end |
| SearchPipeline.PlainTermIsItsOwnQuery | src/app/page.tsx:35-48 | a term without spaces or surrounding whitespace is non-blank and is sent exactly as typed |
| SearchPipeline.FetchRecipeDetails | src/app/page.tsx:19-32 | a record is returned exactly for a successful lookup with a non-empty `meals` list, and it is `meals[0]`; a bad status, an exception, or a null or empty list give nothing |
| SearchPipeline.Candidates | src/app/page.tsx:55 | min(N, 12) ids are looked up, the i-th being the i-th match's id |
| SearchPipeline.FetchAll | src/app/page.tsx:55-56 | one settled result per candidate, in candidate order whatever the order of completion: result i is `fetchRecipeDetails` of the i-th id's lookup |
| SearchPipeline.CountFound | src/app/page.tsx:57 | the number of successful lookups is at most the number of lookups |
| SearchPipeline.KeepFound | src/app/page.tsx:57 | `filter(Boolean)` keeps as many records as lookups succeeded, and only records that some lookup returned |
| SearchPipeline.KeepFoundAt | src/app/page.tsx:57 | order preservation: the record of the i-th lookup sits at the position given by the number of successes before it |
| SearchPipeline.KeepFoundAll | src/app/page.tsx:57 | when every lookup succeeds, all records are kept, in candidate order |
| SearchPipeline.KeepFoundNone | src/app/page.tsx:57 | when every lookup fails, nothing is kept |
| SearchPipeline.LookupRequests | src/app/page.tsx:53-55 | never more than 12 lookups; none unless the filter request gave a parsed answer; after one with N matches, min(N, 12) lookups, the i-th for the i-th match's id |
| SearchPipeline.Settle | src/app/page.tsx:47-70 | a settled search never holds recipes together with an error; it holds at most as many recipes as lookups were made, at most 12; it reports a failed filter request exactly when the filter request did not give a parsed answer |
| SearchPipeline.NotOkErrorText | src/app/page.tsx:49-50 | the message for a non-success status is "Failed to fetch recipes: Network response was not ok: " + status text + ". Please check your internet connection or try again later." |
| SearchPipeline.SettleFilterNotOk | src/app/page.tsx:49-50 | a non-success filter status leaves no recipes and that exact message |
| SearchPipeline.SettleFilterThrew | src/app/page.tsx:67-70 | a failing filter request leaves no recipes and the exception's message inside the generic failure text |
| SearchPipeline.SettleNoMatches | src/app/page.tsx:64-66 | zero matches (null or empty `meals`) is no error: no recipes and no message |
| SearchPipeline.SettleAllDetailsFailed | src/app/page.tsx:59-63 | matches whose lookups all fail leave no recipes and the partial-failure message |
| SearchPipeline.SettlePopulated | src/app/page.tsx:55-61 | a search with a successful lookup reports no error; its recipes are the successful lookups' records, in candidate order |
| SearchPipeline.SettleAllFound | src/app/page.tsx:55-59 | when every candidate is found, the recipes are the first min(N, 12) matches' records, in order |
| SearchPipeline.MessagesDistinct | src/app/page.tsx:61-69 | the partial-failure message differs from every failed-request message |
| SearchPipeline.DetailsFailedIff | src/app/page.tsx:59-63 | the partial-failure message is shown exactly when there are matches and every lookup fails |
| Debounce.OnChange | src/app/page.tsx:76-89 | an input event sets the text, and a pending timer is still for the current text |
| Debounce.Fired | src/app/page.tsx:77-79 | a timer fires only when armed and due, and it fires for the text it was armed with |
| Debounce.Step | src/app/page.tsx:76-89 | one event's effect on the debouncer: only an input event changes the text, to its value, and the timer invariant is kept |
| Debounce.Commit | src/app/page.tsx:76-89 | one event commits at most one text, and only a tick at or after an armed timer's deadline commits, the text the timer was armed with |
| Debounce.Run | src/app/page.tsx:76-89 | no contract; the trace of a sequence of events: the final state, and the committed texts in event order (its laws are `RunAppend` and the burst lemmas) |
| Debounce.OnTick | src/app/page.tsx:76-89 | a tick keeps the text and the timer invariant, and a fired timer cannot fire again at the same time |
| Debounce.RunAppend | src/app/page.tsx:76-89 | running two event sequences one after the other gives the final state and the commits of running them together |
| Debounce.BurstKeepsArmed | src/app/page.tsx:76-89 | during a burst nothing is committed, and the timer stays armed 500 ms after the latest change, for the latest text |
| Debounce.BurstThenPause | src/app/page.tsx:76-89 | a burst of edits followed by a tick commits nothing during the burst, and then commits the latest text exactly once if the tick is at least 500 ms after the latest change, and nothing otherwise |
| Debounce.IdleTicksCommitNothing | src/app/page.tsx:76-89 | with no timer pending, ticks alone commit nothing |
| Debounce.TypingScenario | src/app/page.tsx:76-89 | typing "s", "sa", "salmon" at 0, 100 and 200 ms commits nothing by 699 ms and "salmon" once at 700 ms |
| Home.Cleared | src/app/page.tsx:35-40 | the blank-term reset leaves no recipes, no error, not searched, and `isLoading` as it was |
| Home.Searched | src/app/page.tsx:42-72 | a completed search is not loading, counts as searched, holds recipes only without an error, and at most 12 of them |
| Home.Committed | src/app/page.tsx:79-85 | handling a committed term keeps the invariant, and counts as a search exactly when the term is not blank |
| Home.FilterRequestsFor | src/app/page.tsx:35-48 | a committed term sends a filter request exactly when it is not blank, and then its query term |
| Home.LookupRequestsFor | src/app/page.tsx:35-55 | a blank term sends no lookups, and no term sends more than 12 |
| Home.Truthy | src/app/page.tsx:142 | JavaScript truthiness of `error`: truthy exactly when an error is set, since no message is empty |
| Home.Panels | src/app/page.tsx:135-176 | the five panel conditions as written: while loading only the spinner shows; otherwise one or two panels show, never the spinner |
| Home.UiState | src/app/page.tsx:135-176 | the single panel a consistent page shows: loading exactly when loading, the error exactly when not loading and an error is set, the empty notice only after a search with no recipes, the results only after a search with recipes |
| Home.ExactlyOnePanel | src/app/page.tsx:135-176 | whenever recipes imply a clean search, exactly one panel renders: loading, error, empty, results or welcome |
| Home.UnsearchedRecipesShowTwoPanels | src/app/page.tsx:162-176 | without that invariant, recipes held before any search would render the results and the welcome panel together |
| Home.SearchedNoMatches | src/app/page.tsx:43-45 | a search with zero matches leaves no recipes, no error, searched, and shows the empty notice |
| Home.PanelOfSearch | src/app/page.tsx:135-176 | a completed search shows the error panel when it reported an error, the empty notice when it found nothing, and the results otherwise |
| Home.HomePage.constructor | src/app/page.tsx:13-17 | the first render holds the initial fields and arms the effect's first timer for the empty text |
| Home.HomePage.ClearResults | src/app/page.tsx:80-85 | the reset changes only the fields `Cleared` names and makes no request |
| Home.HomePage.PerformSearch | src/app/page.tsx:34-74 | keeps the invariants; a blank term only clears; any other term sends one filter request for its query term and one lookup per candidate, and leaves the fields of the settled search with `isLoading` false |
| Home.HomePage.Search | src/app/page.tsx:42-73 | a non-blank search: keeps the invariants and the input, leaves exactly the settled search's fields, and logs one filter request for the query term and the candidates' lookups |
| Home.HomePage.Fetch | src/app/page.tsx:47-70 | the `try` block: one filter request, the candidates' lookups, and the settled outcome in `recipes` and `error`, with nothing else changed |
| Home.HomePage.Change | src/app/page.tsx:114 | an input event updates the text and timer as the debounce prescribes, keeps the invariants, and changes no rendered field |
| Home.HomePage.Tick | src/app/page.tsx:76-89 | a due timer is consumed and its text committed (cleared when blank, searched otherwise); a tick with nothing due changes nothing |
| Home.HomePage.Elapse | src/app/page.tsx:77-86 | the timer callback: keeps the invariants and the input, leaves the fields of committing the current text, and logs exactly the requests that commit makes |
| Home.HomePage.Submit | src/app/page.tsx:91-99 | a non-blank text is searched at once and the pending timer is left armed; a blank submit changes nothing |
| Home.TypingSendsOneRequest | src/app/page.tsx:76-99 | three quick edits send one filter request, for the last text, once the clock reaches 700 ms, and none before |
| Home.SubmitDuringWindowSearchesTwice | src/app/page.tsx:91-99 | a submit inside the debounce window searches at once, and the timer searches the same text again |
| Home.ClearingReturnsToIdle | src/app/page.tsx:80-85 | clearing the input after a search returns the page to the welcome panel once the timer fires |

## Left out

- HTTP, JSON parsing and the API URLs are not modelled. The two endpoints are the parameters `filter` and `lookup`. The query term is passed to `filter` as it is, so URL construction and the missing URL-encoding are not modelled.
- `Promise.all` concurrency is not modelled. Its result is in candidate order whatever the order of completion, so the lookups are a sequential map.
- Overlapping searches are not modelled. Each search runs to completion before the next event. The page has no guard against a stale search finishing after a newer one; under interleaving, the recipes-imply-searched invariant can fail, and the model does not show that.
- The intermediate loading state is never observed between events, for the same reason. The disabled submit button while loading is not modelled either, since a submit never arrives during a search.
- React's hook mechanics, JSX markup, styling, icons, images and the footer are not modelled. What remains are the panel conditions and the card's rows.
- The empty notice's text shows the live `searchTerm` rather than the searched one. Panel text is not modelled.
- `console.error` logging is not modelled. It has no effect on state.
- Timers are not wall-clock timers. Time is a logical millisecond clock, and a timer fires only when a `Tick` event reads the clock. Unmount cleanup is not modelled.
- Strings are sequences of Unicode characters, not UTF-16 code units. So `substring(0, 120)` counts characters.
- JsStrings.ToLower: lower-cases ASCII letters only, not all of Unicode.
- A thrown value that is not an `Error` is not modelled separately. Its `message` is whatever string the `filter` parameter reports.
- The recipe type's declaring file is not part of this model. The record keeps only the fields used here.
- `strInstructions` is a plain string, so an absent value is not distinguished from the empty one.
- The recipe detail page, ingredient extraction and the branding badge are not part of this model.
