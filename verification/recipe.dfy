/**
 * The records exchanged with the recipe database: the summary a filter query
 * returns, the full record a lookup returns, and the two responses as the page
 * sees them once the HTTP exchange is over.
 */
module Recipe {
  import opened Wrappers

  /** One entry of a filter-by-ingredient answer; only `idMeal` is used downstream. */
  datatype MealSummary = MealSummary(idMeal: string, strMeal: string, strMealThumb: string)

  /** The fields of a full recipe record that the page and the card read; an absent text field is "". */
  datatype MealDetail = MealDetail(
    idMeal: string,
    strMeal: string,
    strMealThumb: string,
    strCategory: string,
    strArea: string,
    strInstructions: string,
    strTags: Option<string>)

  /**
   * How the filter request ended: a non-success status, an exception (network
   * failure or unreadable body, with its message), or a body whose `meals` may be null.
   */
  datatype FilterResponse =
    | FilterNotOk(statusText: string)
    | FilterThrew(message: string)
    | FilterBody(meals: Option<seq<MealSummary>>)

  /** How one lookup-by-id request ended, in the same three ways. */
  datatype LookupResponse =
    | LookupNotOk(statusText: string)
    | LookupThrew(message: string)
    | LookupBody(meals: Option<seq<MealDetail>>)
}
