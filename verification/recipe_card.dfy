/** What a recipe card derives from its record: the short description, the vegetarian badge and the info rows. */
module RecipeCard {
  import opened Wrappers
  import opened JsStrings
  import opened Recipe

  const DescriptionLength := 120
  const Ellipsis := "..."
  const NoDescription := "No description available."

  /**
   * `briefDescription`: the first 120 characters of the instructions followed by
   * an ellipsis, or the fallback text when there are no instructions.
   */
  function BriefDescription(instructions: string): (r: string)
    ensures |r| <= DescriptionLength + |Ellipsis|
    ensures instructions == [] ==> r == NoDescription
    ensures instructions != [] ==>
              |r| > |Ellipsis| && r[|r| - |Ellipsis|..] == Ellipsis && r[..|r| - |Ellipsis|] <= instructions
  {
    if instructions != [] then
      instructions[..Min(DescriptionLength, |instructions|)] + Ellipsis
    else
      NoDescription
  }

  /** Instructions of at most 120 characters are kept whole; the ellipsis is appended all the same. */
  lemma ShortDescriptionKeepsAll(instructions: string)
    requires 0 < |instructions| <= DescriptionLength
    ensures BriefDescription(instructions) == instructions + Ellipsis
  {
    assert instructions[..|instructions|] == instructions;
  }

  /** Longer instructions are cut to exactly their first 120 characters. */
  lemma LongDescriptionIsCut(instructions: string)
    requires |instructions| > DescriptionLength
    ensures |BriefDescription(instructions)| == DescriptionLength + |Ellipsis|
    ensures BriefDescription(instructions) == instructions[..DescriptionLength] + Ellipsis
  {
  }

  /** `isVegetarian`: the category is exactly "Vegetarian", or the lower-cased tags include "vegetarian". */
  function IsVegetarian(m: MealDetail): (r: bool)
    ensures r <==> m.strCategory == "Vegetarian"
                   || (m.strTags.Some? && IsInfix("vegetarian", ToLower(m.strTags.value)))
  {
    if m.strCategory == "Vegetarian" then true
    else match m.strTags
      case None => false
      case Some(tags) =>
        IncludesIffInfix(ToLower(tags), "vegetarian");
        Includes(ToLower(tags), "vegetarian")
  }

  /** Tags are compared case-insensitively: any casing of "vegetarian" inside them earns the badge. */
  lemma TagsMatchInAnyCase(m: MealDetail, i: nat)
    requires m.strTags.Some? && i + 10 <= |m.strTags.value|
    requires ToLower(m.strTags.value[i..i + 10]) == "vegetarian"
    ensures IsVegetarian(m)
  {
    var tags := m.strTags.value;
    ToLowerSlice(tags, i, i + 10);
    assert "vegetarian" <= ToLower(tags)[i..];
  }

  /** The category comparison is case-sensitive: "vegetarian" as a category with no tags earns nothing. */
  lemma CategoryIsCaseSensitive(m: MealDetail)
    requires m.strCategory == "vegetarian" && m.strTags.None?
    ensures !IsVegetarian(m)
  {
  }

  /** The rows under a card's title, in display order. */
  datatype InfoRow = OriginRow(area: string) | CategoryRow(category: string) | VegetarianRow

  /** A row's place on the card: origin, then category, then the badge. */
  function Rank(row: InfoRow): nat {
    match row
    case OriginRow(_) => 0
    case CategoryRow(_) => 1
    case VegetarianRow => 2
  }

  /** The conditional rows of the card: each is shown only when its value is truthy. */
  function InfoRows(m: MealDetail): (rows: seq<InfoRow>)
    ensures OriginRow(m.strArea) in rows <==> m.strArea != ""
    ensures CategoryRow(m.strCategory) in rows <==> m.strCategory != ""
    ensures VegetarianRow in rows <==> IsVegetarian(m)
    ensures forall row :: row in rows ==>
              row == OriginRow(m.strArea) || row == CategoryRow(m.strCategory) || row == VegetarianRow
    ensures forall i, j :: 0 <= i < j < |rows| ==> Rank(rows[i]) < Rank(rows[j])
    ensures |rows| <= 3
  {
    (if m.strArea != "" then [OriginRow(m.strArea)] else [])
    + (if m.strCategory != "" then [CategoryRow(m.strCategory)] else [])
    + (if IsVegetarian(m) then [VegetarianRow] else [])
  }
}
