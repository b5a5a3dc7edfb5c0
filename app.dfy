/**
  The pure helpers of the recipe book screen (App.tsx): the category/search filter, the category
  labels, the health-score clamp used for display, the display defaults of a photo analysis, and
  the data-URL split done before a captured photo is sent for analysis.
*/
module App {
  import opened Types
  import opened Text
  import opened GeminiService

  // ---------------------------------------------------------------- categories and filter

  const CategoryLabels: map<string, string> :=
    map["breakfast" := "Сніданки", "lunch" := "Обіди", "dinner" := "Вечері", "snack" := "Перекуси"]

  /** `CATEGORY_LABELS[recipe.category] || recipe.category`: the label, or the raw category when it has none. */
  function CategoryLabel(category: string): (shownLabel: string)
    ensures category in CategoryLabels ==> shownLabel == CategoryLabels[category]
    ensures category !in CategoryLabels ==> shownLabel == category
  {
    if category in CategoryLabels && CategoryLabels[category] != "" then CategoryLabels[category] else category
  }

  /**
    The picture prompt the image loop sends for a recipe (App.tsx computes the label, the service
    builds the prompt) names the dish, the category's label, or the raw category when it has no
    label, and the ingredients joined by ", ".
  */
  lemma RecipeImagePromptMentions(recipe: Recipe)
    ensures var prompt := ImagePrompt(recipe.title, CategoryLabel(recipe.category), recipe.ingredients);
      && Contains(prompt, recipe.title)
      && (recipe.category in CategoryLabels ==> Contains(prompt, CategoryLabels[recipe.category]))
      && (recipe.category !in CategoryLabels ==> Contains(prompt, recipe.category))
      && Contains(prompt, Join(recipe.ingredients, ", "))
  {
    ImagePromptMentions(recipe.title, CategoryLabel(recipe.category), recipe.ingredients);
  }

  /**
    The filter predicate: the recipe is in the active category and, unless the query is empty, its
    lower-cased title includes the lower-cased query. `lower` stands for `toLowerCase`.
  */
  predicate Matches(recipe: Recipe, activeCategory: string, searchQuery: string, lower: string -> string) {
    recipe.category == activeCategory
      && (searchQuery == "" || Contains(lower(recipe.title), lower(searchQuery)))
  }

  /** `sub` is `s` with some elements left out, the rest in their order. */
  ghost predicate IsSubsequence<T>(sub: seq<T>, s: seq<T>)
    decreases |s|
  {
    if |sub| == 0 then true
    else if |s| == 0 then false
    else (sub[0] == s[0] && IsSubsequence(sub[1..], s[1..])) || IsSubsequence(sub, s[1..])
  }

  /**
    `filteredRecipes`: keeps exactly the recipes that match, in their order. Every kept recipe
    matches, every matching recipe is kept, and the result is a subsequence of `recipes`.
  */
  function FilteredRecipes(recipes: seq<Recipe>, activeCategory: string, searchQuery: string,
                           lower: string -> string): (kept: seq<Recipe>)
    ensures forall k :: 0 <= k < |kept| ==> Matches(kept[k], activeCategory, searchQuery, lower)
    ensures forall k :: 0 <= k < |recipes| && Matches(recipes[k], activeCategory, searchQuery, lower)
                        ==> recipes[k] in kept
    ensures IsSubsequence(kept, recipes)
    decreases |recipes|
  {
    if |recipes| == 0 then []
    else
      var rest := FilteredRecipes(recipes[1..], activeCategory, searchQuery, lower);
      assert forall k :: 1 <= k < |recipes| ==> recipes[k] == recipes[1..][k - 1];
      if Matches(recipes[0], activeCategory, searchQuery, lower) then
        assert ([recipes[0]] + rest)[1..] == rest;
        [recipes[0]] + rest
      else rest
  }

  /** Filtering a concatenation filters each part: the filter keeps order and multiplicity. */
  lemma {:induction false} FilterConcat(a: seq<Recipe>, b: seq<Recipe>, activeCategory: string,
                                        searchQuery: string, lower: string -> string)
    ensures FilteredRecipes(a + b, activeCategory, searchQuery, lower)
         == FilteredRecipes(a, activeCategory, searchQuery, lower) + FilteredRecipes(b, activeCategory, searchQuery, lower)
    decreases |a|
  {
    if |a| > 0 {
      FilterConcat(a[1..], b, activeCategory, searchQuery, lower);
      assert (a + b)[1..] == a[1..] + b;
    } else {
      assert a + b == b;
    }
  }

  /** A one-recipe list is kept exactly when the recipe matches. */
  lemma FilterSingle(recipe: Recipe, activeCategory: string, searchQuery: string, lower: string -> string)
    ensures FilteredRecipes([recipe], activeCategory, searchQuery, lower)
         == if Matches(recipe, activeCategory, searchQuery, lower) then [recipe] else []
  {
  }

  /** With an empty query the whole category is kept, however titles are lower-cased. */
  lemma {:induction false} EmptyQueryKeepsCategory(recipes: seq<Recipe>, activeCategory: string,
                                                   lower: string -> string, otherLower: string -> string)
    ensures FilteredRecipes(recipes, activeCategory, "", lower) == FilteredRecipes(recipes, activeCategory, "", otherLower)
    ensures forall k :: 0 <= k < |recipes| && recipes[k].category == activeCategory
                        ==> recipes[k] in FilteredRecipes(recipes, activeCategory, "", lower)
    ensures forall r :: r in FilteredRecipes(recipes, activeCategory, "", lower) ==> r.category == activeCategory
    decreases |recipes|
  {
    if |recipes| > 0 {
      EmptyQueryKeepsCategory(recipes[1..], activeCategory, lower, otherLower);
    }
  }

  /** The search ignores case: queries with the same lower-cased form select the same recipes. */
  lemma {:induction false} SearchIgnoresCase(recipes: seq<Recipe>, activeCategory: string,
                                             query: string, sameQuery: string, lower: string -> string)
    requires lower(query) == lower(sameQuery)
    requires query == "" <==> sameQuery == ""
    ensures FilteredRecipes(recipes, activeCategory, query, lower) == FilteredRecipes(recipes, activeCategory, sameQuery, lower)
    decreases |recipes|
  {
    if |recipes| > 0 {
      SearchIgnoresCase(recipes[1..], activeCategory, query, sameQuery, lower);
    }
  }

  // ---------------------------------------------------------------- health score

  function Min(a: real, b: real): real { if a <= b then a else b }
  function Max(a: real, b: real): real { if a >= b then a else b }

  /** `Math.max(0, Math.min(10, health_score_0_10))`: the score shown, before rounding. */
  function DisplayHealthScore(score: real): (shown: real)
    ensures 0.0 <= shown <= 10.0
    ensures 0.0 <= score <= 10.0 ==> shown == score
    ensures score < 0.0 ==> shown == 0.0
    ensures score > 10.0 ==> shown == 10.0
  {
    Max(0.0, Min(10.0, score))
  }

  /** Raw scores -5, 0, 7, 10 and 15 are shown as 0, 0, 7, 10 and 10. */
  lemma HealthScoreExamples()
    ensures DisplayHealthScore(-5.0) == 0.0
    ensures DisplayHealthScore(0.0) == 0.0
    ensures DisplayHealthScore(7.0) == 7.0
    ensures DisplayHealthScore(10.0) == 10.0
    ensures DisplayHealthScore(15.0) == 10.0
  {
  }

  /** Clamping keeps the order of scores and is idempotent. */
  lemma DisplayHealthScoreMonotone(a: real, b: real)
    requires a <= b
    ensures DisplayHealthScore(a) <= DisplayHealthScore(b)
    ensures DisplayHealthScore(DisplayHealthScore(a)) == DisplayHealthScore(a)
  {
  }

  /** The width of the score bar, in percent: the clamped score times ten. */
  function HealthBarWidth(score: real): (percent: real)
    ensures 0.0 <= percent <= 100.0
    ensures 0.0 <= score <= 10.0 ==> percent == score * 10.0
    ensures score < 0.0 ==> percent == 0.0
    ensures score > 10.0 ==> percent == 100.0
  {
    DisplayHealthScore(score) * 10.0
  }

  // ---------------------------------------------------------------- photo-analysis display

  /** A value as the result card shows it: a number, or placeholder text. */
  datatype Shown = Amount(value: real) | Placeholder(text: string)

  /** `calories_kcal || "—"`: unknown calories, and also zero calories, show a dash. */
  function CaloriesShown(calories: Option<real>): (shown: Shown)
    ensures shown.Placeholder? <==> calories.None? || calories.value == 0.0
    ensures shown.Placeholder? ==> shown.text == "—"
    ensures shown.Amount? ==> calories == Some(shown.value)
  {
    if calories.Some? && calories.value != 0.0 then Amount(calories.value) else Placeholder("—")
  }

  /** `protein_g ?? "0"` (and carbs, fat): an unknown macro shows "0", a known one its value. */
  function MacroShown(grams: Option<real>): (shown: Shown)
    ensures shown.Placeholder? <==> grams.None?
    ensures shown.Placeholder? ==> shown.text == "0"
    ensures shown.Amount? ==> grams == Some(shown.value)
  {
    if grams.Some? then Amount(grams.value) else Placeholder("0")
  }

  // ---------------------------------------------------------------- captured photo

  /** What `handleAnalyzePhoto` takes out of a data URL; `data` is None when the URL has no comma (`undefined`). */
  datatype CapturedImage = CapturedImage(mimeType: string, data: Option<string>)

  /**
    `capturedImage.split(',')[1]` and `capturedImage.split(',')[0].split(':')[1].split(';')[0]`.
    None stands for the TypeError thrown when the header has no ':' (`.split` on `undefined`).
  */
  function ParseDataUrl(url: string): (r: Option<CapturedImage>)
    ensures r.None? <==> ':' !in Split(url, ',')[0]
    ensures r.Some? ==> (r.value.data.Some? <==> ',' in url)
  {
    var pieces := Split(url, ',');
    var header := pieces[0];
    var afterColon := Split(header, ':');
    SplitHasSecondPiece(url, ',');
    SplitHasSecondPiece(header, ':');
    if |afterColon| < 2 then None
    else Some(CapturedImage(Split(afterColon[1], ';')[0], if |pieces| >= 2 then Some(pieces[1]) else None))
  }

  /**
    The split reads the media type between the first ':' and the first ';' of the header and the
    data after the first ','; neither the scheme nor the label after ';' is checked.
  */
  lemma ParseAnyDataUrl(scheme: string, mimeType: string, tag: string, data: string)
    requires ',' !in scheme && ':' !in scheme
    requires ',' !in mimeType && ':' !in mimeType && ';' !in mimeType
    requires ',' !in tag && ':' !in tag && ';' !in tag
    requires ',' !in data
    ensures ParseDataUrl(scheme + ":" + mimeType + ";" + tag + "," + data) == Some(CapturedImage(mimeType, Some(data)))
  {
    var tail := mimeType + ";" + tag;
    var header := scheme + ":" + tail;
    var url := scheme + ":" + mimeType + ";" + tag + "," + data;
    assert Join([header, data], ",") == url;
    SplitJoin([header, data], ',');
    assert Join([scheme, tail], ":") == header;
    SplitJoin([scheme, tail], ':');
    assert Join([mimeType, tag], ";") == tail;
    SplitJoin([mimeType, tag], ';');
  }

  /** Round trip: a data URL built by the image service splits back into its media type and data. */
  lemma DataUrlRoundTrip(mimeType: string, data: string)
    requires ',' !in mimeType && ':' !in mimeType && ';' !in mimeType
    requires ',' !in data
    ensures ParseDataUrl(DataUrl(mimeType, data)) == Some(CapturedImage(mimeType, Some(data)))
  {
    ParseAnyDataUrl("data", mimeType, "base64", data);
  }

  /** What `handleAnalyzePhoto` ends in. */
  datatype PhotoAction =
    | Ignored                                   // no captured image: returns at once
    | ShowResult(result: PhotoAnalysisResult)   // setPhotoResult(result)
    | AlertNotAnalyzed                          // the service returned null
    | AlertError                                // an exception reached the catch block

  /**
    `handleAnalyzePhoto`, with the service's SDK and parser as oracles. The error alert is raised
    exactly when the captured data URL cannot be split, since the service itself never throws.
  */
  function HandleAnalyzePhoto(captured: Option<string>, sdk: (Option<string>, string) -> Sdk<Option<string>>,
                              parse: string -> Parse<Option<PhotoAnalysisResult>>): (action: PhotoAction)
    ensures action == Ignored <==> captured.None? || captured.value == ""
    ensures action == AlertNotAnalyzed <==>
              captured.Some? && captured.value != "" && ParseDataUrl(captured.value).Some? &&
              AnalyzeMealPhoto(ParseDataUrl(captured.value).value.data, ParseDataUrl(captured.value).value.mimeType,
                               sdk, parse).None?
    ensures action == AlertError <==> captured.Some? && captured.value != "" && ParseDataUrl(captured.value).None?
    ensures action.ShowResult? ==>
              captured.Some? && ParseDataUrl(captured.value).Some? &&
              AnalyzeMealPhoto(ParseDataUrl(captured.value).value.data, ParseDataUrl(captured.value).value.mimeType,
                               sdk, parse) == Some(action.result)
  {
    if captured.None? || captured.value == "" then Ignored
    else
      match ParseDataUrl(captured.value)
      case None => AlertError
      case Some(image) =>
        match AnalyzeMealPhoto(image.data, image.mimeType, sdk, parse)
        case Some(result) => ShowResult(result)
        case None => AlertNotAnalyzed
  }
}
