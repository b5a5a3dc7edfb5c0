# Recipe book enrichment — a verified model

A model of the recipe/nutrition app's logic, proved in Dafny 4.11. The app shows a fixed list of
recipes and fills in AI-estimated nutrition and AI-generated pictures in the background.

- **The background enrichment run** (`runBackgroundTasks` in `App.tsx`) is the class
  `BackgroundTasks.Enrichment`. Its state is the nutrition cache, the image cache, the two
  in-flight id sets and the session-sticky quota flag. A run is two `while` loops (nutrition first,
  then images) proved equal to the specification function `Run`. The lemmas beside it say which
  recipes get requested, what each cache holds afterwards and when each pass stops.
- **The pure helpers of `App.tsx`** are in module `App`:
  - the category/search filter;
  - the health-score clamp and bar width;
  - the display defaults of the photo result card;
  - the data-URL split of `handleAnalyzePhoto`, and what the handler ends in.
- **The post-processing in `services/geminiService.ts`** is in module `GeminiService`. The SDK
  call and `JSON.parse` are oracle parameters. This covers:
  - the nutrition prompt;
  - the quota classification and the null-on-failure mapping;
  - the first-inline-image search and data-URL assembly;
  - the photo analysis and the legacy stub.
- `Text` holds the JavaScript string operations these use (`includes`, `join`, one-character
  `split`), with their round trip proved. `Types` holds the shared records.

How one run is modelled:

- **Replies.** What the remote calls return is an input, per recipe position:
  `World.nutritionReplies[i]` and `World.imageReplies[i]`. Each is `Returned(Some(v))`,
  `Returned(None)` (`null`) or `Threw(message)`.
- **Liveness.** `isMounted` turns false when the effect's cleanup runs (`App.tsx:126`): on
  unmount, and also whenever a dependency of the effect changes (`App.tsx:127`), this run's own
  writes to the caches and the quota flag included. The cleanup can only run while the run is
  suspended at an await, and nothing turns `isMounted` back on. So `isMounted` read after `t`
  resumed awaits is `t <= World.liveAwaits`. `liveAwaits` is a free input, so every point at which
  a cleanup can come, right after the run's own first write included, is a case the lemmas cover.
- **Awaits.** Every attempt awaits twice: the remote call, then the delay in `finally`.

Behaviour of the code that the model keeps:

- **Quota error.** After a quota error the nutrition loop `break`s (`App.tsx:94`). The image loop
  never reads the quota flag (`App.tsx:104-107`): `ImageRequestsArePrefix` proves that only a
  check finding `isMounted` false cuts the image requests short. In the app the flag write
  (`App.tsx:93`) changes a dependency of the effect, so this run's cleanup runs during the
  `finally` delay and the same run's image loop stops at its first check. The re-triggered run,
  which captured the flag as set, does the images. Likewise a stored estimate or image
  (`App.tsx:89`, `114`) re-triggers the effect, and the run stops at its next check.
- **The quota chain.** `RateLimitEndsNutritionPass` combines the service and the loop: when the
  SDK call for a recipe fails with a message mentioning "429", a request for that recipe is the
  run's last nutrition request and leaves the flag set.
- **Snapshot reads.** The skip tests read the caches and the quota flag that the effect captured
  when the run started (`App.tsx:78`, `80`, `107`). Writes go to the live state. A setter call
  does not change what the rest of the same run reads.
- **Other rules the code follows:**
  - `calories_kcal || "—"` also shows a dash for zero calories (`App.tsx:313`).
  - Malformed stored JSON makes `JSON.parse` throw, uncaught (`App.tsx:46`). The constructor
    takes the parser as a total function and claims nothing about malformed text.
  - The steps line of the nutrition prompt is present whenever a steps array is passed, an empty
    one included, because an empty array is truthy (`services/geminiService.ts:51`).
  - A `JSON.parse` failure inside `estimateRecipeNutrition` goes to the same `catch`. If its
    message mentions "429" or "quota", it too becomes QUOTA_EXCEEDED.
  - A cached image counts as present only when it is a non-empty string, and an empty URL is never
    stored (`App.tsx:107`, `113`).

## Model

| member | source | states |
|---|---|---|
| BackgroundTasks.Enrichment.constructor | App.tsx:41-52 | the nutrition cache is the parsed stored text when there is non-empty stored text and empty otherwise; the image cache and both in-flight sets are empty and the quota flag is off |
| BackgroundTasks.Enrichment.RunBackgroundTasks | App.tsx:75-123 | one run leaves exactly the state `Run` describes and returns the positions requested by each pass; at each request's call the matching in-flight set is the one the run started with plus that recipe's id |
| BackgroundTasks.Enrichment.NutritionLoop | App.tsx:77-102 | the nutrition loop changes only the nutrition cache and the quota flag, as `NutritionPass` says; at each call the in-flight set is the starting set plus that recipe's id (marked before the call), and the set after the loop is the starting set (dropped in `finally`) |
| BackgroundTasks.Enrichment.ImageLoop | App.tsx:105-122 | the image loop changes only the image cache, as `ImagePass` says; the quota flag is neither read nor written; at each call the in-flight set is the starting set plus that recipe's id, and the set after the loop is the starting set |
| BackgroundTasks.NutritionRequestsAreEligible | App.tsx:77-81 | every nutrition request is for a recipe with no cache entry that was not in flight at the start; the k-th request is issued only when `isMounted` held 2k awaits in; requests follow list order; there are none when the quota flag was set |
| BackgroundTasks.QuotaAtStartBlocksNutrition | App.tsx:78 | a run that starts with the quota flag set requests no nutrition, leaves the nutrition cache as it was and keeps the flag set |
| BackgroundTasks.QuotaErrorEndsNutritionPass | App.tsx:91-95 | only the last nutrition request can have got the quota error, so nothing after it is requested; the flag is set after the run exactly when it was set before or that last request got the quota error |
| BackgroundTasks.RateLimitEndsNutritionPass | App.tsx:83-95 | when a recipe's reply is what the service gives for its own request and the SDK call failed with a message containing "429", a request for that recipe is the last nutrition request of the run and the quota flag is set afterwards |
| BackgroundTasks.NutritionCacheGainsOnlyEstimates | App.tsx:83-90 | each entry the nutrition cache started with is kept unchanged; each new entry holds a non-null estimate received while `isMounted` held for a recipe with that id; each such estimate has an entry; null and error replies add nothing |
| BackgroundTasks.StoredEstimateIsCached | App.tsx:88-89 | when recipe ids are distinct, each non-null estimate received while `isMounted` held is exactly the entry cached for that recipe's id |
| BackgroundTasks.NutritionRequestsArePrefix | App.tsx:77-102 | the nutrition requests are the recipes needing an estimate, in list order, up to a cut; the cut falls short of the whole list only when the quota flag was set at the start, `isMounted` was false at the check after the requests made, or the last request got the quota error |
| BackgroundTasks.NutritionPassRequestsAllMissing | App.tsx:77-102 | follows from the prefix form: if `isMounted` stays true, the flag is off and no quota error comes back, the pass requests exactly the recipes needing an estimate, in list order: a null reply or a non-quota error skips only that recipe |
| BackgroundTasks.ImageRequestsAreEligible | App.tsx:105-109 | every image request is for a recipe without a non-empty image that was not in flight at the start; each is issued only while `isMounted` held; requests follow list order |
| BackgroundTasks.ImageCacheGainsOnlyImages | App.tsx:112-115 | each non-empty image the cache started with is kept; each other entry is either untouched or a non-empty image received while `isMounted` held for that id; each such image has a non-empty entry |
| BackgroundTasks.StoredImageIsCached | App.tsx:113-114 | when recipe ids are distinct, each non-empty image received while `isMounted` held is exactly the entry cached for that recipe's id |
| BackgroundTasks.ImageRequestsArePrefix | App.tsx:104-122 | the image requests are the recipes needing an image, in list order, up to a cut; the cut falls short of the whole list only when `isMounted` was false at the check after the requests made, whatever the replies and the quota flag |
| BackgroundTasks.ImagePassRequestsAllMissing | App.tsx:104-122 | follows from the prefix form: if `isMounted` stays true, the image pass requests exactly the recipes lacking an image, in list order, whatever the replies and the quota flag: only a false `isMounted` check stops it |
| BackgroundTasks.RunFrame | App.tsx:81-120 | the image pass leaves the quota flag as the nutrition pass set it and a set flag stays set; that both in-flight sets end as they started holds by `Run`'s definition, and the marks taken at each call are stated by the loop methods |
| App.CategoryLabel | App.tsx:111 | a category with a label shows its label; any other category shows its raw name |
| App.RecipeImagePromptMentions | App.tsx:111-112 | the picture prompt sent for a recipe contains its title, its category's label (its raw category when it has none) and its ingredients joined with ", " |
| App.FilteredRecipes | App.tsx:64-69 | every kept recipe has the active category and, for a non-empty query, a lower-cased title containing the lower-cased query; every such recipe is kept; the result is an order-preserving sublist |
| App.FilterConcat | App.tsx:65-68 | filtering a concatenation gives the concatenation of the filtered parts, so order and duplicates are kept |
| App.FilterSingle | App.tsx:65-68 | a one-recipe list is kept exactly when the recipe matches |
| App.EmptyQueryKeepsCategory | App.tsx:67 | with an empty query the result does not depend on lower-casing, keeps every recipe of the active category and only those |
| App.SearchIgnoresCase | App.tsx:67 | two queries with the same lower-cased form select the same recipes |
| App.DisplayHealthScore | App.tsx:251 | the shown score lies in [0,10], equals the raw score when it is in range, and is 0 below and 10 above |
| App.HealthScoreExamples | App.tsx:411 | the raw scores -5, 0, 7, 10 and 15 are shown as 0, 0, 7, 10 and 10 |
| App.DisplayHealthScoreMonotone | App.tsx:411 | the clamp preserves the order of scores and clamping twice is the same as once |
| App.HealthBarWidth | App.tsx:416 | the bar width lies in [0,100] percent, is ten times an in-range score, 0 below the range and 100 above it |
| App.CaloriesShown | App.tsx:313 | a dash is shown exactly when the calories are unknown or zero; otherwise the value is shown |
| App.MacroShown | App.tsx:320-328 | "0" is shown exactly when a macro is unknown; otherwise its value is shown |
| App.ParseDataUrl | App.tsx:145-146 | splitting fails (a TypeError) exactly when the header before the first comma has no colon; the data part is present exactly when the URL has a comma |
| App.ParseAnyDataUrl | App.tsx:145-146 | for `scheme:m;tag,d` with separator-free pieces, the media type is `m` and the data is `d` |
| App.DataUrlRoundTrip | App.tsx:145-146 | a data URL assembled by the image service splits back into the media type and data it was built from |
| App.HandleAnalyzePhoto | App.tsx:141-155 | nothing happens exactly when no image was captured; the error alert is raised exactly when the data URL cannot be split; the not-analyzed alert exactly when it splits and the photo analysis returns null; a shown result is what the analysis returned for the split-out data and media type |
| GeminiService.NutritionPromptMentions | services/geminiService.ts:48-51 | the nutrition prompt contains the title, the ingredients joined with ", " and, when steps are supplied, the "Кроки:" line of the joined steps |
| GeminiService.StepsLineIsTheOnlyDifference | services/geminiService.ts:51 | supplying steps inserts exactly the steps line into the prompt without them, before the schema, and changes nothing else |
| GeminiService.QuotaOrNull | services/geminiService.ts:91-97 | an error is rethrown as QUOTA_EXCEEDED exactly when its message mentions "429" or "quota"; otherwise the result is null |
| GeminiService.EstimateRecipeNutrition | services/geminiService.ts:42-98 | the only error that escapes is QUOTA_EXCEEDED, raised exactly for a quota-like failure of the call or of parsing; a non-empty text that parses is returned as parsed, a falsy JSON value as null; a non-null result comes exactly from a non-empty text that parses to a record, and is that record |
| GeminiService.RateLimitIsQuota | services/geminiService.ts:92-93 | a failure whose message contains "429" anywhere is reported as QUOTA_EXCEEDED |
| GeminiService.ImagePromptMentions | services/geminiService.ts:106-110 | the picture prompt contains the dish title, the category label and the ingredients joined with ", " |
| GeminiService.DataUrl | services/geminiService.ts:147 | an assembled image reference always starts with "data:" |
| GeminiService.InlineDataUrl | services/geminiService.ts:147 | the URL built from an inline image part starts with "data:", whatever fields are missing |
| GeminiService.FirstInlinePart | services/geminiService.ts:145-149 | the position found is the first part that carries inline data; none is found exactly when no part carries any |
| GeminiService.GenerateRecipeImage | services/geminiService.ts:104-155 | a failed call gives null and never an error; a result is the data URL of the first part that carries inline data; null after an answer means no part carries inline data |
| GeminiService.FirstImageWins | services/geminiService.ts:145-148 | when the first part carries an image, that image is returned whatever the later parts hold |
| GeminiService.AnalyzeMealPhoto | services/geminiService.ts:161-206 | a non-empty text that parses is returned as parsed, a falsy JSON value as null; a result is returned exactly when the call answers with a non-empty text that parses to a record, and it is that record; every other case gives null and never an error |
| GeminiService.AnalyzeMealDescription | services/geminiService.ts:33-36 | whatever the description, the call throws "Legacy function not used in Coconut MVP" |
| Text.ContainsIffOccurs | App.tsx:67 | `includes` holds exactly when the substring starts at some position |
| Text.Split | App.tsx:145-146 | `split` by one character gives at least one piece, no piece holds the separator, and joining the pieces gives the string back |
| Text.SplitJoin | App.tsx:145-146 | splitting a join of separator-free pieces gives the pieces back |
| Text.SplitHasSecondPiece | App.tsx:145 | there is a second piece exactly when the separator occurs in the string |

## Left out

- Plain-object lookups are modelled as maps. An id or a category that names an inherited `Object.prototype` property (`constructor`, `toString`, `__proto__`, …) is not modelled. The source's `nutritionCache[id]`, `generatedImages[id]` and `CATEGORY_LABELS[c]` (`App.tsx:80`, `107`, `111`) find such a property and treat it as truthy. `NeedsNutrition`, `NeedsImage` and `CategoryLabel`, and every lemma built on them, assume ordinary data keys.
- React rendering, JSX, styling, the tabs and the recipe modal, and the components under `components/`: presentation only.
- The ring and progress-bar percentages of the components, and `Math.round` of the shown score: floating-point geometry and rounding. Scores are `real`, so NaN is not modelled either.
- The `setTimeout` delays and the `Math.random` jitter (`App.tsx:98`, `119`): timing only. An attempt is two awaits, with no duration.
- Effect re-triggering and overlapping runs (`App.tsx:126-127`): concurrency over the async runtime. One run is modelled. The in-flight sets and caches of other runs are the state a run starts from, and the model assumes no other run changes them while this one is suspended.
- The arguments of the remote calls in the run (title, ingredients and steps; title, category label and ingredients). The replies are supplied per recipe position, so any deterministic service is a special case.
- The `localStorage` read and write, and `JSON.parse`/`JSON.stringify` (`App.tsx:44-47`, `59-61`): I/O and a foreign parser. Parsing is an oracle parameter.
- BackgroundTasks.Enrichment.constructor: claims nothing about malformed stored text, because the source does not catch the parse error.
- A stored cache entry holding JSON `null` (which the skip test would treat as missing): cache values are modelled as estimates, always truthy.
- `JSON.parse` results other than a record or a falsy value (a number, a string or an array where
  the service expects a record): the parser oracles return either a record or no value.
- The Gemini SDK calls, the client construction, the model names, the response schemas and the API key: foreign calls. Their results are oracle parameters.
- The analyze-photo prompt text (`services/geminiService.ts:163-167`): it is a constant passed to the SDK, which is an oracle.
- `FileReader` in `handlePhotoCapture`, the `isAnalyzingPhoto` flag, `alert` and `console`: browser I/O. `HandleAnalyzePhoto` returns which alert or result would be shown.
- `toLowerCase`: Unicode case mapping. It is a function parameter of the filter, and `includes` is the sequence predicate `Text.Contains`.
- `constants.tsx` and `types.ts`: static data and type declarations. Only their shapes are used.
- The photo page's unclamped score bar (`App.tsx:340-343`): presentation only.
