/**
  The post-processing of the AI service (services/geminiService.ts). The SDK call itself and
  `JSON.parse` are supplied as oracles; what is modelled is what the service does with their
  answers: which results come back, which errors are rethrown and which become `null`.
*/
module GeminiService {
  import opened Types
  import opened Text

  /** What `ai.models.generateContent` does: answer with a response, or throw an error whose `message` may be missing. */
  datatype Sdk<+R> = Answered(response: R) | Failed(message: Option<string>)

  /**
    What `JSON.parse` does with a response text: a value, or a SyntaxError carrying a message. The
    service's parsers yield `Parsed(None)` for a JSON value that is falsy (`null`, `false`, `0`,
    `""`), which the service returns unchanged and every caller treats as no result.
  */
  datatype Parse<+T> = Parsed(value: T) | ParseError(message: string)

  /** `if (text)`: `response.text` is present and not empty. */
  predicate HasText(text: Option<string>) {
    text.Some? && text.value != ""
  }

  // ---------------------------------------------------------------- nutrition

  /** The argument of `estimateRecipeNutrition`; `steps` is optional. */
  datatype NutritionRequest = NutritionRequest(title: string, ingredients: seq<string>, steps: Option<seq<string>>)

  const NutritionIntro: string := "Проаналізуй цей рецепт та оціни харчову цінність на ОДНУ порцію.\nНазва: "

  const NutritionSchema: string := "\n\nПоверни ПРАВИЛЬНИЙ JSON об'єкт українською мовою. Оцінюй обережно.\nСхема: \n{\n  \"calories_kcal\": number|null,\n  \"protein_g\": number|null,\n  \"carbs_g\": number|null,\n  \"fat_g\": number|null,\n  \"health_score_0_10\": number,\n  \"health_label\": \"корисна\"|\"нейтральна\"|\"небажана\",\n  \"notes_short\": string\n}"

  /** The "Кроки:" line: present whenever steps are supplied (an empty array is truthy too). */
  function StepsLine(steps: Option<seq<string>>): string {
    if steps.Some? then "Кроки: " + Join(steps.value, " ") else ""
  }

  /** The prompt laid out around a given opening and schema text. */
  function PromptAround(intro: string, input: NutritionRequest, schema: string): string {
    intro + input.title + "\nІнгредієнти: " + Join(input.ingredients, ", ") + "\n"
      + StepsLine(input.steps) + schema
  }

  /** The prompt text sent for a recipe. */
  function NutritionPrompt(input: NutritionRequest): string {
    PromptAround(NutritionIntro, input, NutritionSchema)
  }

  /** Each piece of a seven-piece concatenation, at an even position, occurs in it. */
  lemma {:induction false} PiecesOccur(p1: string, p2: string, p3: string, p4: string, p5: string, p6: string, p7: string)
    ensures Contains(p1 + p2 + p3 + p4 + p5 + p6 + p7, p2)
    ensures Contains(p1 + p2 + p3 + p4 + p5 + p6 + p7, p4)
    ensures Contains(p1 + p2 + p3 + p4 + p5 + p6 + p7, p6)
  {
    var s := p1 + p2 + p3 + p4 + p5 + p6 + p7;
    assert s == p1 + p2 + (p3 + p4 + p5 + p6 + p7);
    ContainsInside(p1, p2, p3 + p4 + p5 + p6 + p7);
    assert s == (p1 + p2 + p3) + p4 + (p5 + p6 + p7);
    ContainsInside(p1 + p2 + p3, p4, p5 + p6 + p7);
    assert s == (p1 + p2 + p3 + p4 + p5) + p6 + p7;
    ContainsInside(p1 + p2 + p3 + p4 + p5, p6, p7);
  }

  /** The prompt names the recipe, lists its ingredients joined by ", " and, when given, its steps. */
  lemma NutritionPromptMentions(input: NutritionRequest)
    ensures Contains(NutritionPrompt(input), input.title)
    ensures Contains(NutritionPrompt(input), Join(input.ingredients, ", "))
    ensures input.steps.Some? ==> Contains(NutritionPrompt(input), "Кроки: " + Join(input.steps.value, " "))
  {
    PiecesOccur(NutritionIntro, input.title, "\nІнгредієнти: ", Join(input.ingredients, ", "), "\n",
                StepsLine(input.steps), NutritionSchema);
  }

  /** Whatever the opening and schema, supplying steps inserts the steps line just before the schema. */
  lemma {:induction false} StepsInsertedBeforeSchema(intro: string, schema: string, title: string,
                                                     ingredients: seq<string>, steps: seq<string>)
    ensures var bare := PromptAround(intro, NutritionRequest(title, ingredients, None), schema);
            var k := |bare| - |schema|;
            0 <= k &&
            PromptAround(intro, NutritionRequest(title, ingredients, Some(steps)), schema)
              == bare[..k] + "Кроки: " + Join(steps, " ") + bare[k..]
  {
    var head := intro + title + "\nІнгредієнти: " + Join(ingredients, ", ") + "\n";
    var bare := head + schema;
    assert PromptAround(intro, NutritionRequest(title, ingredients, None), schema) == bare;
    assert bare[..|head|] == head;
    assert bare[|head|..] == schema;
  }

  /** Supplying steps inserts exactly the steps line into the prompt without them, and nothing else. */
  lemma StepsLineIsTheOnlyDifference(title: string, ingredients: seq<string>, steps: seq<string>)
    ensures var bare := NutritionPrompt(NutritionRequest(title, ingredients, None));
            var k := |bare| - |NutritionSchema|;
            0 <= k &&
            NutritionPrompt(NutritionRequest(title, ingredients, Some(steps)))
              == bare[..k] + "Кроки: " + Join(steps, " ") + bare[k..]
  {
    StepsInsertedBeforeSchema(NutritionIntro, NutritionSchema, title, ingredients, steps);
  }

  /** `error?.message?.includes("429") || error?.message?.includes("quota")`. */
  predicate IsQuotaError(message: Option<string>) {
    message.Some? && (Contains(message.value, "429") || Contains(message.value, "quota"))
  }

  /** The catch block: a quota error is rethrown as QUOTA_EXCEEDED, any other error becomes `null`. */
  function QuotaOrNull(message: Option<string>): (r: Outcome<RecipeNutrition>)
    ensures r.Threw? <==> IsQuotaError(message)
    ensures r.Threw? ==> r.message == QuotaExceededMessage
    ensures r.Returned? ==> r.value.None?
  {
    if IsQuotaError(message) then Threw(QuotaExceededMessage) else Returned(None)
  }

  /**
    `estimateRecipeNutrition`: a non-empty response text is parsed and returned as it is, so a
    falsy JSON value comes back as no estimate; an empty or absent text gives `null`. Any failure inside the `try` (the SDK call, and `JSON.parse` too) goes to the
    catch block: it is rethrown as QUOTA_EXCEEDED when its message mentions "429" or "quota",
    and otherwise ends in `null`. No other error ever escapes.
  */
  function EstimateRecipeNutrition(input: NutritionRequest, sdk: string -> Sdk<Option<string>>,
                                   parse: string -> Parse<Option<RecipeNutrition>>): (r: Outcome<RecipeNutrition>)
    ensures var reply := sdk(NutritionPrompt(input));
      && (r.Threw? ==> r.message == QuotaExceededMessage)
      && (r.Threw? <==>
           (reply.Failed? && IsQuotaError(reply.message)) ||
           (reply.Answered? && HasText(reply.response) && parse(reply.response.value).ParseError?
              && IsQuotaError(Some(parse(reply.response.value).message))))
      && (reply.Answered? && HasText(reply.response) && parse(reply.response.value).Parsed? ==>
           r == Returned(parse(reply.response.value).value))
      && (r.Returned? && r.value.Some? <==>
           reply.Answered? && HasText(reply.response) && parse(reply.response.value).Parsed?
           && parse(reply.response.value).value.Some?)
      && (r.Returned? && r.value.Some? ==> r.value.value == parse(reply.response.value).value.value)
  {
    match sdk(NutritionPrompt(input))
    case Failed(message) => QuotaOrNull(message)
    case Answered(text) =>
      if HasText(text) then
        match parse(text.value)
        case Parsed(nutrition) => Returned(nutrition)
        case ParseError(message) => QuotaOrNull(Some(message))
      else Returned(None)
  }

  /** A failure whose message mentions "429" anywhere is reported as quota exhaustion. */
  lemma {:induction false} RateLimitIsQuota(input: NutritionRequest, sdk: string -> Sdk<Option<string>>,
                                            parse: string -> Parse<Option<RecipeNutrition>>, before: string, after: string)
    requires sdk(NutritionPrompt(input)) == Failed(Some(before + "429" + after))
    ensures EstimateRecipeNutrition(input, sdk, parse) == Threw(QuotaExceededMessage)
  {
    ContainsInside(before, "429", after);
  }

  // ---------------------------------------------------------------- images

  datatype InlineData = InlineData(mimeType: Option<string>, data: Option<string>)
  datatype Part = Part(inlineData: Option<InlineData>)
  datatype Content = Content(parts: Option<seq<Part>>)
  datatype Candidate = Candidate(content: Option<Content>)
  datatype ImageResponse = ImageResponse(candidates: Option<seq<Candidate>>)

  /** `response.candidates?.[0]?.content?.parts || []`. */
  function ResponseParts(response: ImageResponse): seq<Part> {
    if response.candidates.Some? && |response.candidates.value| > 0
       && response.candidates.value[0].content.Some?
       && response.candidates.value[0].content.value.parts.Some?
    then response.candidates.value[0].content.value.parts.value
    else []
  }

  /** A template-literal hole: an absent field prints as "undefined". */
  function Interpolated(field: Option<string>): string {
    if field.Some? then field.value else "undefined"
  }

  /** The data URL a generated image is returned as, `data:<mimeType>;base64,<data>`. */
  function DataUrl(mimeType: string, data: string): (url: string)
    ensures IsPrefix("data:", url)
  {
    "data" + ":" + mimeType + ";" + "base64" + "," + data
  }

  function InlineDataUrl(inline: InlineData): (url: string)
    ensures IsPrefix("data:", url)
  {
    DataUrl(Interpolated(inline.mimeType), Interpolated(inline.data))
  }

  /** Part `k` is the first part that carries `inlineData`. */
  predicate IsFirstInline(parts: seq<Part>, k: nat) {
    k < |parts| && parts[k].inlineData.Some? && forall j :: 0 <= j < k ==> parts[j].inlineData.None?
  }

  /** The `for` loop over the parts, which returns at the first part with `inlineData`. */
  function FirstInlinePart(parts: seq<Part>): (k: Option<nat>)
    ensures k.Some? ==> IsFirstInline(parts, k.value)
    ensures k.None? ==> forall j :: 0 <= j < |parts| ==> parts[j].inlineData.None?
    decreases |parts|
  {
    if |parts| == 0 then None
    else if parts[0].inlineData.Some? then Some(0)
    else
      match FirstInlinePart(parts[1..])
      case None => None
      case Some(k) => Some(k + 1)
  }

  const ImageIntro: string := "Фотореалістичне food-photo однієї готової страви.\n\nНазва страви: "

  const ImageStyle: string := "\n\nСтиль і подача:\n– реалістична food photography (НЕ ілюстрація)\n– мʼяке природне світло\n– вигляд як у сучасному healthy-café\n– акуратна, мінімалістична подача\n– нейтральний або світлий фон (дерево / камінь)\n– кут зйомки: 30–45° або легкий top-down\n– фокус на текстурі та апетитності\n– натуральні, неперенасичені кольори\n\nОбмеження:\n– без людей, рук, облич\n– без тексту, логотипів, водяних знаків\n– без зайвого реквізиту\n– одна страва в кадрі\n\nТехнічні вимоги:\n– квадратне зображення (1:1)\n– висока деталізація, sharp focus\n– єдиний стиль для всього меню (consistent style)"

  /** The image prompt laid out around a given opening and style text. */
  function ImagePromptAround(intro: string, title: string, category: string, ingredients: seq<string>,
                             style: string): string {
    intro + title + "\nКатегорія: " + category + "\nКлючові інгредієнти: " + Join(ingredients, ", ") + style
  }

  /** The prompt text sent for a recipe picture. */
  function ImagePrompt(title: string, category: string, ingredients: seq<string>): string {
    ImagePromptAround(ImageIntro, title, category, ingredients, ImageStyle)
  }

  /** The picture prompt names the dish, its category label and its ingredients joined by ", ". */
  lemma ImagePromptMentions(title: string, category: string, ingredients: seq<string>)
    ensures Contains(ImagePrompt(title, category, ingredients), title)
    ensures Contains(ImagePrompt(title, category, ingredients), category)
    ensures Contains(ImagePrompt(title, category, ingredients), Join(ingredients, ", "))
  {
    PiecesOccur(ImageIntro, title, "\nКатегорія: ", category, "\nКлючові інгредієнти: ",
                Join(ingredients, ", "), ImageStyle);
  }

  /**
    `generateRecipeImage`: the data URL of the first response part with `inlineData`, scanning the
    parts in order; `null` when the call fails, there are no candidates or no part carries an image.
    It never throws.
  */
  function GenerateRecipeImage(title: string, category: string, ingredients: seq<string>,
                               sdk: string -> Sdk<ImageResponse>): (r: Option<string>)
    ensures var reply := sdk(ImagePrompt(title, category, ingredients));
      && (r.Some? ==> IsPrefix("data:", r.value))
      && (reply.Failed? ==> r.None?)
      && (r.Some? ==>
            (reply.Answered? &&
             exists k: nat :: (IsFirstInline(ResponseParts(reply.response), k)
                               && r.value == InlineDataUrl(ResponseParts(reply.response)[k].inlineData.value))))
      && (r.None? && reply.Answered? ==>
            forall j :: 0 <= j < |ResponseParts(reply.response)| ==> ResponseParts(reply.response)[j].inlineData.None?)
  {
    match sdk(ImagePrompt(title, category, ingredients))
    case Failed(_) => None
    case Answered(response) =>
      var parts := ResponseParts(response);
      match FirstInlinePart(parts)
      case None => None
      case Some(k) => Some(InlineDataUrl(parts[k].inlineData.value))
  }

  /** The scan takes the first image part even when later parts carry images too. */
  lemma FirstImageWins(title: string, category: string, ingredients: seq<string>,
                       sdk: string -> Sdk<ImageResponse>, first: InlineData, later: seq<Part>)
    requires sdk(ImagePrompt(title, category, ingredients))
               == Answered(ImageResponse(Some([Candidate(Some(Content(Some([Part(Some(first))] + later))))])))
    ensures GenerateRecipeImage(title, category, ingredients, sdk) == Some(InlineDataUrl(first))
  {
  }

  // ---------------------------------------------------------------- photos

  /**
    `analyzeMealPhoto`: the parsed response when its text is non-empty and parses, a falsy JSON value
    included; `null` on an empty text and on any error, never an exception. `base64Image` is None
    when the caller passes
    `undefined`.
  */
  function AnalyzeMealPhoto(base64Image: Option<string>, mimeType: string,
                            sdk: (Option<string>, string) -> Sdk<Option<string>>,
                            parse: string -> Parse<Option<PhotoAnalysisResult>>): (r: Option<PhotoAnalysisResult>)
    ensures var reply := sdk(base64Image, mimeType);
      && (reply.Answered? && HasText(reply.response) && parse(reply.response.value).Parsed? ==>
           r == parse(reply.response.value).value)
      && (r.Some? <==> reply.Answered? && HasText(reply.response) && parse(reply.response.value).Parsed?
                       && parse(reply.response.value).value.Some?)
      && (r.Some? ==> r.value == parse(reply.response.value).value.value)
  {
    match sdk(base64Image, mimeType)
    case Failed(_) => None
    case Answered(text) =>
      if HasText(text) then
        match parse(text.value)
        case Parsed(result) => result
        case ParseError(_) => None
      else None
  }

  /** `analyzeMealDescription`: a legacy stub that throws whatever it is given. */
  function AnalyzeMealDescription(description: string): (r: Outcome<SmartMealResult>)
    ensures r.Threw? && r.message == "Legacy function not used in Coconut MVP"
  {
    Threw("Legacy function not used in Coconut MVP")
  }
}
