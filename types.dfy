/** Records shared by the recipe book and the AI service (App.tsx, services/geminiService.ts, types.ts). */
module Types {

  /** JavaScript `null`/`undefined` is None. */
  datatype Option<+T> = None | Some(value: T)

  /** What an awaited call hands back: a value (possibly `null`), or an Error thrown with a message. */
  datatype Outcome<+T> = Returned(value: Option<T>) | Threw(message: string)

  /** The message the nutrition service throws once the provider reports exhaustion. */
  const QuotaExceededMessage: string := "QUOTA_EXCEEDED"

  /** A static recipe of the bundled dataset; never changed at runtime. */
  datatype Recipe = Recipe(
    id: string,
    category: string,
    title: string,
    ingredients: seq<string>,
    steps: seq<string>,
    imageFile: string,
    sourcePage: int)

  /** "корисна" | "нейтральна" | "небажана" */
  datatype HealthLabel = Healthy | Neutral | Unhealthy

  /** The estimate the service returns for a recipe; numbers that the model may leave `null` are options. */
  datatype RecipeNutrition = RecipeNutrition(
    caloriesKcal: Option<real>,
    proteinG: Option<real>,
    carbsG: Option<real>,
    fatG: Option<real>,
    healthScore: real,
    healthLabel: HealthLabel,
    notesShort: string)

  /** The structured answer about one photographed meal. */
  datatype PhotoAnalysisResult = PhotoAnalysisResult(
    dishName: string,
    portionGuess: string,
    caloriesKcal: Option<real>,
    proteinG: Option<real>,
    carbsG: Option<real>,
    fatG: Option<real>,
    healthScore: real,
    healthLabel: HealthLabel,
    whyShort: string,
    tips: seq<string>)

  /** The result shape of the legacy text-description analysis. */
  datatype SmartMealResult = SmartMealResult(
    name: string,
    calories: real,
    protein: real,
    carbs: real,
    fat: real,
    emoji: string)
}
