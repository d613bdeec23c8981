/** The client's record shapes: the prescription that is entered, the
    calculated result, and an entry of the calculation history. Numbers are
    reals (volumes in ml, concentrations in percent, that is grams per 100 ml,
    energy in kcal); the timestamp is milliseconds since the epoch. */
module NutritionTypes {

  /** One solution of the prescription. */
  datatype Solution = Solution(volume: real, concentration: real)

  datatype ParenteralNutrition = ParenteralNutrition(glucose: Solution, aminoAcids: Solution, lipids: Solution)

  /** Grams of one macronutrient and the energy they provide. */
  datatype Macro = Macro(grams: real, calories: real)

  datatype Totals = Totals(calories: real, volume: real)

  datatype NutritionCalculation = NutritionCalculation(glucose: Macro, aminoAcids: Macro, lipids: Macro, total: Totals)

  datatype CalculationHistory = CalculationHistory(id: string, timestamp: int, input: ParenteralNutrition, result: NutritionCalculation)
}
