/** The calorie calculator: grams of each macronutrient from volume and
    concentration, energy from grams, and every reported figure rounded half
    up to two decimals. */
module Calculations {
  import opened NutritionTypes

  /** `Math.round`: the nearest integer, halves rounded up. */
  function MathRound(x: real): (n: int)
    ensures x - 0.5 < n as real <= x + 0.5
  {
    (x + 0.5).Floor
  }

  /** `r` is a whole number of hundredths. */
  predicate IsCents(r: real)
  {
    (r * 100.0).Floor as real == r * 100.0
  }

  /** `r` is `x` rounded half up to two decimals: a whole number of hundredths
      no more than half a hundredth away from `x`, halves going up. */
  predicate RoundsTo(x: real, r: real)
  {
    IsCents(r) && x * 100.0 - 0.5 < r * 100.0 <= x * 100.0 + 0.5
  }

  /** There is only one such number, so `RoundsTo` pins the rounded value down. */
  lemma RoundsToUnique(x: real, r1: real, r2: real)
    requires RoundsTo(x, r1) && RoundsTo(x, r2)
    ensures r1 == r2
  {
    var n1, n2 := (r1 * 100.0).Floor, (r2 * 100.0).Floor;
    assert -1.0 < (n1 - n2) as real < 1.0;
  }

  /** `Math.round(x * 100) / 100`. */
  function RoundToCents(x: real): (r: real)
    ensures RoundsTo(x, r)
    ensures x >= 0.0 ==> r >= 0.0
  {
    var n := MathRound(x * 100.0);
    assert n as real / 100.0 * 100.0 == n as real;
    n as real / 100.0
  }

  /** Volume times concentration: one hundred times the grams of solute in a solution. */
  function Solute(s: Solution): real
  {
    s.volume * s.concentration
  }

  /** Grams of solute: a concentration in percent is grams per 100 ml. */
  function CalculateGrams(volume: real, concentration: real): (g: real)
    ensures g * 100.0 == volume * concentration
  {
    (volume * concentration) / 100.0
  }

  /** The reported result: each component's grams and energy, and the totals,
      each rounded to two decimals from the exact, unrounded values. */
  function CalculateNutrition(input: ParenteralNutrition): (r: NutritionCalculation)
    ensures RoundsTo(Solute(input.glucose) / 100.0, r.glucose.grams)
    ensures RoundsTo(Solute(input.aminoAcids) / 100.0, r.aminoAcids.grams)
    ensures RoundsTo(Solute(input.lipids) / 100.0, r.lipids.grams)
    ensures RoundsTo(4.0 * Solute(input.glucose) / 100.0, r.glucose.calories)
    ensures RoundsTo(4.0 * Solute(input.aminoAcids) / 100.0, r.aminoAcids.calories)
    ensures RoundsTo(9.0 * Solute(input.lipids) / 100.0, r.lipids.calories)
    ensures RoundsTo((4.0 * Solute(input.glucose)
                      + 4.0 * Solute(input.aminoAcids)
                      + 9.0 * Solute(input.lipids)) / 100.0, r.total.calories)
    ensures RoundsTo(input.glucose.volume + input.aminoAcids.volume + input.lipids.volume, r.total.volume)
  {
    // Energy per gram, in kcal: 4 for glucose and amino acids, 9 for lipids.
    var glucoseGrams := CalculateGrams(input.glucose.volume, input.glucose.concentration);
    var glucoseCalories := glucoseGrams * 4.0;
    var aminoAcidsGrams := CalculateGrams(input.aminoAcids.volume, input.aminoAcids.concentration);
    var aminoAcidsCalories := aminoAcidsGrams * 4.0;
    var lipidsGrams := CalculateGrams(input.lipids.volume, input.lipids.concentration);
    var lipidsCalories := lipidsGrams * 9.0;
    var totalCalories := glucoseCalories + aminoAcidsCalories + lipidsCalories;
    var totalVolume := input.glucose.volume + input.aminoAcids.volume + input.lipids.volume;
    assert glucoseGrams == Solute(input.glucose) / 100.0;
    assert aminoAcidsGrams == Solute(input.aminoAcids) / 100.0;
    assert lipidsGrams == Solute(input.lipids) / 100.0;
    NutritionCalculation(
      Macro(RoundToCents(glucoseGrams), RoundToCents(glucoseCalories)),
      Macro(RoundToCents(aminoAcidsGrams), RoundToCents(aminoAcidsCalories)),
      Macro(RoundToCents(lipidsGrams), RoundToCents(lipidsCalories)),
      Totals(RoundToCents(totalCalories), RoundToCents(totalVolume)))
  }

  /** Volumes are not negative and concentrations are percentages. */
  predicate InRange(s: Solution)
  {
    s.volume >= 0.0 && 0.0 <= s.concentration <= 100.0
  }

  predicate NonNegative(r: NutritionCalculation)
  {
    && r.glucose.grams >= 0.0 && r.glucose.calories >= 0.0
    && r.aminoAcids.grams >= 0.0 && r.aminoAcids.calories >= 0.0
    && r.lipids.grams >= 0.0 && r.lipids.calories >= 0.0
    && r.total.calories >= 0.0 && r.total.volume >= 0.0
  }

  /** No volume and no concentration is negative, so no reported figure is. */
  lemma NonNegativeResult(input: ParenteralNutrition)
    requires input.glucose.volume >= 0.0 && input.glucose.concentration >= 0.0
    requires input.aminoAcids.volume >= 0.0 && input.aminoAcids.concentration >= 0.0
    requires input.lipids.volume >= 0.0 && input.lipids.concentration >= 0.0
    ensures NonNegative(CalculateNutrition(input))
  {
    var r := CalculateNutrition(input);
    ProductNonNegative(input.glucose);
    ProductNonNegative(input.aminoAcids);
    ProductNonNegative(input.lipids);
    RoundedFiguresNonNegative(Solute(input.glucose), Solute(input.aminoAcids), Solute(input.lipids),
                              input.glucose.volume + input.aminoAcids.volume + input.lipids.volume, r);
  }

  lemma RoundedFiguresNonNegative(g: real, a: real, l: real, volume: real, r: NutritionCalculation)
    requires g >= 0.0 && a >= 0.0 && l >= 0.0 && volume >= 0.0
    requires RoundsTo(g / 100.0, r.glucose.grams)
    requires RoundsTo(a / 100.0, r.aminoAcids.grams)
    requires RoundsTo(l / 100.0, r.lipids.grams)
    requires RoundsTo(4.0 * g / 100.0, r.glucose.calories)
    requires RoundsTo(4.0 * a / 100.0, r.aminoAcids.calories)
    requires RoundsTo(9.0 * l / 100.0, r.lipids.calories)
    requires RoundsTo((4.0 * g + 4.0 * a + 9.0 * l) / 100.0, r.total.calories)
    requires RoundsTo(volume, r.total.volume)
    ensures NonNegative(r)
  {
    RoundsToNonNegative(g / 100.0, r.glucose.grams);
    RoundsToNonNegative(a / 100.0, r.aminoAcids.grams);
    RoundsToNonNegative(l / 100.0, r.lipids.grams);
    RoundsToNonNegative(4.0 * g / 100.0, r.glucose.calories);
    RoundsToNonNegative(4.0 * a / 100.0, r.aminoAcids.calories);
    RoundsToNonNegative(9.0 * l / 100.0, r.lipids.calories);
    RoundsToNonNegative((4.0 * g + 4.0 * a + 9.0 * l) / 100.0, r.total.calories);
    RoundsToNonNegative(volume, r.total.volume);
  }

  /** Rounding a quantity that is not negative gives one that is not negative. */
  lemma RoundsToNonNegative(x: real, r: real)
    requires RoundsTo(x, r) && x >= 0.0
    ensures r >= 0.0
  {
    assert (r * 100.0).Floor > -1;
  }

  lemma ProductNonNegative(s: Solution)
    requires s.volume >= 0.0 && s.concentration >= 0.0
    ensures s.volume * s.concentration >= 0.0
  {
  }

  /** A solution with no volume or no solute in it. */
  predicate Empty(s: Solution)
  {
    s.volume == 0.0 || s.concentration == 0.0
  }

  /** An empty solution contributes no grams and no energy, whichever of the three it is. */
  lemma EmptySolutionContributesNothing(input: ParenteralNutrition)
    ensures Empty(input.glucose) ==> CalculateNutrition(input).glucose == Macro(0.0, 0.0)
    ensures Empty(input.aminoAcids) ==> CalculateNutrition(input).aminoAcids == Macro(0.0, 0.0)
    ensures Empty(input.lipids) ==> CalculateNutrition(input).lipids == Macro(0.0, 0.0)
  {
    if Empty(input.glucose) {
      EmptyGlucoseContributesNothing(input);
    }
    if Empty(input.aminoAcids) {
      EmptyAminoAcidsContributesNothing(input);
    }
    if Empty(input.lipids) {
      EmptyLipidsContributesNothing(input);
    }
  }

  lemma EmptyGlucoseContributesNothing(input: ParenteralNutrition)
    requires Empty(input.glucose)
    ensures CalculateNutrition(input).glucose == Macro(0.0, 0.0)
  {
    var r := CalculateNutrition(input);
    EmptyMacro(input.glucose, 4.0, r.glucose);
  }

  lemma EmptyAminoAcidsContributesNothing(input: ParenteralNutrition)
    requires Empty(input.aminoAcids)
    ensures CalculateNutrition(input).aminoAcids == Macro(0.0, 0.0)
  {
    var r := CalculateNutrition(input);
    EmptyMacro(input.aminoAcids, 4.0, r.aminoAcids);
  }

  lemma EmptyLipidsContributesNothing(input: ParenteralNutrition)
    requires Empty(input.lipids)
    ensures CalculateNutrition(input).lipids == Macro(0.0, 0.0)
  {
    var r := CalculateNutrition(input);
    EmptyMacro(input.lipids, 9.0, r.lipids);
  }

  /** The rounded figures of an empty solution are zero, whatever its energy factor. */
  lemma EmptyMacro(s: Solution, factor: real, m: Macro)
    requires Empty(s)
    requires RoundsTo(Solute(s) / 100.0, m.grams) && RoundsTo(factor * Solute(s) / 100.0, m.calories)
    ensures m == Macro(0.0, 0.0)
  {
    assert Solute(s) == 0.0;
    RoundsToUnique(0.0, m.grams, 0.0);
    RoundsToUnique(0.0, m.calories, 0.0);
  }

  /** The total energy is rounded once from the exact sum, so it can differ from
      the sum of the three rounded components: two components of 0.003 kcal each
      (for instance 1 ml at 0.075 %) show 0.00 kcal, while their total shows 0.01 kcal. */
  lemma TotalIsNotSumOfRoundedComponents(input: ParenteralNutrition)
    requires Solute(input.glucose) == 0.075 && Solute(input.aminoAcids) == 0.075 && Solute(input.lipids) == 0.0
    ensures var r := CalculateNutrition(input);
            r.total.calories != r.glucose.calories + r.aminoAcids.calories + r.lipids.calories
  {
    var r := CalculateNutrition(input);
    ExampleRoundings(r.glucose.calories, r.aminoAcids.calories, r.lipids.calories, r.total.calories);
  }

  lemma ExampleRoundings(g: real, a: real, l: real, t: real)
    requires RoundsTo(0.003, g) && RoundsTo(0.003, a) && RoundsTo(0.0, l) && RoundsTo(0.006, t)
    ensures g == 0.0 && a == 0.0 && l == 0.0 && t == 0.01
  {
    RoundsToUnique(0.003, g, 0.0);
    RoundsToUnique(0.003, a, 0.0);
    RoundsToUnique(0.0, l, 0.0);
    RoundsToUnique(0.006, t, 0.01);
  }

  /** The discrepancy is never more than one hundredth. */
  lemma TotalWithinOneCentOfComponents(input: ParenteralNutrition)
    ensures var r := CalculateNutrition(input);
            var sum := r.glucose.calories + r.aminoAcids.calories + r.lipids.calories;
            -0.01 <= r.total.calories - sum <= 0.01
  {
    var r := CalculateNutrition(input);
    var x1, x2, x3 := 4.0 * Solute(input.glucose) / 100.0, 4.0 * Solute(input.aminoAcids) / 100.0, 9.0 * Solute(input.lipids) / 100.0;
    assert (4.0 * Solute(input.glucose) + 4.0 * Solute(input.aminoAcids) + 9.0 * Solute(input.lipids)) / 100.0 == x1 + x2 + x3;
    RoundedSumWithinOneCent(x1, x2, x3, r.glucose.calories, r.aminoAcids.calories, r.lipids.calories, r.total.calories);
  }

  /** Rounding a sum once lands within one hundredth of the sum of the rounded parts. */
  lemma RoundedSumWithinOneCent(x1: real, x2: real, x3: real, r1: real, r2: real, r3: real, t: real)
    requires RoundsTo(x1, r1) && RoundsTo(x2, r2) && RoundsTo(x3, r3) && RoundsTo(x1 + x2 + x3, t)
    ensures -0.01 <= t - (r1 + r2 + r3) <= 0.01
  {
    var n := (t * 100.0).Floor - ((r1 * 100.0).Floor + (r2 * 100.0).Floor + (r3 * 100.0).Floor);
    assert -2.0 < n as real < 2.0;
  }
}
