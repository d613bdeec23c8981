/** The calculator screen's save step: the numbers it checks before
    calculating, and the flat body it sends to the server, made of the
    entered prescription and the calculated result. */
module Submission {
  import opened NutritionTypes
  import opened Calculations
  import opened CalculationValidators

  /** The body sent for saving: the six entered numbers and the eight results, under their column names. */
  function Payload(input: ParenteralNutrition, result: NutritionCalculation): Body
  {
    map[
      GlucoseVolume := input.glucose.volume,
      GlucoseConcentration := input.glucose.concentration,
      AminoAcidsVolume := input.aminoAcids.volume,
      AminoAcidsConcentration := input.aminoAcids.concentration,
      LipidsVolume := input.lipids.volume,
      LipidsConcentration := input.lipids.concentration,
      GlucoseGrams := result.glucose.grams,
      GlucoseCalories := result.glucose.calories,
      AminoAcidsGrams := result.aminoAcids.grams,
      AminoAcidsCalories := result.aminoAcids.calories,
      LipidsGrams := result.lipids.grams,
      LipidsCalories := result.lipids.calories,
      TotalCalories := result.total.calories,
      TotalVolume := result.total.volume
    ]
  }

  /** The screen's own check before calculating: no entered number is negative.
      It sets no upper bound on the concentrations. */
  predicate ClientAccepts(input: ParenteralNutrition)
  {
    && input.glucose.volume >= 0.0 && input.glucose.concentration >= 0.0
    && input.aminoAcids.volume >= 0.0 && input.aminoAcids.concentration >= 0.0
    && input.lipids.volume >= 0.0 && input.lipids.concentration >= 0.0
  }

  /** Every input the screen accepts whose concentrations are percentages is
      saved: the body it sends passes the server's validation. */
  lemma CalculatedSubmissionPasses(input: ParenteralNutrition)
    requires ClientAccepts(input)
    requires InRange(input.glucose) && InRange(input.aminoAcids) && InRange(input.lipids)
    ensures Validate(Payload(input, CalculateNutrition(input))) == []
  {
    var result := CalculateNutrition(input);
    NonNegativeResult(input);
    var body := Payload(input, result);
    forall f: Field ensures f in body && body[f] >= 0.0 && (IsConcentration(f) ==> body[f] <= 100.0) {
      match f
      case GlucoseVolume =>
      case GlucoseConcentration =>
      case AminoAcidsVolume =>
      case AminoAcidsConcentration =>
      case LipidsVolume =>
      case LipidsConcentration =>
      case GlucoseGrams =>
      case GlucoseCalories =>
      case AminoAcidsGrams =>
      case AminoAcidsCalories =>
      case LipidsGrams =>
      case LipidsCalories =>
      case TotalCalories =>
      case TotalVolume =>
    }
    ValidateIff(body);
  }

  /** Conversely, an entered concentration above 100 passes the screen's check
      but the server refuses the body, whatever the other numbers are. */
  lemma ConcentrationAboveHundredRefused(input: ParenteralNutrition)
    requires ClientAccepts(input) && input.glucose.concentration > 100.0
    ensures Validate(Payload(input, CalculateNutrition(input))) != []
  {
    var body := Payload(input, CalculateNutrition(input));
    ValidateIff(body);
    assert body[GlucoseConcentration] > 100.0;
  }
}
