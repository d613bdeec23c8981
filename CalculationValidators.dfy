/** The server's validation of a calculation sent for saving: fourteen
    independent range checks, one per field of the request body, each adding
    its own message when it fails. */
module CalculationValidators {
  import opened Wrappers
  import opened Validation

  datatype Field =
    | GlucoseVolume | GlucoseConcentration
    | AminoAcidsVolume | AminoAcidsConcentration
    | LipidsVolume | LipidsConcentration
    | GlucoseGrams | GlucoseCalories
    | AminoAcidsGrams | AminoAcidsCalories
    | LipidsGrams | LipidsCalories
    | TotalCalories | TotalVolume

  /** The body's field name. */
  function ParamName(f: Field): string
  {
    match f
    case GlucoseVolume => "glucose_volume"
    case GlucoseConcentration => "glucose_concentration"
    case AminoAcidsVolume => "amino_acids_volume"
    case AminoAcidsConcentration => "amino_acids_concentration"
    case LipidsVolume => "lipids_volume"
    case LipidsConcentration => "lipids_concentration"
    case GlucoseGrams => "glucose_grams"
    case GlucoseCalories => "glucose_calories"
    case AminoAcidsGrams => "amino_acids_grams"
    case AminoAcidsCalories => "amino_acids_calories"
    case LipidsGrams => "lipids_grams"
    case LipidsCalories => "lipids_calories"
    case TotalCalories => "total_calories"
    case TotalVolume => "total_volume"
  }

  /** A request body, reduced to the fields whose values read as a number;
      a field that is missing or not numeric is absent from the map. */
  type Body = map<Field, real>

  /** `isFloat({ min, max })` on one field, with its message. */
  datatype Rule = Rule(field: Field, min: real, max: Option<real>, message: string)

  const CalculationValidator: seq<Rule> := [
    Rule(GlucoseVolume, 0.0, None, "Glucose volume must be a positive number"),
    Rule(GlucoseConcentration, 0.0, Some(100.0), "Glucose concentration must be between 0 and 100"),
    Rule(AminoAcidsVolume, 0.0, None, "Amino acids volume must be a positive number"),
    Rule(AminoAcidsConcentration, 0.0, Some(100.0), "Amino acids concentration must be between 0 and 100"),
    Rule(LipidsVolume, 0.0, None, "Lipids volume must be a positive number"),
    Rule(LipidsConcentration, 0.0, Some(100.0), "Lipids concentration must be between 0 and 100"),
    Rule(GlucoseGrams, 0.0, None, "Glucose grams must be a positive number"),
    Rule(GlucoseCalories, 0.0, None, "Glucose calories must be a positive number"),
    Rule(AminoAcidsGrams, 0.0, None, "Amino acids grams must be a positive number"),
    Rule(AminoAcidsCalories, 0.0, None, "Amino acids calories must be a positive number"),
    Rule(LipidsGrams, 0.0, None, "Lipids grams must be a positive number"),
    Rule(LipidsCalories, 0.0, None, "Lipids calories must be a positive number"),
    Rule(TotalCalories, 0.0, None, "Total calories must be a positive number"),
    Rule(TotalVolume, 0.0, None, "Total volume must be a positive number")
  ]

  predicate Passes(body: Body, rule: Rule)
  {
    && rule.field in body
    && rule.min <= body[rule.field]
    && (rule.max.Some? ==> body[rule.field] <= rule.max.value)
  }

  function ErrorOf(rule: Rule): ValidationError
  {
    ValidationError(ParamName(rule.field), rule.message)
  }

  /** The errors `validationResult` collects: one per failing rule, in rule order. */
  function Errors(body: Body, rules: seq<Rule>): (errs: seq<ValidationError>)
    ensures |errs| <= |rules|
    ensures errs == [] <==> forall i :: 0 <= i < |rules| ==> Passes(body, rules[i])
    ensures forall i :: 0 <= i < |rules| && !Passes(body, rules[i]) ==> ErrorOf(rules[i]) in errs
    ensures forall e :: e in errs ==> exists i :: 0 <= i < |rules| && !Passes(body, rules[i]) && e == ErrorOf(rules[i])
  {
    if rules == [] then []
    else
      var rest := Errors(body, rules[1..]);
      assert forall i :: 1 <= i < |rules| ==> rules[i] == rules[1..][i - 1];
      (if Passes(body, rules[0]) then [] else [ErrorOf(rules[0])]) + rest
  }

  function Validate(body: Body): seq<ValidationError>
  {
    Errors(body, CalculationValidator)
  }

  predicate IsConcentration(f: Field)
  {
    f == GlucoseConcentration || f == AminoAcidsConcentration || f == LipidsConcentration
  }

  /** What a valid body is, field by field: every field present and not negative,
      concentrations at most 100, and nothing else (no upper bound on volumes,
      grams, calories or totals, and no relation between the fields). */
  predicate Acceptable(body: Body)
  {
    forall f: Field :: f in body && body[f] >= 0.0 && (IsConcentration(f) ==> body[f] <= 100.0)
  }

  /** Every field has exactly one rule, and that rule checks what `Acceptable` demands of it. */
  lemma RuleOfEachField(f: Field)
    ensures exists i :: 0 <= i < |CalculationValidator| && CalculationValidator[i].field == f
    ensures forall i :: 0 <= i < |CalculationValidator| && CalculationValidator[i].field == f ==>
              CalculationValidator[i].min == 0.0
              && CalculationValidator[i].max == (if IsConcentration(f) then Some(100.0) else None)
  {
    var rules := CalculationValidator;
    var i := match f
      case GlucoseVolume => 0
      case GlucoseConcentration => 1
      case AminoAcidsVolume => 2
      case AminoAcidsConcentration => 3
      case LipidsVolume => 4
      case LipidsConcentration => 5
      case GlucoseGrams => 6
      case GlucoseCalories => 7
      case AminoAcidsGrams => 8
      case AminoAcidsCalories => 9
      case LipidsGrams => 10
      case LipidsCalories => 11
      case TotalCalories => 12
      case TotalVolume => 13;
    assert rules[i].field == f;
  }

  /** A body passes validation exactly when it is acceptable. */
  lemma ValidateIff(body: Body)
    ensures Validate(body) == [] <==> Acceptable(body)
  {
    var rules := CalculationValidator;
    if Acceptable(body) {
      forall i | 0 <= i < |rules| ensures Passes(body, rules[i]) {
        RuleOfEachField(rules[i].field);
      }
    }
    if Validate(body) == [] {
      forall f: Field ensures f in body && body[f] >= 0.0 && (IsConcentration(f) ==> body[f] <= 100.0) {
        RuleOfEachField(f);
        var i :| 0 <= i < |rules| && rules[i].field == f;
        assert Passes(body, rules[i]);
      }
    }
  }

  /** Each failing field reports its own message under its own name. */
  lemma FailingFieldReported(body: Body, i: nat)
    requires i < |CalculationValidator| && !Passes(body, CalculationValidator[i])
    ensures ValidationError(ParamName(CalculationValidator[i].field), CalculationValidator[i].message) in Validate(body)
  {
  }

  /** Nothing ties the totals to the components: a total of zero beside a
      component of 100 kcal still passes. */
  lemma TotalsAreNotCheckedAgainstComponents(body: Body)
    requires Acceptable(body)
    ensures Validate(body[GlucoseCalories := 100.0][TotalCalories := 0.0]) == []
  {
    ValidateIff(body);
    ValidateIff(body[GlucoseCalories := 100.0][TotalCalories := 0.0]);
  }
}
