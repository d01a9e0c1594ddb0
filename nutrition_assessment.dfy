/**
 * The assessment an authority user requests for a kid: the five steps of the
 * nutrition engine run in sequence on the kid's record and one measurement.
 */
module NutritionAssessment {
  import opened Models
  import opened Strings
  import opened NutritionCalculator

  /** Everything the engine computes for one measurement. */
  datatype Assessment = Assessment(
    age: Age,
    bmi: real,
    classification: Classification,
    deficiencies: seq<string>,
    recommendation: string
  )

  /** An assessment, or the ZeroDivisionError that a zero height raises before classification. */
  datatype AssessmentResult = Assessed(assessment: Assessment) | HeightIsZero

  /**
   * Age, then BMI, then status and percentile, then deficiencies, then the
   * recommendation, each step fed by the ones before it.
   */
  method AssessKid(
    birth: Date,
    today: Date,
    gender: Gender,
    pref: VegPreference,
    heightCm: real,
    weightKg: real
  ) returns (r: AssessmentResult)
    ensures r.HeightIsZero? <==> heightCm == 0.0
    ensures r.Assessed? ==>
              var a := r.assessment;
              && a.age == CalculateAge(birth, today)
              && Bmi(a.bmi) == CalculateBmi(heightCm, weightKg)
              && a.classification == ClassifyBmiStatus(a.bmi, a.age.years, gender)
              && a.deficiencies == Deficiencies(a.classification.status, a.age.years)
              && a.recommendation == JoinLines(RecommendationLines(a.classification.status, pref, a.deficiencies))
    ensures r.Assessed? ==>
              var a := r.assessment;
              var lines := RecommendationLines(a.classification.status, pref, a.deficiencies);
              && (CalciumAdvice in lines <==> a.classification.status == Underweight)
              && (IronAdvice in lines <==> a.classification.status == Underweight || a.age.years < 2)
              && 4 <= |lines| <= 9
  {
    var age := CalculateAge(birth, today);
    var bmiResult := CalculateBmi(heightCm, weightKg);
    if bmiResult.ZeroDivisionError? {
      return HeightIsZero;
    }
    var bmi := bmiResult.value;
    var classification := ClassifyBmiStatus(bmi, age.years, gender);
    var deficiencies := IdentifyDeficiencies(classification.status, age.years);
    var recommendation := GenerateDietRecommendation(classification.status, age.years, gender, pref, deficiencies);
    RecommendationForDeficiencies(classification.status, age.years, pref);
    RecommendationLayout(classification.status, pref, deficiencies);
    r := Assessed(Assessment(age, bmi, classification, deficiencies, recommendation));
  }
}
