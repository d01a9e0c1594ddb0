/**
 * The nutrition engine: age from a birth date, BMI from height and weight,
 * an age-banded BMI classification with a fixed percentile marker, the
 * deficiencies inferred from status and age, and the diet recommendation text.
 */
module NutritionCalculator {
  import opened Models
  import opened Strings

  // ---------------------------------------------------------------------------
  // Age
  // ---------------------------------------------------------------------------

  type Month = m: int | 1 <= m <= 12 witness 1
  type Day = d: int | 1 <= d <= 31 witness 1

  /** A calendar date; the clock's "today" is passed in as one of these. */
  datatype Date = Date(year: int, month: Month, day: Day)

  /** Completed years and the months beyond them. */
  datatype Age = Age(years: int, months: int)

  /** Months elapsed since month 0 of year 0; the day of the month plays no part. */
  function MonthIndex(d: Date): (index: int)
  {
    12 * d.year + d.month
  }

  /**
   * Age on `today` of a child born on `birth`: the difference in months, split
   * into whole years and a remainder in 0..11. A birth date after `today`
   * gives a negative number of years.
   */
  function CalculateAge(birth: Date, today: Date): (age: Age)
    ensures 0 <= age.months <= 11
    ensures 12 * age.years + age.months == MonthIndex(today) - MonthIndex(birth)
  {
    var years := today.year - birth.year;
    var months := today.month - birth.month;
    if months < 0 then Age(years - 1, months + 12) else Age(years, months)
  }

  /** The two facts of CalculateAge's contract pin the age down completely. */
  lemma {:induction false} AgeDeterminedByMonths(birth: Date, today: Date, years: int, months: int)
    requires 0 <= months <= 11
    requires 12 * years + months == MonthIndex(today) - MonthIndex(birth)
    ensures CalculateAge(birth, today) == Age(years, months)
  {
    var age := CalculateAge(birth, today);
    assert 12 * (years - age.years) == age.months - months;
  }

  /** The day of the month of either date never changes the age. */
  lemma AgeIgnoresDay(birth: Date, today: Date, birthDay: Day, todayDay: Day)
    ensures CalculateAge(birth.(day := birthDay), today.(day := todayDay)) == CalculateAge(birth, today)
  {
  }

  /** The years are negative exactly when the birth month lies after today's month. */
  lemma AgeNegativeIffBornLater(birth: Date, today: Date)
    ensures CalculateAge(birth, today).years < 0 <==> MonthIndex(birth) > MonthIndex(today)
  {
  }

  // ---------------------------------------------------------------------------
  // BMI
  // ---------------------------------------------------------------------------

  /** A BMI value, or the ZeroDivisionError a zero height raises. */
  datatype BmiResult = Bmi(value: real) | ZeroDivisionError

  /** Body mass index, weight (kg) over the square of the height in metres; not rounded. */
  function CalculateBmi(heightCm: real, weightKg: real): (r: BmiResult)
    ensures r.ZeroDivisionError? <==> heightCm == 0.0
    ensures r.Bmi? ==> r.value * ((heightCm / 100.0) * (heightCm / 100.0)) == weightKg
  {
    var heightM := heightCm / 100.0;
    // heightM * heightM is zero exactly when the height is
    if heightCm == 0.0 then ZeroDivisionError else Bmi(weightKg / (heightM * heightM))
  }

  lemma SquarePositive(x: real)
    requires x != 0.0
    ensures x * x > 0.0
  {
  }

  /** At a fixed height BMI grows with weight, strictly when the weight grows strictly. */
  lemma BmiMonotoneInWeight(heightCm: real, w1: real, w2: real)
    requires heightCm != 0.0 && w1 <= w2
    ensures CalculateBmi(heightCm, w1).value <= CalculateBmi(heightCm, w2).value
    ensures w1 < w2 ==> CalculateBmi(heightCm, w1).value < CalculateBmi(heightCm, w2).value
  {
    var sq := (heightCm / 100.0) * (heightCm / 100.0);
    SquarePositive(heightCm / 100.0);
    var b1, b2 := CalculateBmi(heightCm, w1).value, CalculateBmi(heightCm, w2).value;
    assert (b2 - b1) * sq == w2 - w1;
  }

  /** A negative height (accepted by the source) gives the same result as its absolute value. */
  lemma BmiIgnoresHeightSign(heightCm: real, weightKg: real)
    ensures CalculateBmi(-heightCm, weightKg) == CalculateBmi(heightCm, weightKg)
  {
  }

  // ---------------------------------------------------------------------------
  // Classification
  // ---------------------------------------------------------------------------

  /** The age bands of the threshold table; every integer age, negative ones included, has one. */
  datatype AgeBand = UnderTwo | TwoToFour | FiveToEleven | TwelveAndOver

  function BandOf(ageYears: int): (band: AgeBand)
  {
    if ageYears < 2 then UnderTwo
    else if ageYears < 5 then TwoToFour
    else if ageYears < 12 then FiveToEleven
    else TwelveAndOver
  }

  /** The three BMI cutoffs of a band: below `underweight` is Underweight, and so on. */
  datatype Cutoffs = Cutoffs(underweight: real, healthy: real, overweight: real)

  /** The threshold table, one row per age band. */
  function CutoffsOf(band: AgeBand): (c: Cutoffs)
    ensures c.underweight < c.healthy < c.overweight
  {
    match band
    case UnderTwo => Cutoffs(14.0, 18.0, 20.0)
    case TwoToFour => Cutoffs(13.0, 17.0, 19.0)
    case FiveToEleven => Cutoffs(15.0, 20.0, 23.0)
    case TwelveAndOver => Cutoffs(16.0, 23.0, 27.0)
  }

  /** The synthetic percentile reported with each status. */
  function PercentileMarker(status: NutritionStatus, band: AgeBand): (p: int)
    ensures p in {5, 10, 50, 85, 95}
  {
    match status
    case Underweight => if band == UnderTwo then 10 else 5
    case Healthy => 50
    case Overweight => 85
    case Obese => 95
  }

  datatype Classification = Classification(status: NutritionStatus, percentile: int)

  /**
   * Status and percentile marker of a BMI at an age. Each status is the
   * half-open BMI interval between two cutoffs of the age's band, a BMI equal
   * to a cutoff falling in the higher status. `gender` is not read.
   */
  function ClassifyBmiStatus(bmi: real, ageYears: int, gender: Gender): (c: Classification)
    ensures var k := CutoffsOf(BandOf(ageYears));
            && (c.status == Underweight <==> bmi < k.underweight)
            && (c.status == Healthy <==> k.underweight <= bmi < k.healthy)
            && (c.status == Overweight <==> k.healthy <= bmi < k.overweight)
            && (c.status == Obese <==> k.overweight <= bmi)
    ensures c.percentile == PercentileMarker(c.status, BandOf(ageYears))
  {
    if ageYears < 2 then
      if bmi < 14.0 then Classification(Underweight, 10)
      else if bmi < 18.0 then Classification(Healthy, 50)
      else if bmi < 20.0 then Classification(Overweight, 85)
      else Classification(Obese, 95)
    else if ageYears < 5 then
      if bmi < 13.0 then Classification(Underweight, 5)
      else if bmi < 17.0 then Classification(Healthy, 50)
      else if bmi < 19.0 then Classification(Overweight, 85)
      else Classification(Obese, 95)
    else if ageYears < 12 then
      if bmi < 15.0 then Classification(Underweight, 5)
      else if bmi < 20.0 then Classification(Healthy, 50)
      else if bmi < 23.0 then Classification(Overweight, 85)
      else Classification(Obese, 95)
    else
      if bmi < 16.0 then Classification(Underweight, 5)
      else if bmi < 23.0 then Classification(Healthy, 50)
      else if bmi < 27.0 then Classification(Overweight, 85)
      else Classification(Obese, 95)
  }

  /** Gender never changes the classification. */
  lemma ClassifyIgnoresGender(bmi: real, ageYears: int)
    ensures ClassifyBmiStatus(bmi, ageYears, Male) == ClassifyBmiStatus(bmi, ageYears, Female)
  {
  }

  /** At one age a larger BMI never gives a lower status. */
  lemma ClassifyMonotoneInBmi(b1: real, b2: real, ageYears: int, gender: Gender)
    requires b1 <= b2
    ensures ClassifyBmiStatus(b1, ageYears, gender).status.Rank()
         <= ClassifyBmiStatus(b2, ageYears, gender).status.Rank()
  {
  }

  /** A future birth date (negative age) is classified with the under-two row. */
  lemma NegativeAgeUsesUnderTwoRow(bmi: real, ageYears: int, gender: Gender)
    requires ageYears < 0
    ensures ClassifyBmiStatus(bmi, ageYears, gender) == ClassifyBmiStatus(bmi, 0, gender)
  {
  }

  /** Sample points, cutoffs included: a BMI on a cutoff takes the higher status. */
  lemma ClassifyExamples(g: Gender)
    ensures ClassifyBmiStatus(14.0, 1, g) == Classification(Healthy, 50)
    ensures ClassifyBmiStatus(13.5, 1, g) == Classification(Underweight, 10)
    ensures ClassifyBmiStatus(17.5, 3, g) == Classification(Overweight, 85)
    ensures ClassifyBmiStatus(16.9, 3, g) == Classification(Healthy, 50)
    ensures ClassifyBmiStatus(23.0, 15, g) == Classification(Overweight, 85)
    ensures ClassifyBmiStatus(24.0, 15, g) == Classification(Overweight, 85)
    ensures ClassifyBmiStatus(12.0, 8, g) == Classification(Underweight, 5)
  {
  }

  // ---------------------------------------------------------------------------
  // Deficiencies
  // ---------------------------------------------------------------------------

  const ProteinDeficiency := "Protein deficiency"
  const IronDeficiency := "Iron deficiency"
  const VitaminDDeficiency := "Vitamin D deficiency"
  const CalciumDeficiency := "Calcium deficiency"
  const CaloricInsufficiency := "Caloric insufficiency"
  const MicronutrientDeficiency := "Micronutrient deficiency"
  const FiberDeficiency := "Fiber deficiency"
  const HealthyFatDeficiency := "Healthy fat deficiency"
  const ToddlerIronDeficiency := "Iron deficiency (common in toddlers)"
  const VitaminARisk := "Vitamin A deficiency risk"
  const ZincDeficiency := "Zinc deficiency (growth spurts)"

  /** The deficiencies a status suggests on its own. */
  function StatusDeficiencies(status: NutritionStatus): (items: seq<string>)
  {
    match status
    case Underweight =>
      [ProteinDeficiency, IronDeficiency, VitaminDDeficiency, CalciumDeficiency, CaloricInsufficiency]
    case Healthy => []
    case Overweight | Obese => [MicronutrientDeficiency, FiberDeficiency, HealthyFatDeficiency]
  }

  /** The risk note of an age band; the five-to-eleven band has none. */
  function AgeDeficiencies(ageYears: int): (notes: seq<string>)
  {
    match BandOf(ageYears)
    case UnderTwo => [ToddlerIronDeficiency]
    case TwoToFour => [VitaminARisk]
    case FiveToEleven => []
    case TwelveAndOver => [ZincDeficiency]
  }

  /** The full deficiency list: the status items, then the age note. */
  function Deficiencies(status: NutritionStatus, ageYears: int): (deficiencies: seq<string>)
  {
    StatusDeficiencies(status) + AgeDeficiencies(ageYears)
  }

  /** Builds the deficiency list step by step, status items first, then the age note. */
  method IdentifyDeficiencies(status: NutritionStatus, ageYears: int) returns (deficiencies: seq<string>)
    ensures deficiencies == Deficiencies(status, ageYears)
    ensures |deficiencies| == |StatusDeficiencies(status)| + |AgeDeficiencies(ageYears)|
  {
    deficiencies := [];
    if status == Underweight {
      deficiencies := deficiencies + [
        ProteinDeficiency,
        IronDeficiency,
        VitaminDDeficiency,
        CalciumDeficiency,
        CaloricInsufficiency
      ];
    } else if status == Overweight || status == Obese {
      deficiencies := deficiencies + [MicronutrientDeficiency, FiberDeficiency, HealthyFatDeficiency];
    }
    if ageYears < 2 {
      deficiencies := deficiencies + [ToddlerIronDeficiency];
    } else if ageYears < 5 {
      deficiencies := deficiencies + [VitaminARisk];
    } else if ageYears >= 12 {
      deficiencies := deficiencies + [ZincDeficiency];
    }
  }

  /** 5, 0 or 3 status items, plus one age note except for ages 5 to 11. */
  lemma DeficienciesLength(status: NutritionStatus, ageYears: int)
    ensures |Deficiencies(status, ageYears)|
         == (match status case Underweight => 5 case Healthy => 0 case Overweight | Obese => 3)
          + (if ageYears < 5 || ageYears >= 12 then 1 else 0)
  {
  }

  /** The list is empty exactly for a healthy child aged 5 to 11. */
  lemma DeficienciesEmptyIff(status: NutritionStatus, ageYears: int)
    ensures Deficiencies(status, ageYears) == [] <==> status == Healthy && 5 <= ageYears < 12
  {
  }

  /** The item "Calcium deficiency" is in the list exactly when the child is underweight. */
  lemma CalciumListedIffUnderweight(status: NutritionStatus, ageYears: int)
    ensures CalciumDeficiency in Deficiencies(status, ageYears) <==> status == Underweight
  {
    var d := Deficiencies(status, ageYears);
    if status == Underweight {
      assert d[3] == CalciumDeficiency;
    }
  }

  /** A text without a capital I cannot contain "Iron deficiency". */
  lemma IronUnmentioned(text: string)
    requires 'I' !in text
    ensures !Contains(text, IronDeficiency)
  {
    MissingCharNotContained(text, IronDeficiency, 0);
  }

  /** A text without a capital C cannot contain "Calcium deficiency". */
  lemma CalciumUnmentioned(text: string)
    requires 'C' !in text
    ensures !Contains(text, CalciumDeficiency)
  {
    MissingCharNotContained(text, CalciumDeficiency, 0);
  }

  // Neither 'I' nor 'C', the first letters of the two needles, occurs in the
  // overweight and obese items or in the two older age notes.

  lemma MicronutrientMentionsNeither()
    ensures !Contains(MicronutrientDeficiency, IronDeficiency) && !Contains(MicronutrientDeficiency, CalciumDeficiency)
  {
    IronUnmentioned(MicronutrientDeficiency);
    CalciumUnmentioned(MicronutrientDeficiency);
  }

  lemma FiberMentionsNeither()
    ensures !Contains(FiberDeficiency, IronDeficiency) && !Contains(FiberDeficiency, CalciumDeficiency)
  {
    IronUnmentioned(FiberDeficiency);
    CalciumUnmentioned(FiberDeficiency);
  }

  lemma HealthyFatMentionsNeither()
    ensures !Contains(HealthyFatDeficiency, IronDeficiency) && !Contains(HealthyFatDeficiency, CalciumDeficiency)
  {
    IronUnmentioned(HealthyFatDeficiency);
    CalciumUnmentioned(HealthyFatDeficiency);
  }

  lemma VitaminANoteMentionsNeither()
    ensures !Contains(VitaminARisk, IronDeficiency) && !Contains(VitaminARisk, CalciumDeficiency)
  {
    IronUnmentioned(VitaminARisk);
    CalciumUnmentioned(VitaminARisk);
  }

  lemma ZincNoteMentionsNeither()
    ensures !Contains(ZincDeficiency, IronDeficiency) && !Contains(ZincDeficiency, CalciumDeficiency)
  {
    IronUnmentioned(ZincDeficiency);
    CalciumUnmentioned(ZincDeficiency);
  }

  /** The toddler note mentions iron deficiency but not calcium deficiency. */
  lemma ToddlerNoteMentionsIronOnly()
    ensures Contains(ToddlerIronDeficiency, IronDeficiency) && !Contains(ToddlerIronDeficiency, CalciumDeficiency)
  {
    assert OccursAt(ToddlerIronDeficiency, IronDeficiency, 0);
    CalciumUnmentioned(ToddlerIronDeficiency);
  }

  /** No overweight or obese item, and neither of the two older age notes, mentions either needle. */
  lemma OtherItemsMentions()
    ensures forall t | t in StatusDeficiencies(Overweight) + [VitaminARisk, ZincDeficiency]
              :: !Contains(t, IronDeficiency) && !Contains(t, CalciumDeficiency)
  {
    MicronutrientMentionsNeither();
    FiberMentionsNeither();
    HealthyFatMentionsNeither();
    VitaminANoteMentionsNeither();
    ZincNoteMentionsNeither();
  }

  /** Some item mentions "Iron deficiency" exactly when the child is underweight or under two. */
  lemma IronMentionedIff(status: NutritionStatus, ageYears: int)
    ensures AnyContains(Deficiencies(status, ageYears), IronDeficiency) <==> status == Underweight || ageYears < 2
  {
    ContainsItself(IronDeficiency);
    ToddlerNoteMentionsIronOnly();
    OtherItemsMentions();
    var s, a := StatusDeficiencies(status), AgeDeficiencies(ageYears);
    AnyContainsAppend(s, a, IronDeficiency);
    if status == Underweight {
      assert Contains(s[1], IronDeficiency);
    }
    if ageYears < 2 {
      assert Contains(a[0], IronDeficiency);
    }
  }

  /** Some item mentions "Calcium deficiency" exactly when the child is underweight. */
  lemma CalciumMentionedIff(status: NutritionStatus, ageYears: int)
    ensures AnyContains(Deficiencies(status, ageYears), CalciumDeficiency) <==> status == Underweight
  {
    ContainsItself(CalciumDeficiency);
    ToddlerNoteMentionsIronOnly();
    OtherItemsMentions();
    var s, a := StatusDeficiencies(status), AgeDeficiencies(ageYears);
    AnyContainsAppend(s, a, CalciumDeficiency);
    if status == Underweight {
      assert Contains(s[3], CalciumDeficiency);
    }
  }

  // ---------------------------------------------------------------------------
  // Diet recommendation
  // ---------------------------------------------------------------------------

  const VegBreakfast := "BREAKFAST: Ragi porridge with ghee, Poha with vegetables"
  const VegLunch := "LUNCH: Dal-chawal with ghee, Vegetable sabzi, Roti with paneer"
  const VegDinner := "DINNER: Light dal with roti, Vegetable soup, Curd rice"
  const VegSnacks := "SNACKS: Seasonal fruits, Sprouted moong, Homemade mathri"
  const NonVegBreakfast := "BREAKFAST: Egg paratha, Upma with vegetables"
  const NonVegLunch := "LUNCH: Dal-chawal, Chicken/fish curry (2-3 times/week), Egg curry"
  const NonVegDinner := "DINNER: Light dal, Fish/chicken soup, Curd rice"
  const NonVegSnacks := "SNACKS: Seasonal fruits, Boiled eggs, Homemade snacks"
  const GainSpecial := "SPECIAL: Increase ghee/oil intake, Add banana and dates"
  const GainFrequency := "FREQUENCY: 6-7 small meals per day"
  const GainAdditions := "ADDITIONS: Groundnut chikki, Sesame laddu"
  const LossSpecial := "SPECIAL: Reduce oil intake, Increase vegetables"
  const LossAvoid := "AVOID: Fried foods and sweets"
  const LossFocus := "FOCUS: More fiber-rich foods, Physical activity"
  const IronAdvice := "IRON: Include jaggery, green leafy vegetables, sprouted legumes"
  const CalciumAdvice := "CALCIUM: Ensure milk/curd intake, sesame seeds, ragi"

  /** The four meal lines, chosen by dietary preference alone. */
  function MealPlan(pref: VegPreference): (meals: seq<string>)
  {
    match pref
    case Veg => [VegBreakfast, VegLunch, VegDinner, VegSnacks]
    case NonVeg => [NonVegBreakfast, NonVegLunch, NonVegDinner, NonVegSnacks]
  }

  /** The status block: three lines for underweight, three shared by overweight and obese, none for healthy. */
  function StatusAdvice(status: NutritionStatus): (advice: seq<string>)
  {
    match status
    case Underweight => [GainSpecial, GainFrequency, GainAdditions]
    case Healthy => []
    case Overweight | Obese => [LossSpecial, LossAvoid, LossFocus]
  }

  /** The recommendation lines in output order: meals, status block, iron line, calcium line. */
  function RecommendationLines(status: NutritionStatus, pref: VegPreference, deficiencies: seq<string>): (lines: seq<string>)
  {
    MealPlan(pref) + StatusAdvice(status)
    + (if AnyContains(deficiencies, IronDeficiency) then [IronAdvice] else [])
    + (if AnyContains(deficiencies, CalciumDeficiency) then [CalciumAdvice] else [])
  }

  /**
   * Builds the recommendation lines step by step and joins them with newlines.
   * `ageYears` and `gender` are accepted and not read: the text is a function
   * of status, preference and deficiencies only.
   */
  method GenerateDietRecommendation(
    status: NutritionStatus,
    ageYears: int,
    gender: Gender,
    pref: VegPreference,
    deficiencies: seq<string>
  ) returns (text: string)
    ensures text == JoinLines(RecommendationLines(status, pref, deficiencies))
  {
    var recommendations: seq<string> := [];
    if pref == Veg {
      recommendations := recommendations + [VegBreakfast, VegLunch, VegDinner, VegSnacks];
    } else {
      recommendations := recommendations + [NonVegBreakfast, NonVegLunch, NonVegDinner, NonVegSnacks];
    }
    assert recommendations == MealPlan(pref);
    if status == Underweight {
      recommendations := recommendations + [GainSpecial, GainFrequency, GainAdditions];
    } else if status == Overweight || status == Obese {
      recommendations := recommendations + [LossSpecial, LossAvoid, LossFocus];
    }
    assert recommendations == MealPlan(pref) + StatusAdvice(status);
    ghost var iron := if AnyContains(deficiencies, IronDeficiency) then [IronAdvice] else [];
    if AnyContains(deficiencies, IronDeficiency) {
      recommendations := recommendations + [IronAdvice];
    }
    assert recommendations == MealPlan(pref) + StatusAdvice(status) + iron;
    ghost var calcium := if AnyContains(deficiencies, CalciumDeficiency) then [CalciumAdvice] else [];
    if AnyContains(deficiencies, CalciumDeficiency) {
      recommendations := recommendations + [CalciumAdvice];
    }
    assert recommendations == MealPlan(pref) + StatusAdvice(status) + iron + calcium;
    text := JoinLines(recommendations);
  }

  /**
   * The block layout of the lines: four meal lines chosen by preference
   * alone, then three status lines unless healthy, then the iron line when an
   * item mentions iron deficiency, then the calcium line when an item mentions
   * calcium deficiency; between 4 and 9 lines in all.
   */
  lemma RecommendationLayout(status: NutritionStatus, pref: VegPreference, deficiencies: seq<string>)
    ensures var lines := RecommendationLines(status, pref, deficiencies);
            var iron := AnyContains(deficiencies, IronDeficiency);
            var calcium := AnyContains(deficiencies, CalciumDeficiency);
            var n := 4 + |StatusAdvice(status)|;
            && |StatusAdvice(status)| == (if status == Healthy then 0 else 3)
            && |lines| == n + (if iron then 1 else 0) + (if calcium then 1 else 0)
            && 4 <= |lines| <= 9
            && lines[..4] == MealPlan(pref)
            && lines[4..n] == StatusAdvice(status)
            && (iron ==> lines[n] == IronAdvice)
            && (calcium ==> lines[|lines| - 1] == CalciumAdvice)
  {
  }

  /** The iron and calcium lines differ from every meal and status line and from each other. */
  lemma NutrientLinesStandApart()
    ensures IronAdvice != CalciumAdvice
    ensures forall pref, k | 0 <= k < 4 :: MealPlan(pref)[k] != IronAdvice && MealPlan(pref)[k] != CalciumAdvice
    ensures forall status, k | 0 <= k < |StatusAdvice(status)|
              :: StatusAdvice(status)[k] != IronAdvice && StatusAdvice(status)[k] != CalciumAdvice
  {
  }

  /**
   * The iron line appears exactly when some item mentions "Iron deficiency",
   * and the calcium line exactly when some item mentions "Calcium deficiency".
   */
  lemma NutrientLinesIff(status: NutritionStatus, pref: VegPreference, deficiencies: seq<string>)
    ensures var lines := RecommendationLines(status, pref, deficiencies);
            && (IronAdvice in lines <==> AnyContains(deficiencies, IronDeficiency))
            && (CalciumAdvice in lines <==> AnyContains(deficiencies, CalciumDeficiency))
  {
    NutrientLinesStandApart();
    var lines := RecommendationLines(status, pref, deficiencies);
    var n := 4 + |StatusAdvice(status)|;
    assert forall k | 0 <= k < n :: lines[k] != IronAdvice && lines[k] != CalciumAdvice;
  }

  /** Overweight and obese children receive the same text. */
  lemma OverweightAndObeseShareAdvice(pref: VegPreference, deficiencies: seq<string>)
    ensures RecommendationLines(Overweight, pref, deficiencies) == RecommendationLines(Obese, pref, deficiencies)
  {
  }

  /** An underweight child on a vegetarian diet whose deficiency list names iron deficiency alone. */
  lemma RecommendationExample()
    ensures RecommendationLines(Underweight, Veg, [IronDeficiency])
         == [VegBreakfast, VegLunch, VegDinner, VegSnacks, GainSpecial, GainFrequency, GainAdditions, IronAdvice]
  {
    ContainsItself(IronDeficiency);
    assert Contains([IronDeficiency][0], IronDeficiency);
    assert !AnyContains([IronDeficiency], CalciumDeficiency);
  }

  /**
   * Fed the deficiency list of the same status and age, the recommendation has
   * the calcium line exactly for an underweight child and the iron line exactly
   * for an underweight child or one under two.
   */
  lemma RecommendationForDeficiencies(status: NutritionStatus, ageYears: int, pref: VegPreference)
    ensures var lines := RecommendationLines(status, pref, Deficiencies(status, ageYears));
            && (CalciumAdvice in lines <==> status == Underweight)
            && (IronAdvice in lines <==> status == Underweight || ageYears < 2)
  {
    NutrientLinesIff(status, pref, Deficiencies(status, ageYears));
    IronMentionedIff(status, ageYears);
    CalciumMentionedIff(status, ageYears);
  }
}
