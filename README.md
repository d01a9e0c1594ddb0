# Nutrition engine of the kids' nutrition tracker

This project models the nutrition engine of a web application that records
children's height and weight and advises on their diet. The engine is five
small deterministic steps:

- the age in whole years and months from a birth date;
- the body mass index (BMI) from height and weight;
- an age-banded classification of the BMI into Underweight, Healthy, Overweight
  or Obese, with a fixed percentile marker;
- the list of likely deficiencies for that status and age;
- a diet recommendation text made of meal, status and nutrient lines.

The route that serves an authority user runs the five steps in that order on
one measurement. The project models that chain as well.

Files:

- `models.dfy` (module `Models`): the enumerations `Gender`, `VegPreference` and
  `NutritionStatus`.
- `strings.dfy` (module `Strings`): two Python string operations the engine
  relies on. The first is the substring test `needle in s` (`Contains`). The
  second is `"\n".join` (`JoinLines`), with `str.split("\n")` (`SplitLines`) as
  its inverse.
- `nutrition_calculator.dfy` (module `NutritionCalculator`): the five steps. The
  two list builders are methods with a sequence accumulator, each proved
  against a specification function. The other three steps are functions.
- `nutrition_assessment.dfy` (module `NutritionAssessment`): the chain of the
  five steps for one measurement.

Modelling choices:

- The current date is a parameter `today` rather than a clock reading.
- Dates keep the day of the month, so that the model can show the day is never read.
- BMI is a `real` and is not rounded.
- A zero height gives the value `ZeroDivisionError` (or `HeightIsZero` in the
  chain) where Python raises the exception.
- The source tests whether a needle is a substring of `str(deficiencies)`. The
  needles "Iron deficiency" and "Calcium deficiency" hold no quote, bracket,
  comma or backslash. So the test is modelled as "some element of the list
  contains the needle" (`AnyContains`).

Two behaviours of the code are worth knowing:

- The code has no guard on the height. A zero height raises a division error,
  and a negative height is accepted and gives the same BMI as its absolute
  value (`BmiIgnoresHeightSign`).
- For ages 2 to 4 the cutoffs are 13, 17 and 19, so a BMI of 17.5 at age 3
  lies in [17, 19) and is Overweight with percentile 85 (`ClassifyExamples`).

## Model

| member | source | states |
|---|---|---|
| NutritionCalculator.CalculateAge | app/nutrition_calculator.py:10-18 | The months lie in 0..11. Twelve times the years plus the months equals the month count of today minus that of the birth date. |
| NutritionCalculator.AgeDeterminedByMonths | app/nutrition_calculator.py:13-18 | Any (years, months) with months in 0..11 and the same month difference is the result, so the borrow step computes the unique such split. |
| NutritionCalculator.AgeIgnoresDay | app/nutrition_calculator.py:13-14 | Changing the day of the month of either date never changes the age. |
| NutritionCalculator.AgeNegativeIffBornLater | app/nutrition_calculator.py:13-17 | The years are negative exactly when the birth (year, month) lies after today's. |
| NutritionCalculator.CalculateBmi | app/nutrition_calculator.py:21-23 | A zero height, and only a zero height, is a division error. Otherwise the BMI times the square of the height in metres equals the weight. |
| NutritionCalculator.BmiMonotoneInWeight | app/nutrition_calculator.py:22-23 | At a fixed non-zero height, BMI is non-decreasing in weight, and strictly increasing when the weight strictly increases. |
| NutritionCalculator.BmiIgnoresHeightSign | app/nutrition_calculator.py:22-23 | A negative height gives the same result as its absolute value, since there is no guard against it. |
| NutritionCalculator.CutoffsOf | app/nutrition_calculator.py:30-65 | In every row of the threshold table, the underweight cutoff is below the healthy cutoff, which is below the overweight cutoff. |
| NutritionCalculator.ClassifyBmiStatus | app/nutrition_calculator.py:27-65 | Each status holds exactly on its half-open interval of the age band's cutoffs, and the four intervals cover every BMI. The percentile is the status's marker: 10 or 5 for Underweight (10 under two), then 50, 85 and 95. |
| NutritionCalculator.PercentileMarker | app/nutrition_calculator.py:30-65 | Every percentile marker the table returns is one of 5, 10, 50, 85 and 95. |
| NutritionCalculator.ClassifyIgnoresGender | app/nutrition_calculator.py:27-29 | Male and female children of the same age and BMI get the same status and percentile. |
| NutritionCalculator.ClassifyMonotoneInBmi | app/nutrition_calculator.py:30-65 | At one age, a larger BMI never gives a lower status in the order Underweight < Healthy < Overweight < Obese. |
| NutritionCalculator.NegativeAgeUsesUnderTwoRow | app/nutrition_calculator.py:30-38 | A negative age (a birth date in the future) is classified exactly as age 0. |
| NutritionCalculator.ClassifyExamples | app/nutrition_calculator.py:30-65 | Sample points, cutoffs included: 14 at age 1 is Healthy 50, 13.5 at age 1 is Underweight 10, 17.5 at age 3 is Overweight 85, 16.9 at age 3 is Healthy 50, 23 and 24 at age 15 are Overweight 85, and 12 at age 8 is Underweight 5. |
| NutritionCalculator.IdentifyDeficiencies | app/nutrition_calculator.py:68-90 | The list built step by step equals the status items followed by the age note. |
| NutritionCalculator.DeficienciesLength | app/nutrition_calculator.py:70-89 | The length is 5, 0 or 3 for Underweight, Healthy or Overweight/Obese, plus 1 unless the age is 5 to 11. |
| NutritionCalculator.DeficienciesEmptyIff | app/nutrition_calculator.py:68-90 | The list is empty exactly for a Healthy child aged 5 to 11. |
| NutritionCalculator.CalciumListedIffUnderweight | app/nutrition_calculator.py:70-89 | The item "Calcium deficiency" is in the list exactly when the status is Underweight. |
| NutritionCalculator.ToddlerNoteMentionsIronOnly | app/nutrition_calculator.py:85 | The toddler note contains "Iron deficiency" and does not contain "Calcium deficiency". |
| NutritionCalculator.IronMentionedIff | app/nutrition_calculator.py:70-89 | Some item contains "Iron deficiency" exactly when the status is Underweight or the age is below 2. |
| NutritionCalculator.CalciumMentionedIff | app/nutrition_calculator.py:70-89 | Some item contains "Calcium deficiency" exactly when the status is Underweight. |
| NutritionCalculator.GenerateDietRecommendation | app/nutrition_calculator.py:93-141 | The text is the newline-join of the meal lines for the preference, the status lines, the iron line if some item mentions iron deficiency, and the calcium line if some item mentions calcium deficiency. Age and gender do not enter. |
| NutritionCalculator.RecommendationLayout | app/nutrition_calculator.py:100-140 | There are 4 to 9 lines. The first 4 are the meal plan, then 3 status lines unless Healthy, then the iron line when it is due, with the calcium line last when it is due. |
| NutritionCalculator.NutrientLinesStandApart | app/nutrition_calculator.py:104-140 | The iron and calcium lines differ from each other and from every meal and status line. |
| NutritionCalculator.NutrientLinesIff | app/nutrition_calculator.py:135-140 | The iron line is present exactly when some item contains "Iron deficiency", and the calcium line exactly when some item contains "Calcium deficiency". |
| NutritionCalculator.OverweightAndObeseShareAdvice | app/nutrition_calculator.py:127-134 | Overweight and Obese children get the same lines. |
| NutritionCalculator.RecommendationExample | app/nutrition_calculator.py:101-138 | An Underweight vegetarian whose list is ["Iron deficiency"] gets the 4 vegetarian meal lines, the 3 weight-gain lines and the iron line, in that order. |
| NutritionCalculator.RecommendationForDeficiencies | app/nutrition_calculator.py:68-141 | Given the deficiency list of the same status and age, the calcium line appears exactly for Underweight, and the iron line exactly for Underweight or under two. Thanks to the toddler note, that includes a healthy toddler. |
| Strings.AnyContains | app/nutrition_calculator.py:135-140 | The substring test on the printed list. A list holding the needle itself passes it, and the empty list fails it. |
| Strings.JoinLines | app/nutrition_calculator.py:141 | The joined text starts with the first line. When there is a second line, a newline follows the first. |
| Strings.SplitLines | app/nutrition_calculator.py:141 | The inverse of the join: splitting on newlines gives at least one piece, and no piece holds a newline. |
| Strings.SplitJoinLines | app/nutrition_calculator.py:141 | Joining lines that hold no newline and splitting the result on newlines gives the lines back, so the join loses nothing. |
| Strings.AnyContainsAppend | app/nutrition_calculator.py:135 | Some item of a concatenated list contains the needle exactly when some item of one of the parts does. |
| NutritionAssessment.AssessKid | app/routes/authority_routes.py:250-256 | A zero height, and only that, stops the chain. Otherwise each field is the step function applied to the earlier fields. The recommendation has 4 to 9 lines, the calcium line exactly for Underweight, and the iron line exactly for Underweight or under two. |

## Left out

- `round(bmi, 2)` and IEEE floating point: BMI is an exact `real`. The model therefore loses these behaviours of the code:
  - Rounding to two decimals is not modelled, so a BMI within 0.005 of a cutoff may classify differently in the code.
  - A non-zero height whose square underflows to 0.0 also raises the division error.
  - A very large height raises OverflowError when it is squared.
  - A NaN BMI fails every `<` test and is classified Obese, 95.
  - The rows that say only a zero height stops the calculation hold for the model alone.
- CalculateBmi: that BMI does not increase with height for a positive height and a non-negative weight is not proved. The proof needs sign reasoning on products of squares that the solver does not close. Only monotonicity in weight is proved (`BmiMonotoneInWeight`).
- The line count of the recommendation text itself: `SplitJoinLines` needs every line to be free of newlines. That holds by inspection of the sixteen literal lines but is not proved for them, so the 4-to-9 bound is stated on the lines, not on the split text.
- `date.today()`: the clock is replaced by the parameter `today`. The `datetime`-to-`date` conversion is left out because only the year and month are read.
- `str(deficiencies)`: Python's list representation is not modelled. The substring test on it is modelled as a test on the elements, which agrees for these needles.
- Everything around the engine in the route: the role check, the kid lookup and its 404, storing the measurement and the report, JSON encoding of the list, and rendering. These are request handling and persistence.
- Authentication, password hashing, tokens, the database layer, seeding, `UserRole` and the browser script: not part of the engine.
