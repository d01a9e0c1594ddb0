/** The enumerations of the data model that the nutrition engine reads. */
module Models {

  /** Recorded for every kid; accepted by the classifier and the recommender, read by neither. */
  datatype Gender = Male | Female

  /** Selects the meal-plan block of a diet recommendation. */
  datatype VegPreference = Veg | NonVeg

  /** The four nutrition statuses, in increasing order of BMI. */
  datatype NutritionStatus = Underweight | Healthy | Overweight | Obese
  {
    /** Position of the status in the order Underweight < Healthy < Overweight < Obese. */
    function Rank(): nat
    {
      match this
      case Underweight => 0
      case Healthy => 1
      case Overweight => 2
      case Obese => 3
    }
  }
}
