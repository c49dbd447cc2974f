/**
 The daily-calorie estimator: the revised Harris-Benedict basal metabolic
 rate, with height given in feet, scaled by the activity factor. All
 quantities are exact reals; the estimator validates nothing and is total.
 */
module Calories {
  import opened Text
  import opened Activity

  /** Centimetres in one foot. */
  const CmPerFoot: real := 30.48

  /** Height in centimetres from height in feet. */
  function HeightCm(heightFt: real): (cm: real)
    ensures cm / CmPerFoot == heightFt
    ensures heightFt > 0.0 <==> cm > 0.0
  {
    heightFt * CmPerFoot
  }

  /** The coefficient set the estimator chooses. */
  datatype Sex = Male | Female

  /** Only a case-insensitive "male" picks the male coefficients; every other string picks the female ones. */
  function SexOf(sex: string): (s: Sex)
    ensures s == Male <==> EqualIgnoringCase(sex, "male")
  {
    MatchesLowerCaseLiteral(sex, "male");
    if Lower(sex) == "male" then Male else Female
  }

  /** The two choices the profile form offers select the two coefficient sets. */
  lemma FormSexLabels()
    ensures SexOf("Male") == Male
    ensures SexOf("Female") == Female
  {
    assert EqualIgnoringCase("Male", "male");
    assert !EqualIgnoringCase("Female", "male");
  }

  /**
   Basal metabolic rate in kcal/day, with age in whole years. With height in
   feet, the per-centimetre coefficients times 30.48 give 146.27352 (male)
   and 94.42704 (female) per foot.
   */
  function BasalMetabolicRate(weightKg: real, heightFt: real, age: int, sex: string): (bmr: real)
    ensures EqualIgnoringCase(sex, "male") ==>
      bmr == 88.362 + 13.397 * weightKg + 146.27352 * heightFt - 5.677 * age as real
    ensures !EqualIgnoringCase(sex, "male") ==>
      bmr == 447.593 + 9.247 * weightKg + 94.42704 * heightFt - 4.330 * age as real
  {
    var heightCm := HeightCm(heightFt);
    match SexOf(sex)
    case Male => 88.362 + 13.397 * weightKg + 4.799 * heightCm - 5.677 * age as real
    case Female => 447.593 + 9.247 * weightKg + 3.098 * heightCm - 4.330 * age as real
  }

  /**
   The estimated daily requirement. It is the basal rate scaled by a factor
   between the sedentary and the extremely-active one, so it has the sign of
   the basal rate and lies between 1.2 and 1.9 times it.
   */
  function DailyCalories(weightKg: real, heightFt: real, age: int, sex: string, activityLevel: string): (kcal: real)
    ensures var bmr := BasalMetabolicRate(weightKg, heightFt, age, sex);
      && (kcal > 0.0 <==> bmr > 0.0)
      && (kcal == 0.0 <==> bmr == 0.0)
      && (bmr >= 0.0 ==> 1.2 * bmr <= kcal <= 1.9 * bmr)
      && (bmr <= 0.0 ==> 1.9 * bmr <= kcal <= 1.2 * bmr)
  {
    BasalMetabolicRate(weightKg, heightFt, age, sex) * MultiplierFor(activityLevel)
  }

  /**
   The estimate in closed form with height in feet: the per-centimetre
   coefficients times 30.48 give 146.27352 (male) and 94.42704 (female) per foot.
   */
  lemma ClosedFormInFeet(weightKg: real, heightFt: real, age: int, sex: string, activityLevel: string)
    ensures EqualIgnoringCase(sex, "male") ==>
      DailyCalories(weightKg, heightFt, age, sex, activityLevel)
      == (88.362 + 13.397 * weightKg + 146.27352 * heightFt - 5.677 * age as real) * MultiplierFor(activityLevel)
    ensures !EqualIgnoringCase(sex, "male") ==>
      DailyCalories(weightKg, heightFt, age, sex, activityLevel)
      == (447.593 + 9.247 * weightKg + 94.42704 * heightFt - 4.330 * age as real) * MultiplierFor(activityLevel)
  {
  }

  /** The sex is compared ignoring case. */
  lemma SexIsCaseInsensitive(weightKg: real, heightFt: real, age: int, s: string, t: string, activityLevel: string)
    requires EqualIgnoringCase(s, t)
    ensures DailyCalories(weightKg, heightFt, age, s, activityLevel) == DailyCalories(weightKg, heightFt, age, t, activityLevel)
  {
    LowerEqualIff(s, t);
  }

  /** "Male", "MALE" and "male" give the same estimate. */
  lemma MaleSpellings(weightKg: real, heightFt: real, age: int, activityLevel: string)
    ensures DailyCalories(weightKg, heightFt, age, "Male", activityLevel) == DailyCalories(weightKg, heightFt, age, "male", activityLevel)
    ensures DailyCalories(weightKg, heightFt, age, "MALE", activityLevel) == DailyCalories(weightKg, heightFt, age, "male", activityLevel)
  {
    SexIsCaseInsensitive(weightKg, heightFt, age, "Male", "male", activityLevel);
    SexIsCaseInsensitive(weightKg, heightFt, age, "MALE", "male", activityLevel);
  }

  /** Any sex that is not "male" up to case, however spelled, gets the female estimate. */
  lemma NonMaleIsFemale(weightKg: real, heightFt: real, age: int, sex: string, activityLevel: string)
    requires !EqualIgnoringCase(sex, "male")
    ensures DailyCalories(weightKg, heightFt, age, sex, activityLevel) == DailyCalories(weightKg, heightFt, age, "female", activityLevel)
  {
    assert !EqualIgnoringCase("female", "male");
  }

  /** The activity level is compared ignoring case. */
  lemma LevelIsCaseInsensitive(weightKg: real, heightFt: real, age: int, sex: string, s: string, t: string)
    requires EqualIgnoringCase(s, t)
    ensures DailyCalories(weightKg, heightFt, age, sex, s) == DailyCalories(weightKg, heightFt, age, sex, t)
  {
    LowerEqualIff(s, t);
  }

  /** A level that matches no key gives the sedentary estimate. */
  lemma UnknownLevelIsSedentary(weightKg: real, heightFt: real, age: int, sex: string, activityLevel: string)
    requires forall a: Level :: !EqualIgnoringCase(activityLevel, Key(a))
    ensures DailyCalories(weightKg, heightFt, age, sex, activityLevel) == DailyCalories(weightKg, heightFt, age, sex, "sedentary")
  {
    DefaultIsSedentary(activityLevel);
  }

  /** With a positive basal rate, a level later in the table gives a strictly larger estimate. */
  lemma MoreActiveMoreCalories(weightKg: real, heightFt: real, age: int, sex: string, i: int, j: int)
    requires 0 <= i < j < |Levels|
    requires BasalMetabolicRate(weightKg, heightFt, age, sex) > 0.0
    ensures DailyCalories(weightKg, heightFt, age, sex, Key(Levels[i])) < DailyCalories(weightKg, heightFt, age, sex, Key(Levels[j]))
  {
    var bmr := BasalMetabolicRate(weightKg, heightFt, age, sex);
    AtLevel(weightKg, heightFt, age, sex, Levels[i]);
    AtLevel(weightKg, heightFt, age, sex, Levels[j]);
    MultiplierStrictlyIncreasing(i, j);
    ScaleStrictlyIncreasing(bmr, Multiplier(Levels[i]), Multiplier(Levels[j]));
  }

  /** At a level's own key the estimate is the basal rate times that level's factor. */
  lemma AtLevel(weightKg: real, heightFt: real, age: int, sex: string, a: Level)
    ensures DailyCalories(weightKg, heightFt, age, sex, Key(a)) == BasalMetabolicRate(weightKg, heightFt, age, sex) * Multiplier(a)
  {
    KeyReachesItsMultiplier(a);
  }

  /** A positive amount scaled by a larger factor is larger. */
  lemma ScaleStrictlyIncreasing(x: real, m: real, n: real)
    requires x > 0.0 && m < n
    ensures x * m < x * n
  {
  }

  /** A smaller amount scaled by the same positive factor stays smaller. */
  lemma ScaleKeepsOrder(x: real, y: real, m: real)
    requires x < y && m > 0.0
    ensures x * m < y * m
  {
  }

  /** Every other input fixed, more weight gives a strictly larger estimate. */
  lemma HeavierMoreCalories(w1: real, w2: real, heightFt: real, age: int, sex: string, activityLevel: string)
    requires w1 < w2
    ensures DailyCalories(w1, heightFt, age, sex, activityLevel) < DailyCalories(w2, heightFt, age, sex, activityLevel)
  {
    ScaleKeepsOrder(BasalMetabolicRate(w1, heightFt, age, sex), BasalMetabolicRate(w2, heightFt, age, sex), MultiplierFor(activityLevel));
  }

  /** Every other input fixed, more height gives a strictly larger estimate. */
  lemma TallerMoreCalories(weightKg: real, h1: real, h2: real, age: int, sex: string, activityLevel: string)
    requires h1 < h2
    ensures DailyCalories(weightKg, h1, age, sex, activityLevel) < DailyCalories(weightKg, h2, age, sex, activityLevel)
  {
    ScaleKeepsOrder(BasalMetabolicRate(weightKg, h1, age, sex), BasalMetabolicRate(weightKg, h2, age, sex), MultiplierFor(activityLevel));
  }

  /** Every other input fixed, more age gives a strictly smaller estimate. */
  lemma OlderFewerCalories(weightKg: real, heightFt: real, a1: int, a2: int, sex: string, activityLevel: string)
    requires a1 < a2
    ensures DailyCalories(weightKg, heightFt, a2, sex, activityLevel) < DailyCalories(weightKg, heightFt, a1, sex, activityLevel)
  {
    ScaleKeepsOrder(BasalMetabolicRate(weightKg, heightFt, a2, sex), BasalMetabolicRate(weightKg, heightFt, a1, sex), MultiplierFor(activityLevel));
  }

  /** 70 kg, 5.9 ft, 30 years, male, sedentary: 179.832 cm, basal rate 1718.855768, estimate 2062.6269216 kcal. */
  lemma MaleSedentaryExample()
    ensures BasalMetabolicRate(70.0, 5.9, 30, "male") == 1718.855768
    ensures DailyCalories(70.0, 5.9, 30, "male", "sedentary") == 2062.6269216
  {
    assert EqualIgnoringCase("male", "male");
    assert EqualIgnoringCase("sedentary", Key(Sedentary));
  }

  /** 60 kg, 5.5 ft, 25 years, female, very active: 167.64 cm, basal rate 1413.51172, estimate 2438.307717 kcal. */
  lemma FemaleVeryActiveExample()
    ensures BasalMetabolicRate(60.0, 5.5, 25, "female") == 1413.51172
    ensures DailyCalories(60.0, 5.5, 25, "female", "very active") == 2438.307717
  {
    assert !EqualIgnoringCase("female", "male");
    assert EqualIgnoringCase("very active", Key(VeryActive));
  }

  /**
   Nothing clamps the result: inputs the profile form accepts (1 kg, 1 ft,
   150 years, "Female", "Sedentary") give a negative estimate.
   */
  lemma NegativeEstimateWithinFormBounds()
    ensures DailyCalories(1.0, 1.0, 150, "Female", "Sedentary") == -117.879552
  {
    assert !EqualIgnoringCase("Female", "male");
    assert EqualIgnoringCase("Sedentary", Key(Sedentary));
    assert MultiplierFor("Sedentary") == 1.2;
    assert BasalMetabolicRate(1.0, 1.0, 150, "Female") == -98.23296;
  }
}
