/**
 The activity-multiplier table of the calorie estimator: five lower-case
 keys, each with the factor that turns a basal metabolic rate into a daily
 requirement, and a default factor for any key the table does not hold.
 */
module Activity {
  import opened Text

  /** The five activity levels, in the order the table lists them. */
  datatype Level = Sedentary | LightlyActive | ModeratelyActive | VeryActive | ExtremelyActive

  const Levels: seq<Level> := [Sedentary, LightlyActive, ModeratelyActive, VeryActive, ExtremelyActive]

  /** The table, keyed by lower-case name. */
  const Multipliers: map<string, real> := map[
    "sedentary" := 1.2,
    "lightly active" := 1.375,
    "moderately active" := 1.55,
    "very active" := 1.725,
    "extremely active" := 1.9
  ]

  /** The factor used for a key the table does not hold. */
  const DefaultMultiplier: real := 1.2

  /** The table key of a level. */
  function Key(a: Level): (k: string)
    ensures k in Multipliers
    ensures IsLowerCase(k)
  {
    match a
    case Sedentary => "sedentary"
    case LightlyActive => "lightly active"
    case ModeratelyActive => "moderately active"
    case VeryActive => "very active"
    case ExtremelyActive => "extremely active"
  }

  /** The label under which the profile form offers a level. */
  function Label(a: Level): string {
    match a
    case Sedentary => "Sedentary"
    case LightlyActive => "Lightly Active"
    case ModeratelyActive => "Moderately Active"
    case VeryActive => "Very Active"
    case ExtremelyActive => "Extremely Active"
  }

  /** The factor of a level, as the closed enumeration states it. */
  function Multiplier(a: Level): real {
    match a
    case Sedentary => 1.2
    case LightlyActive => 1.375
    case ModeratelyActive => 1.55
    case VeryActive => 1.725
    case ExtremelyActive => 1.9
  }

  /**
   The table holds exactly the keys of the five levels, each with its
   level's factor, and distinct levels have distinct keys.
   */
  lemma TableIsClosed()
    ensures forall a: Level :: Key(a) in Multipliers && Multipliers[Key(a)] == Multiplier(a)
    ensures forall k :: k in Multipliers <==> exists a: Level :: Key(a) == k
    ensures forall a: Level, b: Level :: Key(a) == Key(b) ==> a == b
    ensures forall a: Level :: a in Levels
  {
    forall k | k in Multipliers
      ensures exists a: Level :: Key(a) == k
    {
      if k == "sedentary" { assert Key(Sedentary) == k; }
      else if k == "lightly active" { assert Key(LightlyActive) == k; }
      else if k == "moderately active" { assert Key(ModeratelyActive) == k; }
      else if k == "very active" { assert Key(VeryActive) == k; }
      else { assert Key(ExtremelyActive) == k; }
    }
    forall a: Level
      ensures a in Levels
    {
      match a
      case Sedentary => assert Levels[0] == a;
      case LightlyActive => assert Levels[1] == a;
      case ModeratelyActive => assert Levels[2] == a;
      case VeryActive => assert Levels[3] == a;
      case ExtremelyActive => assert Levels[4] == a;
    }
  }

  /**
   `activity_multipliers.get(level.lower(), 1.2)`: the level is matched
   against the keys ignoring case; a match gives that level's factor and
   anything else the default.
   */
  function MultiplierFor(level: string): (m: real)
    ensures forall a: Level :: EqualIgnoringCase(level, Key(a)) ==> m == Multiplier(a)
    ensures (forall a: Level :: !EqualIgnoringCase(level, Key(a))) ==> m == DefaultMultiplier
    ensures DefaultMultiplier <= m <= Multiplier(ExtremelyActive)
  {
    var k := Lower(level);
    MatchesEveryKey(level);
    if k in Multipliers then Multipliers[k] else DefaultMultiplier
  }

  /** Relates a lowered level to each table key. */
  lemma MatchesEveryKey(level: string)
    ensures forall a: Level :: EqualIgnoringCase(level, Key(a)) <==> Lower(level) == Key(a)
    ensures Lower(level) in Multipliers <==> exists a: Level :: EqualIgnoringCase(level, Key(a))
  {
    forall a: Level
      ensures EqualIgnoringCase(level, Key(a)) <==> Lower(level) == Key(a)
    {
      MatchesLowerCaseLiteral(level, Key(a));
    }
    TableIsClosed();
  }

  /** Looking up a level's own key gives that level's factor. */
  lemma KeyReachesItsMultiplier(a: Level)
    ensures MultiplierFor(Key(a)) == Multiplier(a)
  {
    assert EqualIgnoringCase(Key(a), Key(a));
  }

  /** The default is the sedentary factor: an unknown level counts as sedentary. */
  lemma DefaultIsSedentary(level: string)
    requires forall a: Level :: !EqualIgnoringCase(level, Key(a))
    ensures MultiplierFor(level) == MultiplierFor(Key(Sedentary))
  {
    assert EqualIgnoringCase(Key(Sedentary), Key(Sedentary));
  }

  /** Along the table order the factors strictly increase. */
  lemma MultiplierStrictlyIncreasing(i: int, j: int)
    requires 0 <= i < j < |Levels|
    ensures 0.0 < Multiplier(Levels[i]) < Multiplier(Levels[j])
  {
  }

  /** Every label the profile form offers reaches its own level's factor. */
  lemma FormLabelsReachTable(a: Level)
    ensures EqualIgnoringCase(Label(a), Key(a))
    ensures MultiplierFor(Label(a)) == Multiplier(a)
  {
    var l, k := Label(a), Key(a);
    assert |l| == |k|;
    forall i | 0 <= i < |l|
      ensures LowerChar(l[i]) == LowerChar(k[i])
    {
    }
  }
}
