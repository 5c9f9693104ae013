/** The aggregator: resolves both profiles, runs the three scorers, combines
    their scores with weights 50/35/15 and rounds half up, classifies the
    overall score into one of six levels, derives the relationship-dynamics
    flags and builds a pairing key that does not depend on the order of the
    two years. */
module ZodiacCompatibility {
  import opened ZodiacTables
  import opened ProfileResolver
  import opened ZodiacScoring

  datatype Level = Excellent | VeryGood | Good | Moderate | Challenging | Difficult

  datatype Scores = Scores(overall: int, animal: int, element: int, polarity: int)

  datatype Dynamics = Dynamics(
    isTrineMatch: bool,
    isSecretFriend: bool,
    isClash: bool,
    isSameAnimal: bool,
    isSameElement: bool)

  datatype CompatibilityResult = CompatibilityResult(
    partner1: Profile,
    partner2: Profile,
    scores: Scores,
    level: Level,
    levelDescription: string,
    elementRelationship: ElementCompat,
    polarityRelationship: PolarityCompat,
    dynamics: Dynamics,
    pairingKey: string)

  // ---------------------------------------------------------------------
  // Weighted overall score
  // ---------------------------------------------------------------------

  /** Math.round(0.50 a + 0.35 e + 0.15 p) in exact arithmetic: the integer
      nearest to the weighted average, halves rounded up. */
  function WeightedRound(animal: int, element: int, polarity: int): (r: int)
    ensures 100 * r - 50 <= 50 * animal + 35 * element + 15 * polarity < 100 * r + 50
  {
    (50 * animal + 35 * element + 15 * polarity + 50) / 100
  }

  /** Component scores in [0, 100] give an overall score in [0, 100]. */
  lemma WeightedRoundInRange(animal: int, element: int, polarity: int)
    requires 0 <= animal <= 100 && 0 <= element <= 100 && 0 <= polarity <= 100
    ensures 0 <= WeightedRound(animal, element, polarity) <= 100
  {
  }

  lemma WeightedRoundBounds(animal: int, element: int, polarity: int)
    requires 35 <= animal <= 90 && 45 <= element <= 90 && 70 <= polarity <= 85
    ensures 44 <= WeightedRound(animal, element, polarity) <= 89
  {
  }

  /** With the scores the three scorers can produce, the overall score lies
      in [44, 89]. */
  lemma ReachableOverallRange(a1: Animal, a2: Animal, e1: Element, e2: Element, p1: Polarity, p2: Polarity)
    ensures 44 <= WeightedRound(AnimalScore(a1, a2),
                                CalculateElementCompatibility(e1, e2).score,
                                CalculatePolarityCompatibility(p1, p2).score) <= 89
  {
    var a := AnimalScore(a1, a2);
    var e := CalculateElementCompatibility(e1, e2);
    var p := CalculatePolarityCompatibility(p1, p2);
    assert 45 <= e.score <= 90 by {
      match e.relationship
      case Same =>
      case Generating =>
      case Receiving =>
      case Overcoming =>
      case Controlled =>
    }
    WeightedRoundBounds(a, e.score, p.score);
  }

  // ---------------------------------------------------------------------
  // Levels
  // ---------------------------------------------------------------------

  /** The label the source reports for each level. */
  function LevelLabel(l: Level): (s: string)
    ensures |s| > 0 && 'A' <= s[0] <= 'Z'
  {
    match l
    case Excellent => "Excellent"
    case VeryGood => "Very Good"
    case Good => "Good"
    case Moderate => "Moderate"
    case Challenging => "Challenging"
    case Difficult => "Difficult"
  }

  /** Each level has a label of its own. */
  lemma LevelLabelsDistinct(l1: Level, l2: Level)
    ensures LevelLabel(l1) == LevelLabel(l2) <==> l1 == l2
  {
    if LevelLabel(l1) == LevelLabel(l2) {
      var s := LevelLabel(l2);
      match l1
      case Excellent => assert s[0] == 'E';
      case VeryGood => assert s[0] == 'V';
      case Good => assert s[0] == 'G';
      case Moderate => assert s[0] == 'M';
      case Challenging => assert s[0] == 'C';
      case Difficult => assert s[0] == 'D';
    }
  }

  function LevelDescription(l: Level): (d: string)
    ensures |d| > 0
  {
    match l
    case Excellent => "A truly harmonious match with natural understanding"
    case VeryGood => "Strong compatibility with great potential"
    case Good => "Solid foundation with room for growth"
    case Moderate => "Requires effort but can flourish with understanding"
    case Challenging => "Significant differences to navigate mindfully"
    case Difficult => "Major challenges requiring dedicated work"
  }

  /** The length of a level's description and its character at position 36,
      which together tell the six descriptions apart. */
  lemma DescriptionFingerprint(l: Level)
    ensures |LevelDescription(l)| > 36
    ensures (|LevelDescription(l)|, LevelDescription(l)[36]) ==
      match l
      case Excellent => (51, 'l')
      case VeryGood => (41, 'n')
      case Good => (37, 'h')
      case Moderate => (51, 'h')
      case Challenging => (45, 'm')
      case Difficult => (41, ' ')
  {
  }

  /** Each level has a description of its own. */
  lemma LevelDescriptionsDistinct(l1: Level, l2: Level)
    ensures LevelDescription(l1) == LevelDescription(l2) <==> l1 == l2
  {
    DescriptionFingerprint(l1);
    DescriptionFingerprint(l2);
  }

  /** Levels ranked from Difficult (0) up to Excellent (5). */
  function Rank(l: Level): (k: nat)
    ensures k <= 5
  {
    match l
    case Difficult => 0
    case Challenging => 1
    case Moderate => 2
    case Good => 3
    case VeryGood => 4
    case Excellent => 5
  }

  /** LEVEL_FLOORS[k] is the least overall score of the level of rank k + 1. */
  const LEVEL_FLOORS: seq<int> := [40, 50, 65, 75, 85]

  /** The band of scores a level covers: at least its own floor (Difficult has
      none) and below the floor of the next level up (Excellent has none). */
  predicate InBand(l: Level, score: int) {
    (Rank(l) == 0 || LEVEL_FLOORS[Rank(l) - 1] <= score)
    && (Rank(l) == 5 || score < LEVEL_FLOORS[Rank(l)])
  }

  lemma FloorsIncrease(i: int, j: int)
    requires 0 <= i <= j < |LEVEL_FLOORS|
    ensures LEVEL_FLOORS[i] <= LEVEL_FLOORS[j]
  {
    assert i in {0, 1, 2, 3, 4} && j in {0, 1, 2, 3, 4};
  }

  lemma RankInjective(l1: Level, l2: Level)
    ensures Rank(l1) == Rank(l2) ==> l1 == l2
  {
  }

  /** A better score never earns a lower level; in particular every score is
      in the band of at most one level. */
  lemma LevelMonotone(l1: Level, s1: int, l2: Level, s2: int)
    requires InBand(l1, s1) && InBand(l2, s2) && s1 <= s2
    ensures Rank(l1) <= Rank(l2)
  {
    if Rank(l1) > Rank(l2) {
      FloorsIncrease(Rank(l2), Rank(l1) - 1);
    }
  }

  lemma LevelUnique(l1: Level, l2: Level, s: int)
    requires InBand(l1, s) && InBand(l2, s)
    ensures l1 == l2
  {
    LevelMonotone(l1, s, l2, s);
    LevelMonotone(l2, s, l1, s);
    RankInjective(l1, l2);
  }

  /** The if-chain of calculateCompatibility: the first floor the score
      reaches, checked from the top, decides the level. */
  method DetermineLevel(overallScore: int) returns (level: Level, levelDescription: string)
    ensures InBand(level, overallScore)
    ensures levelDescription == LevelDescription(level)
  {
    if overallScore >= 85 {
      level := Excellent;
      levelDescription := LevelDescription(Excellent);
    } else if overallScore >= 75 {
      level := VeryGood;
      levelDescription := LevelDescription(VeryGood);
    } else if overallScore >= 65 {
      level := Good;
      levelDescription := LevelDescription(Good);
    } else if overallScore >= 50 {
      level := Moderate;
      levelDescription := LevelDescription(Moderate);
    } else if overallScore >= 40 {
      level := Challenging;
      levelDescription := LevelDescription(Challenging);
    } else {
      level := Difficult;
      levelDescription := LevelDescription(Difficult);
    }
  }

  // ---------------------------------------------------------------------
  // Pairing key
  // ---------------------------------------------------------------------

  /** String order of JavaScript's default sort, character by character. */
  predicate LexLessOrEqual(s: string, t: string) {
    if s == [] then true
    else if t == [] then false
    else if s[0] != t[0] then s[0] < t[0]
    else LexLessOrEqual(s[1..], t[1..])
  }

  lemma {:induction false} LexTotal(s: string, t: string)
    ensures LexLessOrEqual(s, t) || LexLessOrEqual(t, s)
  {
    if s != [] && t != [] && s[0] == t[0] {
      LexTotal(s[1..], t[1..]);
    }
  }

  lemma {:induction false} LexAntisymmetric(s: string, t: string)
    requires LexLessOrEqual(s, t) && LexLessOrEqual(t, s)
    ensures s == t
  {
    if s != [] && t != [] {
      LexAntisymmetric(s[1..], t[1..]);
      assert s == [s[0]] + s[1..] && t == [t[0]] + t[1..];
    }
  }

  /** [name1, name2].sort().join('-'): the two names in ascending order. */
  function PairingKey(name1: string, name2: string): (k: string)
    ensures (LexLessOrEqual(name1, name2) && k == name1 + "-" + name2)
         || (LexLessOrEqual(name2, name1) && k == name2 + "-" + name1)
  {
    LexTotal(name1, name2);
    if LexLessOrEqual(name1, name2) then name1 + "-" + name2 else name2 + "-" + name1
  }

  /** The key of an unordered pair does not depend on the order. */
  lemma PairingKeyOrderIndependent(name1: string, name2: string)
    ensures PairingKey(name1, name2) == PairingKey(name2, name1)
  {
    if LexLessOrEqual(name1, name2) && LexLessOrEqual(name2, name1) {
      LexAntisymmetric(name1, name2);
    }
  }

  // ---------------------------------------------------------------------
  // Dynamics
  // ---------------------------------------------------------------------

  /** The dynamics flags are not exclusive in general, but the tables rule
      out some combinations: the same animal is a trine match, and a clash or
      secret-friend pair is neither a trine match nor the other kind. */
  lemma DynamicsExclusions(a1: Animal, a2: Animal)
    ensures a1 == a2 ==> SameTrine(a1, a2)
    ensures Clash(a1) == a2 ==> !SameTrine(a1, a2) && SecretFriend(a1) != a2
    ensures SecretFriend(a1) == a2 ==> !SameTrine(a1, a2)
  {
    RelationsDisjoint(a1);
  }

  // ---------------------------------------------------------------------
  // The whole calculation
  // ---------------------------------------------------------------------

  /** calculateCompatibility for two birth years. */
  method CalculateCompatibility(year1: int, year2: int) returns (r: CompatibilityResult)
    ensures r.partner1 == ZodiacProfile(year1) && r.partner2 == ZodiacProfile(year2)
    ensures r.scores.animal == AnimalScore(r.partner1.animal, r.partner2.animal)
    ensures r.elementRelationship == CalculateElementCompatibility(r.partner1.element, r.partner2.element)
    ensures r.polarityRelationship == CalculatePolarityCompatibility(r.partner1.polarity, r.partner2.polarity)
    ensures r.scores.element == r.elementRelationship.score
    ensures r.scores.polarity == r.polarityRelationship.score
    ensures r.scores.overall == WeightedRound(r.scores.animal, r.scores.element, r.scores.polarity)
    ensures 44 <= r.scores.overall <= 89
    ensures InBand(r.level, r.scores.overall)
    ensures r.levelDescription == LevelDescription(r.level)
    ensures r.dynamics.isTrineMatch == SameTrine(r.partner1.animal, r.partner2.animal)
    ensures r.dynamics.isSecretFriend == (SecretFriend(r.partner1.animal) == r.partner2.animal)
    ensures r.dynamics.isClash == (Clash(r.partner1.animal) == r.partner2.animal)
    ensures r.dynamics.isSameAnimal == (r.partner1.animal == r.partner2.animal)
    ensures r.dynamics.isSameElement == (r.partner1.element == r.partner2.element)
    ensures r.dynamics.isSameAnimal ==> r.dynamics.isTrineMatch
    ensures r.dynamics.isClash ==> !r.dynamics.isTrineMatch && !r.dynamics.isSecretFriend
    ensures r.dynamics.isSecretFriend ==> !r.dynamics.isTrineMatch
    ensures r.pairingKey == PairingKey(AnimalName(r.partner1.animal), AnimalName(r.partner2.animal))
  {
    var profile1 := ZodiacProfile(year1);
    var profile2 := ZodiacProfile(year2);

    var animalScore := CalculateAnimalCompatibility(profile1.animal, profile2.animal);
    var elementCompat := CalculateElementCompatibility(profile1.element, profile2.element);
    var polarityCompat := CalculatePolarityCompatibility(profile1.polarity, profile2.polarity);

    var overallScore := WeightedRound(animalScore, elementCompat.score, polarityCompat.score);
    ReachableOverallRange(profile1.animal, profile2.animal, profile1.element, profile2.element,
                          profile1.polarity, profile2.polarity);

    var level, levelDescription := DetermineLevel(overallScore);

    var isTrineMatch := SameTrine(profile1.animal, profile2.animal);
    var isSecretFriend := SecretFriend(profile1.animal) == profile2.animal;
    var isClash := Clash(profile1.animal) == profile2.animal;
    DynamicsExclusions(profile1.animal, profile2.animal);

    r := CompatibilityResult(
      profile1,
      profile2,
      Scores(overallScore, animalScore, elementCompat.score, polarityCompat.score),
      level,
      levelDescription,
      elementCompat,
      polarityCompat,
      Dynamics(isTrineMatch, isSecretFriend, isClash,
               profile1.animal == profile2.animal, profile1.element == profile2.element),
      PairingKey(AnimalName(profile1.animal), AnimalName(profile2.animal)));
  }

  /** Swapping the two years leaves the animal and polarity scores and the
      pairing key unchanged and turns the element relationship into its
      converse. */
  lemma SwappedYears(year1: int, year2: int)
    ensures var p1, p2 := ZodiacProfile(year1), ZodiacProfile(year2);
      && AnimalScore(p1.animal, p2.animal) == AnimalScore(p2.animal, p1.animal)
      && CalculatePolarityCompatibility(p1.polarity, p2.polarity).score
         == CalculatePolarityCompatibility(p2.polarity, p1.polarity).score
      && CalculateElementCompatibility(p2.element, p1.element).relationship
         == Converse(CalculateElementCompatibility(p1.element, p2.element).relationship)
      && PairingKey(AnimalName(p1.animal), AnimalName(p2.animal))
         == PairingKey(AnimalName(p2.animal), AnimalName(p1.animal))
  {
    var p1, p2 := ZodiacProfile(year1), ZodiacProfile(year2);
    AnimalScoreSymmetric(p1.animal, p2.animal);
    ElementCompatibilityConverse(p1.element, p2.element);
    PairingKeyOrderIndependent(AnimalName(p1.animal), AnimalName(p2.animal));
  }

  /** The worked cases: Horse and Goat (1990, 1991) are secret friends,
      Rat and Horse (1984, 1990) clash, Rat and Dragon (1984, 1988) are
      distinct trine-mates, and the same year twice gives the same animal and
      element.  Only the contract of CalculateCompatibility is used. */
  method WorkedCases() returns (horseGoat: CompatibilityResult, ratHorse: CompatibilityResult,
                                ratDragon: CompatibilityResult, sameYear: CompatibilityResult)
    ensures horseGoat.scores.animal == 85 && horseGoat.dynamics.isSecretFriend
    ensures ratHorse.scores.animal == 35 && ratHorse.dynamics.isClash
    ensures ratDragon.scores.animal == 88 && ratDragon.dynamics.isTrineMatch
    ensures sameYear.scores.animal == 90 && sameYear.dynamics.isSameAnimal
    ensures sameYear.dynamics.isSameElement && sameYear.elementRelationship.relationship == Same
    ensures sameYear.elementRelationship.score == 75
  {
    WorkedYears();
    assert ZodiacProfile(1990).animal == Horse && ZodiacProfile(1991).animal == Goat;
    assert ZodiacProfile(1984).animal == Rat && ZodiacProfile(1988).animal == Dragon;
    assert ZodiacProfile(2000).animal == Dragon;
    WorkedAnimalScores();

    horseGoat := CalculateCompatibility(1990, 1991);
    ratHorse := CalculateCompatibility(1984, 1990);
    ratDragon := CalculateCompatibility(1984, 1988);
    sameYear := CalculateCompatibility(2000, 2000);
  }
}
