/** The three attribute scorers.  The animal scorer runs a chain of
    unconditional overwrites of a running score (same sign, trine, secret
    friend, ally, clash, in that order) and is proved equal to AnimalScore, a
    reference definition with one exclusive case per relation.  The element scorer takes the first
    matching rule over the generating and overcoming cycles; the polarity
    scorer has two cases. */
module ZodiacScoring {
  import opened ZodiacTables

  // ---------------------------------------------------------------------
  // Animal compatibility
  // ---------------------------------------------------------------------

  /** Reference animal score, one case per relation: the same animal gives
      90, distinct trine-mates 88, a secret friend 85, the clash partner 35,
      anything else 50.  The relations do not overlap (RelationsDisjoint), so
      the order of the cases does not matter. */
  function AnimalScore(a1: Animal, a2: Animal): (s: int)
    ensures s in {35, 50, 85, 88, 90}
  {
    if a1 == a2 then 90
    else if SameTrine(a1, a2) then 88
    else if SecretFriend(a1) == a2 then 85
    else if Clash(a1) == a2 then 35
    else 50
  }

  /** The animal score does not depend on the order of the two animals. */
  lemma AnimalScoreSymmetric(a1: Animal, a2: Animal)
    ensures AnimalScore(a1, a2) == AnimalScore(a2, a1)
  {
    RelationsSymmetric(a1);
    RelationsSymmetric(a2);
  }

  /** The animal scores of the worked cases: Horse and Goat are secret
      friends, Rat and Horse clash, Rat and Dragon are trine-mates. */
  lemma WorkedAnimalScores()
    ensures AnimalScore(Horse, Goat) == 85 && AnimalScore(Rat, Horse) == 35
    ensures AnimalScore(Rat, Dragon) == 88 && AnimalScore(Dragon, Dragon) == 90
  {
  }

  /** The trine scan of calculateAnimalCompatibility: walk the four trines
      and stop at the first one holding both animals. */
  method FindSharedTrine(animal1: Animal, animal2: Animal) returns (found: bool)
    ensures found <==> SameTrine(animal1, animal2)
  {
    found := false;
    var k := 0;
    while k < |TRINES|
      invariant 0 <= k <= |TRINES|
      invariant forall j :: 0 <= j < k ==> !(animal1 in TRINES[j] && animal2 in TRINES[j])
    {
      if animal1 in TRINES[k] && animal2 in TRINES[k] {
        found := true;
        break;
      }
      k := k + 1;
    }
  }

  /** calculateAnimalCompatibility: start at 50 and let each matching rule
      overwrite the running score, the later rules winning. */
  method CalculateAnimalCompatibility(animal1: Animal, animal2: Animal) returns (score: int)
    ensures score == AnimalScore(animal1, animal2)
  {
    RelationsDisjoint(animal1);
    AlliesFromTrine(animal1, animal2);

    assert AnimalScore(animal1, animal2) ==
      if animal1 == animal2 then 90
      else if TrineOf(animal1) == TrineOf(animal2) then 88
      else if SecretFriend(animal1) == animal2 then 85
      else if Clash(animal1) == animal2 then 35
      else 50;

    score := 50;
    if animal1 == animal2 {
      score := 70;
    }
    var inTrine := FindSharedTrine(animal1, animal2);
    if inTrine {
      score := 90;
    }
    if SecretFriend(animal1) == animal2 {
      score := 85;
    }
    if animal2 in Allies(animal1) {
      score := 88;
    }
    if Clash(animal1) == animal2 {
      score := 35;
    }
  }

  // ---------------------------------------------------------------------
  // Element compatibility
  // ---------------------------------------------------------------------

  datatype ElementRelationship = Same | Generating | Receiving | Overcoming | Controlled | Neutral

  /** The relationship tag the source reports: a non-empty lower-case word. */
  function RelationshipTag(r: ElementRelationship): (t: string)
    ensures |t| > 0
    ensures forall i :: 0 <= i < |t| ==> 'a' <= t[i] <= 'z'
  {
    match r
    case Same => "same"
    case Generating => "generating"
    case Receiving => "receiving"
    case Overcoming => "overcoming"
    case Controlled => "controlled"
    case Neutral => "neutral"
  }

  /** The score attached to each relationship, from 45 for being overcome
      up to 90 for being generated. */
  function RelationshipScore(r: ElementRelationship): (s: int)
    ensures 45 <= s <= 90
  {
    match r
    case Same => 75
    case Generating => 90
    case Receiving => 85
    case Overcoming => 45
    case Controlled => 50
    case Neutral => 65
  }

  /** Different relationships carry different tags. */
  lemma RelationshipTagsDistinct(r1: ElementRelationship, r2: ElementRelationship)
    ensures RelationshipTag(r1) == RelationshipTag(r2) <==> r1 == r2
  {
    if RelationshipTag(r1) == RelationshipTag(r2) {
      var t := RelationshipTag(r2);
      match r1
      case Same => assert t[0] == 's';
      case Generating => assert t[0] == 'g';
      case Receiving => assert t[0] == 'r';
      case Overcoming => assert t[0] == 'o';
      case Controlled => assert t[..2] == "co";
      case Neutral => assert t[0] == 'n';
    }
  }

  /** Different relationships carry different scores, so the score alone
      tells which rule of the element scorer fired. */
  lemma RelationshipScoresDistinct(r1: ElementRelationship, r2: ElementRelationship)
    ensures RelationshipScore(r1) == RelationshipScore(r2) <==> r1 == r2
  {
  }

  /** The relationship seen from the other element. */
  function Converse(r: ElementRelationship): ElementRelationship {
    match r
    case Same => Same
    case Generating => Receiving
    case Receiving => Generating
    case Overcoming => Controlled
    case Controlled => Overcoming
    case Neutral => Neutral
  }

  /** The score and relationship of an element pair; the source's
      interpolated description text is not modelled. */
  datatype ElementCompat = ElementCompat(score: int, relationship: ElementRelationship)

  /** Forward distance from the first element to the second on the 5-cycle. */
  function ElementOffset(e1: Element, e2: Element): int {
    (ElementIndex(e2) - ElementIndex(e1)) % 5
  }

  /** Each rule of the element scorer holds at exactly one distance on the
      5-cycle. */
  lemma ElementRulesByOffset(e1: Element, e2: Element)
    ensures e1 == e2 <==> ElementOffset(e1, e2) == 0
    ensures GeneratingCycle(e1) == e2 <==> ElementOffset(e1, e2) == 1
    ensures OvercomingCycle(e1) == e2 <==> ElementOffset(e1, e2) == 2
    ensures OvercomingCycle(e2) == e1 <==> ElementOffset(e1, e2) == 3
    ensures GeneratingCycle(e2) == e1 <==> ElementOffset(e1, e2) == 4
  {
    var i: int, j: int := ElementIndex(e1), ElementIndex(e2);
    ElementAtIndex(j);
    ElementAtIndex((i + 1) % 5);
    ElementAtIndex((i + 2) % 5);
    ElementAtIndex((j + 1) % 5);
    ElementAtIndex((j + 2) % 5);
  }

  /** calculateElementCompatibility: the first matching rule decides.  Each
      of the five distances on the cycle selects exactly one relationship, so
      the final 'neutral' rule is never reached. */
  function CalculateElementCompatibility(element1: Element, element2: Element): (r: ElementCompat)
    ensures r.score == RelationshipScore(r.relationship)
    ensures r.relationship != Neutral
    ensures r.relationship == Same <==> ElementOffset(element1, element2) == 0
    ensures r.relationship == Generating <==> ElementOffset(element1, element2) == 1
    ensures r.relationship == Overcoming <==> ElementOffset(element1, element2) == 2
    ensures r.relationship == Controlled <==> ElementOffset(element1, element2) == 3
    ensures r.relationship == Receiving <==> ElementOffset(element1, element2) == 4
  {
    ElementRulesByOffset(element1, element2);
    if element1 == element2 then ElementCompat(75, Same)
    else if GeneratingCycle(element1) == element2 then ElementCompat(90, Generating)
    else if GeneratingCycle(element2) == element1 then ElementCompat(85, Receiving)
    else if OvercomingCycle(element1) == element2 then ElementCompat(45, Overcoming)
    else if OvercomingCycle(element2) == element1 then ElementCompat(50, Controlled)
    else ElementCompat(65, Neutral)
  }

  /** Swapping the elements turns each relationship into its converse, so the
      scorer is not symmetric: generating (90) becomes receiving (85) and
      overcoming (45) becomes controlled (50). */
  lemma ElementCompatibilityConverse(e1: Element, e2: Element)
    ensures CalculateElementCompatibility(e2, e1).relationship
         == Converse(CalculateElementCompatibility(e1, e2).relationship)
    ensures CalculateElementCompatibility(e1, e2).relationship == Generating ==>
              CalculateElementCompatibility(e1, e2).score == 90
              && CalculateElementCompatibility(e2, e1).score == 85
  {
  }

  // ---------------------------------------------------------------------
  // Polarity compatibility
  // ---------------------------------------------------------------------

  /** The score and balance of a polarity pair; the source's description
      text is not modelled. */
  datatype PolarityCompat = PolarityCompat(score: int, balanced: bool)

  /** calculatePolarityCompatibility: differing polarities are balanced and
      score 85, equal ones score 70. */
  function CalculatePolarityCompatibility(polarity1: Polarity, polarity2: Polarity): (r: PolarityCompat)
    ensures r.balanced <==> polarity1 != polarity2
    ensures r.score == if r.balanced then 85 else 70
  {
    if polarity1 != polarity2 then PolarityCompat(85, true) else PolarityCompat(70, false)
  }
}
