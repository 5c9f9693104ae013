/** The fixed lookup tables of the zodiac engine: the twelve animals in cycle
    order, the five elements, the two polarities, the four trines, and the
    ally, clash, secret-friend, generating and overcoming relations.  Every
    table is a constant; the lemmas at the end are the consistency checks the
    engine relies on (each animal in exactly one trine, clash and secret friend
    symmetric and without fixed points, allies equal to trine-mates, no
    overlap between the relations). */
module ZodiacTables {

  datatype Animal =
    Rat | Ox | Tiger | Rabbit | Dragon | Snake | Horse | Goat | Monkey | Rooster | Dog | Pig

  datatype Element = Wood | Fire | Earth | Metal | Water

  datatype Polarity = Yang | Yin

  /** The animals in cycle order; index 0 is the year 1900. */
  const ZODIAC_ANIMALS: seq<Animal> :=
    [Rat, Ox, Tiger, Rabbit, Dragon, Snake, Horse, Goat, Monkey, Rooster, Dog, Pig]

  /** The elements in cycle order; index 0 governs 1900 and 1901. */
  const ELEMENTS: seq<Element> := [Wood, Fire, Earth, Metal, Water]

  /** The four trines, in the order the scorer visits them. */
  const TRINES: seq<seq<Animal>> :=
    [[Rat, Dragon, Monkey], [Ox, Snake, Rooster], [Tiger, Horse, Dog], [Rabbit, Goat, Pig]]

  /** The name of each animal, as the tables key it: a capitalised word of
      ASCII letters. */
  function AnimalName(a: Animal): (s: string)
    ensures |s| > 0 && 'A' <= s[0] <= 'Z'
    ensures forall i :: 0 <= i < |s| ==> 'A' <= s[i] <= 'Z' || 'a' <= s[i] <= 'z'
  {
    match a
    case Rat => "Rat"
    case Ox => "Ox"
    case Tiger => "Tiger"
    case Rabbit => "Rabbit"
    case Dragon => "Dragon"
    case Snake => "Snake"
    case Horse => "Horse"
    case Goat => "Goat"
    case Monkey => "Monkey"
    case Rooster => "Rooster"
    case Dog => "Dog"
    case Pig => "Pig"
  }

  /** The name of each element: a capitalised word of ASCII letters. */
  function ElementName(e: Element): (s: string)
    ensures |s| > 0 && 'A' <= s[0] <= 'Z'
    ensures forall i :: 0 <= i < |s| ==> 'A' <= s[i] <= 'Z' || 'a' <= s[i] <= 'z'
  {
    match e
    case Wood => "Wood"
    case Fire => "Fire"
    case Earth => "Earth"
    case Metal => "Metal"
    case Water => "Water"
  }

  /** Position of an animal in ZODIAC_ANIMALS. */
  function AnimalIndex(a: Animal): (i: nat)
    ensures i < |ZODIAC_ANIMALS| && ZODIAC_ANIMALS[i] == a
  {
    match a
    case Rat => 0
    case Ox => 1
    case Tiger => 2
    case Rabbit => 3
    case Dragon => 4
    case Snake => 5
    case Horse => 6
    case Goat => 7
    case Monkey => 8
    case Rooster => 9
    case Dog => 10
    case Pig => 11
  }

  /** Position of an element in ELEMENTS. */
  function ElementIndex(e: Element): (i: nat)
    ensures i < |ELEMENTS| && ELEMENTS[i] == e
  {
    match e
    case Wood => 0
    case Fire => 1
    case Earth => 2
    case Metal => 3
    case Water => 4
  }

  /** The two allies listed for each animal: two different animals, both
      other than it and both in its trine. */
  function Allies(a: Animal): (s: seq<Animal>)
    ensures |s| == 2 && s[0] != s[1] && s[0] != a && s[1] != a
    ensures TrineOf(s[0]) == TrineOf(a) && TrineOf(s[1]) == TrineOf(a)
  {
    match a
    case Rat => [Dragon, Monkey]
    case Ox => [Snake, Rooster]
    case Tiger => [Horse, Dog]
    case Rabbit => [Goat, Pig]
    case Dragon => [Rat, Monkey]
    case Snake => [Ox, Rooster]
    case Horse => [Tiger, Dog]
    case Goat => [Rabbit, Pig]
    case Monkey => [Rat, Dragon]
    case Rooster => [Ox, Snake]
    case Dog => [Tiger, Horse]
    case Pig => [Rabbit, Goat]
  }

  /** The animal each animal clashes with: the one six places further round
      the cycle. */
  function Clash(a: Animal): (c: Animal)
    ensures AnimalIndex(c) == (AnimalIndex(a) + 6) % 12
  {
    match a
    case Rat => Horse
    case Ox => Goat
    case Tiger => Monkey
    case Rabbit => Rooster
    case Dragon => Dog
    case Snake => Pig
    case Horse => Rat
    case Goat => Ox
    case Monkey => Tiger
    case Rooster => Rabbit
    case Dog => Dragon
    case Pig => Snake
  }

  /** The secret friend of each animal: its mirror image around the Rat/Ox
      axis, so the two indices add up to 1 modulo 12. */
  function SecretFriend(a: Animal): (f: Animal)
    ensures (AnimalIndex(a) + AnimalIndex(f)) % 12 == 1
  {
    match a
    case Rat => Ox
    case Ox => Rat
    case Tiger => Pig
    case Pig => Tiger
    case Rabbit => Dog
    case Dog => Rabbit
    case Dragon => Rooster
    case Rooster => Dragon
    case Snake => Monkey
    case Monkey => Snake
    case Horse => Goat
    case Goat => Horse
  }

  /** The generating (nurturing) cycle: each element feeds the next one in
      ELEMENTS. */
  function GeneratingCycle(e: Element): (g: Element)
    ensures ElementIndex(g) == (ElementIndex(e) + 1) % 5
  {
    match e
    case Wood => Fire
    case Fire => Earth
    case Earth => Metal
    case Metal => Water
    case Water => Wood
  }

  /** The overcoming (controlling) cycle: each element overcomes the one two
      places further on in ELEMENTS. */
  function OvercomingCycle(e: Element): (o: Element)
    ensures ElementIndex(o) == (ElementIndex(e) + 2) % 5
  {
    match e
    case Wood => Earth
    case Earth => Water
    case Water => Fire
    case Fire => Metal
    case Metal => Wood
  }

  /** Both animals belong to one of the trines, which is the case exactly
      when they belong to the same one. */
  predicate SameTrine(a: Animal, b: Animal): (r: bool)
    ensures r <==> TrineOf(a) == TrineOf(b)
  {
    SharedTrine(a, b);
    exists k :: 0 <= k < |TRINES| && a in TRINES[k] && b in TRINES[k]
  }

  /** A trine holding both animals can only be the trine of each. */
  lemma SharedTrine(a: Animal, b: Animal)
    ensures (exists k :: 0 <= k < |TRINES| && a in TRINES[k] && b in TRINES[k])
            <==> TrineOf(a) == TrineOf(b)
  {
    if exists k :: 0 <= k < |TRINES| && a in TRINES[k] && b in TRINES[k] {
      var k :| 0 <= k < |TRINES| && a in TRINES[k] && b in TRINES[k];
      TrineMembership(a, k);
      TrineMembership(b, k);
    }
  }

  /** The position in TRINES of the trine an animal belongs to. */
  function TrineOf(a: Animal): (k: nat)
    ensures k < |TRINES| && a in TRINES[k]
  {
    match a
    case Rat | Dragon | Monkey => 0
    case Ox | Snake | Rooster => 1
    case Tiger | Horse | Dog => 2
    case Rabbit | Goat | Pig => 3
  }

  // ---------------------------------------------------------------------
  // Consistency of the tables
  // ---------------------------------------------------------------------

  /** Reading ZODIAC_ANIMALS at a position and asking for the position back
      gives the same position, so AnimalIndex is a bijection onto [0, 12). */
  lemma AnimalAtIndex(i: int)
    requires 0 <= i < |ZODIAC_ANIMALS|
    ensures AnimalIndex(ZODIAC_ANIMALS[i]) == i
  {
    if i < 6 {
      assert i in {0, 1, 2, 3, 4, 5};
    } else {
      assert i in {6, 7, 8, 9, 10, 11};
    }
  }

  lemma ElementAtIndex(i: int)
    requires 0 <= i < |ELEMENTS|
    ensures ElementIndex(ELEMENTS[i]) == i
  {
    assert i in {0, 1, 2, 3, 4};
  }

  lemma AnimalNameInjective(a: Animal, b: Animal)
    ensures AnimalName(a) == AnimalName(b) <==> a == b
  {
    if AnimalName(a) == AnimalName(b) {
      match a
      case Rat => assert AnimalName(b)[..2] == "Ra" && |AnimalName(b)| == 3;
      case Ox => assert |AnimalName(b)| == 2;
      case Tiger => assert AnimalName(b)[0] == 'T';
      case Rabbit => assert AnimalName(b)[..2] == "Ra" && |AnimalName(b)| == 6;
      case Dragon => assert AnimalName(b)[0] == 'D' && |AnimalName(b)| == 6;
      case Snake => assert AnimalName(b)[0] == 'S';
      case Horse => assert AnimalName(b)[0] == 'H';
      case Goat => assert AnimalName(b)[0] == 'G';
      case Monkey => assert AnimalName(b)[0] == 'M';
      case Rooster => assert AnimalName(b)[..2] == "Ro";
      case Dog => assert AnimalName(b)[0] == 'D' && |AnimalName(b)| == 3;
      case Pig => assert AnimalName(b)[0] == 'P';
    }
  }

  /** Only the animal itself carries its name. */
  lemma NameIdentifiesAnimal(x: Animal)
    ensures forall a: Animal :: AnimalName(a) == AnimalName(x) ==> a == x
  {
    forall a: Animal | AnimalName(a) == AnimalName(x)
      ensures a == x
    {
      AnimalNameInjective(a, x);
    }
  }

  /** No animal is in two trines, so the four trines partition the twelve
      animals. */
  lemma TrineMembership(a: Animal, k: int)
    requires 0 <= k < |TRINES|
    ensures a in TRINES[k] <==> k == TrineOf(a)
  {
    assert k in {0, 1, 2, 3};
  }

  /** Each trine has three distinct members. */
  lemma TrineSizes(k: int)
    requires 0 <= k < |TRINES|
    ensures |TRINES[k]| == 3
    ensures TRINES[k][0] != TRINES[k][1] && TRINES[k][1] != TRINES[k][2] && TRINES[k][0] != TRINES[k][2]
  {
    assert k in {0, 1, 2, 3};
  }

  /** Trine k holds the animals whose index is k modulo 4: trine-mates are
      four places apart on the cycle. */
  lemma TrineByPosition(a: Animal)
    ensures TrineOf(a) == AnimalIndex(a) % 4
  {
  }

  /** Clash and secret friendship are symmetric: each is its own inverse. */
  lemma RelationsSymmetric(a: Animal)
    ensures Clash(Clash(a)) == a
    ensures SecretFriend(SecretFriend(a)) == a
  {
    match a
    case Rat =>
    case Ox =>
    case Tiger =>
    case Rabbit =>
    case Dragon =>
    case Snake =>
    case Horse =>
    case Goat =>
    case Monkey =>
    case Rooster =>
    case Dog =>
    case Pig =>
  }

  /** The ally list of an animal is its trine with the animal itself removed. */
  lemma AlliesFromTrine(a: Animal, b: Animal)
    ensures |Allies(a)| == 2
    ensures b in Allies(a) <==> b != a && TrineOf(b) == TrineOf(a)
  {
    match a
    case Rat =>
    case Ox =>
    case Tiger =>
    case Rabbit =>
    case Dragon =>
    case Snake =>
    case Horse =>
    case Goat =>
    case Monkey =>
    case Rooster =>
    case Dog =>
    case Pig =>
  }

  /** The ally list of an animal holds exactly its two trine-mates, so the
      ally relation is symmetric. */
  lemma AlliesAreTrineMates(a: Animal, b: Animal)
    ensures |Allies(a)| == 2
    ensures b in Allies(a) <==> b != a && SameTrine(a, b)
    ensures b in Allies(a) <==> a in Allies(b)
  {
    AlliesFromTrine(a, b);
    AlliesFromTrine(b, a);
  }

  /** The relations the animal scorer checks never overlap: the secret friend
      and the clash partner of an animal are other animals, outside its trine,
      and different from each other. */
  lemma RelationsDisjoint(a: Animal)
    ensures SecretFriend(a) != a && TrineOf(SecretFriend(a)) != TrineOf(a)
    ensures Clash(a) != a && TrineOf(Clash(a)) != TrineOf(a)
    ensures SecretFriend(a) != Clash(a)
  {
    match a
    case Rat =>
    case Ox =>
    case Tiger =>
    case Rabbit =>
    case Dragon =>
    case Snake =>
    case Horse =>
    case Goat =>
    case Monkey =>
    case Rooster =>
    case Dog =>
    case Pig =>
  }
}
