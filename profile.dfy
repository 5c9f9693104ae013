/** Profile resolver: a year determines its animal (12-year cycle from the Rat
    year 1900), its element (each element governs two consecutive years of a
    10-year cycle) and its polarity (Yang in even years).  The source computes
    the cycle positions with JavaScript's truncating `%` and repairs a negative
    remainder by adding the modulus back; JsRem and NormalizeIndex model those
    two steps, and NormalizedRemainderIsEuclidean shows that together they give
    Dafny's Euclidean `%`. */
module ProfileResolver {
  import opened ZodiacTables

  /** A resolved profile.  The relational fields are keyed off the animal; the
      localized names, emoji and colours of the source are not modelled. */
  datatype Profile = Profile(
    year: int,
    animal: Animal,
    element: Element,
    polarity: Polarity,
    allies: seq<Animal>,
    clash: Animal,
    secretFriend: Animal,
    fullSign: string)

  /** JavaScript's `%` on integers: the remainder of division truncated toward
      zero, which takes the sign of the dividend. */
  function JsRem(a: int, n: int): (r: int)
    requires n > 0
    ensures -n < r < n
    ensures a >= 0 ==> r >= 0
    ensures a <= 0 ==> r <= 0
  {
    if a >= 0 then a % n else -((-a) % n)
  }

  /** The source's repair of a negative table index: add the modulus.  For a
      remainder by n this gives a valid index into a table of n entries, in
      the same residue class. */
  function NormalizeIndex(i: int, n: int): (r: int)
    ensures -n < i < n ==> 0 <= r < n && (r - i) % n == 0
  {
    if i >= 0 then i else i + n
  }

  /** Math.floor(a / 2): the largest integer not above a / 2. */
  function FloorHalf(a: int): (h: int)
    ensures 2 * h <= a < 2 * h + 2
  {
    a / 2
  }

  lemma MulAtLeast(d: int, n: int)
    requires d >= 1 && n > 0
    ensures d * n >= n
  {
  }

  /** The Euclidean remainder is determined by any quotient/remainder pair. */
  lemma ModUnique(a: int, n: int, q: int, r: int)
    requires n > 0 && 0 <= r < n && a == q * n + r
    ensures a % n == r
  {
    var d := a / n - q;
    assert d * n == (a / n) * n - q * n;
    assert d * n == r - a % n;
    if d > 0 {
      MulAtLeast(d, n);
    } else if d < 0 {
      MulAtLeast(-d, n);
    }
  }

  /** Truncating remainder followed by the source's repair equals the
      Euclidean remainder, for negative dividends too. */
  lemma NormalizedRemainderIsEuclidean(a: int, n: int)
    requires n > 0
    ensures NormalizeIndex(JsRem(a, n), n) == a % n
  {
    if a < 0 {
      var q := (-a) / n;
      var m := (-a) % n;
      assert a == -(q * n) - m;
      if m == 0 {
        assert (-q) * n == -(q * n);
        ModUnique(a, n, -q, 0);
      } else {
        assert (-q - 1) * n == -(q * n) - n;
        ModUnique(a, n, -q - 1, n - m);
      }
    }
  }

  /** Two integers have the same Euclidean remainder exactly when their
      difference is a multiple of the modulus. */
  lemma SameRemainder(x: int, y: int, n: int)
    requires n > 0
    ensures x % n == y % n <==> (y - x) % n == 0
  {
    var qx, rx := x / n, x % n;
    var qy, ry := y / n, y % n;
    assert x == qx * n + rx && y == qy * n + ry;
    if rx == ry {
      ModUnique(y - x, n, qy - qx, 0);
    } else if (y - x) % n == 0 {
      var k := (y - x) / n;
      assert y - x == k * n;
      ModUnique(y, n, qx + k, rx);
    }
  }

  /** getZodiacAnimal: ZODIAC_ANIMALS at (year - 1900) % 12, repaired when
      negative.  The animal of a year sits at the Euclidean remainder of
      year - 1900 by 12 in the cycle, also for years before 1900. */
  function ZodiacAnimal(year: int): (a: Animal)
    ensures AnimalIndex(a) == (year - 1900) % 12
  {
    NormalizedRemainderIsEuclidean(year - 1900, 12);
    AnimalAtIndex((year - 1900) % 12);
    ZODIAC_ANIMALS[NormalizeIndex(JsRem(year - 1900, 12), 12)]
  }

  /** getElement: ELEMENTS at Math.floor((year - 1900) / 2) % 5, repaired
      when negative.  The element of a year sits at the Euclidean remainder of
      floor((year - 1900) / 2) by 5 in the cycle. */
  function ZodiacElement(year: int): (e: Element)
    ensures ElementIndex(e) == ((year - 1900) / 2) % 5
  {
    NormalizedRemainderIsEuclidean(FloorHalf(year - 1900), 5);
    ElementAtIndex(((year - 1900) / 2) % 5);
    ELEMENTS[NormalizeIndex(JsRem(FloorHalf(year - 1900), 5), 5)]
  }

  /** getPolarity: Yang when the JavaScript remainder by 2 is zero. */
  function ZodiacPolarity(year: int): (p: Polarity)
    ensures p == Yang <==> year % 2 == 0
  {
    NormalizedRemainderIsEuclidean(year, 2);
    if JsRem(year, 2) == 0 then Yang else Yin
  }

  /** getZodiacProfile: everything in the profile is determined by the year. */
  function ZodiacProfile(year: int): (p: Profile)
    ensures p.year == year
    ensures p.animal == ZodiacAnimal(year) && p.element == ZodiacElement(year)
    ensures p.polarity == Yang <==> year % 2 == 0
    ensures p.allies == Allies(p.animal) && p.clash == Clash(p.animal)
    ensures p.secretFriend == SecretFriend(p.animal)
    ensures p.fullSign == ElementName(p.element) + " " + AnimalName(p.animal)
  {
    var animal := ZodiacAnimal(year);
    var element := ZodiacElement(year);
    Profile(year, animal, element, ZodiacPolarity(year),
            Allies(animal), Clash(animal), SecretFriend(animal),
            ElementName(element) + " " + AnimalName(animal))
  }

  // ---------------------------------------------------------------------
  // Properties of the year derivation
  // ---------------------------------------------------------------------

  /** 1900 is a Yang Wood Rat year. */
  lemma Year1900()
    ensures ZodiacAnimal(1900) == Rat && ZodiacElement(1900) == Wood
    ensures ZodiacPolarity(1900) == Yang
  {
  }

  /** The years of the worked cases: 1990 Horse, 1991 Goat, 1984 Rat,
      1988 Dragon, 2000 Dragon. */
  lemma WorkedYears()
    ensures ZodiacAnimal(1990) == Horse && ZodiacAnimal(1991) == Goat
    ensures ZodiacAnimal(1984) == Rat && ZodiacAnimal(1988) == Dragon
    ensures ZodiacAnimal(2000) == Dragon
  {
  }

  /** Two years share an animal exactly when they are a multiple of twelve
      apart; in particular the animal has period 12. */
  lemma AnimalCycle(x: int, y: int)
    ensures ZodiacAnimal(x) == ZodiacAnimal(y) <==> (y - x) % 12 == 0
  {
    SameRemainder(x - 1900, y - 1900, 12);
    if (x - 1900) % 12 == (y - 1900) % 12 {
      AnimalAtIndex((x - 1900) % 12);
    }
  }

  lemma AnimalPeriod(y: int)
    ensures ZodiacAnimal(y + 12) == ZodiacAnimal(y)
  {
    AnimalCycle(y, y + 12);
  }

  /** The element has period 10. */
  lemma ElementPeriod(y: int)
    ensures ZodiacElement(y + 10) == ZodiacElement(y)
  {
    var h := (y - 1900) / 2;
    assert (y + 10 - 1900) / 2 == h + 5;
    SameRemainder(h, h + 5, 5);
    ElementAtIndex(h % 5);
  }

  /** The years 1900 + 2k and 1900 + 2k + 1 share an element. */
  lemma ElementPairs(k: int)
    ensures ZodiacElement(1900 + 2 * k) == ZodiacElement(1900 + 2 * k + 1)
  {
    assert (2 * k) / 2 == k && (2 * k + 1) / 2 == k;
    ElementAtIndex(k % 5);
  }

  /** Polarity alternates strictly from one year to the next. */
  lemma PolarityAlternates(y: int)
    ensures ZodiacPolarity(y + 1) != ZodiacPolarity(y)
  {
  }
}
