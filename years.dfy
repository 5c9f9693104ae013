/** The year search: every year of a range whose animal carries a given name.
    The scan and its properties are stated for any year test `matches`; the
    test getYearsForAnimal uses, IsYearOf, recurs every twelve years and never
    sooner (YearsOfAnAnimal), which is what makes the found years twelve
    apart. */
module ZodiacYears {
  import opened ZodiacTables
  import opened ProfileResolver

  /** The animal of the year is called `animal`: the test holds only for the
      name of an animal, and for the name of animal a exactly in a's years. */
  predicate IsYearOf(animal: string, year: int): (r: bool)
    ensures r ==> exists a: Animal :: AnimalName(a) == animal
    ensures forall a: Animal :: AnimalName(a) == animal ==> (r <==> ZodiacAnimal(year) == a)
  {
    NameIdentifiesAnimal(ZodiacAnimal(year));
    AnimalName(ZodiacAnimal(year)) == animal
  }

  /** A year test that holds again twelve years after every year it holds
      for, and never twice within twelve years. */
  ghost predicate EveryTwelveYears(matches: int -> bool) {
    && (forall x :: matches(x) ==> matches(x + 12))
    && (forall x, y :: matches(x) && matches(y) && x < y ==> x + 12 <= y)
  }

  /** The years of one animal name recur exactly every twelve years. */
  lemma YearsOfAnAnimal(animal: string)
    ensures EveryTwelveYears(y => IsYearOf(animal, y))
  {
    forall x | IsYearOf(animal, x)
      ensures IsYearOf(animal, x + 12)
    {
      AnimalPeriod(x);
    }
    forall x, y | IsYearOf(animal, x) && IsYearOf(animal, y) && x < y
      ensures x + 12 <= y
    {
      AnimalNameInjective(ZodiacAnimal(x), ZodiacAnimal(y));
      AnimalCycle(x, y);
    }
  }

  /** Every run of twelve consecutive years holds a year of each animal ... */
  lemma YearOfEachAnimalPerCycle(a: Animal, start: int)
    ensures exists y :: start <= y < start + 12 && ZodiacAnimal(y) == a
  {
    var q := (AnimalIndex(a) - (start - 1900)) / 12;
    var r := (AnimalIndex(a) - (start - 1900)) % 12;
    var y := start + r;
    ModUnique(y - 1900, 12, -q, AnimalIndex(a));
    assert AnimalIndex(ZodiacAnimal(y)) == AnimalIndex(a);
  }

  /** ... and only one. */
  lemma OneYearOfEachAnimalPerCycle(a: Animal, start: int, y1: int, y2: int)
    requires start <= y1 < start + 12 && start <= y2 < start + 12
    requires ZodiacAnimal(y1) == a && ZodiacAnimal(y2) == a
    ensures y1 == y2
  {
    AnimalCycle(y1, y2);
  }

  /** Strictly ascending. */
  predicate Ascending(s: seq<int>) {
    forall i, j :: 0 <= i < j < |s| ==> s[i] < s[j]
  }

  /** Each entry twelve above the one before. */
  predicate StepsOfTwelve(s: seq<int>) {
    forall i :: 0 < i < |s| ==> s[i] == s[i - 1] + 12
  }

  /** The years from lo to hi inclusive that pass the test, in the order a
      forward scan meets them. */
  function YearsBetween(matches: int -> bool, lo: int, hi: int): (s: seq<int>)
    ensures |s| <= if lo <= hi then hi - lo + 1 else 0
    decreases hi - lo
  {
    if hi < lo then []
    else YearsBetween(matches, lo, hi - 1) + (if matches(hi) then [hi] else [])
  }

  /** A year is listed exactly when it lies in the range and passes. */
  lemma {:induction false} YearsBetweenMembers(matches: int -> bool, lo: int, hi: int, y: int)
    ensures y in YearsBetween(matches, lo, hi) <==> lo <= y <= hi && matches(y)
    decreases hi - lo
  {
    if lo <= hi {
      YearsBetweenMembers(matches, lo, hi - 1, y);
    }
  }

  /** The listed years are strictly ascending. */
  lemma {:induction false} YearsBetweenAscending(matches: int -> bool, lo: int, hi: int)
    ensures Ascending(YearsBetween(matches, lo, hi))
    decreases hi - lo
  {
    if lo <= hi {
      var p := YearsBetween(matches, lo, hi - 1);
      YearsBetweenAscending(matches, lo, hi - 1);
      if matches(hi) {
        var s := p + [hi];
        assert YearsBetween(matches, lo, hi) == s;
        forall i, j | 0 <= i < j < |s|
          ensures s[i] < s[j]
        {
          if j == |p| {
            YearsBetweenMembers(matches, lo, hi - 1, p[i]);
          }
        }
      } else {
        assert YearsBetween(matches, lo, hi) == p;
      }
    }
  }

  /** No year after the last listed one, up to hi, passes. */
  lemma NoneAfterLast(matches: int -> bool, lo: int, hi: int, z: int)
    requires YearsBetween(matches, lo, hi) != []
    requires YearsBetween(matches, lo, hi)[|YearsBetween(matches, lo, hi)| - 1] < z <= hi
    ensures !matches(z)
  {
    var s := YearsBetween(matches, lo, hi);
    YearsBetweenMembers(matches, lo, hi, z);
    YearsBetweenMembers(matches, lo, hi, s[|s| - 1]);
    YearsBetweenAscending(matches, lo, hi);
  }

  /** For a test that recurs every twelve years, consecutive listed years are
      twelve years apart. */
  lemma {:induction false} YearsBetweenSteps(matches: int -> bool, lo: int, hi: int)
    requires EveryTwelveYears(matches)
    ensures StepsOfTwelve(YearsBetween(matches, lo, hi))
    decreases hi - lo
  {
    if lo <= hi {
      var p := YearsBetween(matches, lo, hi - 1);
      YearsBetweenSteps(matches, lo, hi - 1);
      if matches(hi) && p != [] {
        var last := p[|p| - 1];
        YearsBetweenMembers(matches, lo, hi - 1, last);
        assert last + 12 <= hi;
        if last + 12 < hi {
          NoneAfterLast(matches, lo, hi - 1, last + 12);
          assert false;
        }
        assert YearsBetween(matches, lo, hi) == p + [hi];
      }
    }
  }

  /** A name that is not one of the twelve animals matches no year. */
  lemma UnknownNameHasNoYears(animal: string, lo: int, hi: int)
    requires forall a: Animal :: AnimalName(a) != animal
    ensures YearsBetween(y => IsYearOf(animal, y), lo, hi) == []
  {
    var s := YearsBetween(y => IsYearOf(animal, y), lo, hi);
    if s != [] {
      YearsBetweenMembers(y => IsYearOf(animal, y), lo, hi, s[0]);
    }
  }

  /** getYearsForAnimal: scan the years from startYear to endYear inclusive
      and append each one whose animal is called `animal`. */
  method GetYearsForAnimal(animal: string, startYear: int, endYear: int) returns (years: seq<int>)
    ensures years == YearsBetween(y => IsYearOf(animal, y), startYear, endYear)
  {
    var matches := y => IsYearOf(animal, y);
    years := [];
    var year := startYear;
    while year <= endYear
      invariant startYear <= year
      invariant year <= endYear + 1 || year == startYear
      invariant years == YearsBetween(matches, startYear, year - 1)
      decreases endYear - year
    {
      if matches(year) {
        years := years + [year];
      }
      year := year + 1;
    }
  }

  /** What getYearsForAnimal promises: exactly the matching years of the
      range, ascending, twelve years apart. */
  lemma YearsForAnimal(animal: string, startYear: int, endYear: int)
    ensures var s := YearsBetween(y => IsYearOf(animal, y), startYear, endYear);
            && (forall y :: y in s <==> startYear <= y <= endYear && IsYearOf(animal, y))
            && Ascending(s) && StepsOfTwelve(s)
  {
    var matches := y => IsYearOf(animal, y);
    forall y
      ensures y in YearsBetween(matches, startYear, endYear)
              <==> startYear <= y <= endYear && IsYearOf(animal, y)
    {
      YearsBetweenMembers(matches, startYear, endYear, y);
    }
    YearsBetweenAscending(matches, startYear, endYear);
    YearsOfAnAnimal(animal);
    YearsBetweenSteps(matches, startYear, endYear);
  }
}
