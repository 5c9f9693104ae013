# Harmony Match zodiac engine, modelled in Dafny

This project models the Chinese-zodiac compatibility engine of Harmony Match
(`src/lib/zodiac-calculator.js`).

A birth year determines three things:

- an animal, on a 12-year cycle that starts with the Rat in 1900;
- an element, on a 10-year cycle where each element governs two consecutive years;
- a polarity: Yang in even years, Yin in odd ones.

Two years are compared by three scorers:

- The animal scorer overwrites a running score in turn, for the same sign,
  a shared trine, secret friends, allies and a clash.
- The element scorer takes the first matching rule of the generating and
  overcoming cycles.
- The polarity scorer has two cases.

The aggregator weights the three scores 50/35/15 and rounds half up. It then
puts the result into one of six levels, sets the relationship-dynamics flags
and builds a pairing key that does not depend on which partner comes first.

Two helpers are modelled as well:

- a search that lists the years of an animal within a range;
- a birth-year validator.

Modules, one file each:

- `ZodiacTables` (`tables.dfy`): the constant tables and the facts about them.
  - The four trines partition the animals.
  - The ally lists are exactly the other two trine-mates.
  - Clash and secret friendship are fixed-point-free involutions.
  - Clash partners sit six places apart on the cycle, and secret friends are mirror images (the contracts of `Clash` and `SecretFriend`).
  - The generating cycle steps +1 mod 5 and the overcoming cycle +2 mod 5.
- `ProfileResolver` (`profile.dfy`): year → animal, element, polarity and profile.
  - JavaScript's truncating `%` and its "add the modulus if negative" repair are written out (`JsRem`, `NormalizeIndex`).
  - The model proves that the two steps together equal the Euclidean remainder, so years before 1900 resolve correctly.
- `ZodiacScoring` (`scoring.dfy`): the three scorers.
  - The animal scorer is a method with the trine loop and the overwrite chain in the source's order.
  - It is proved equal to `AnimalScore`, a reference with one exclusive case per relation.
  - The contract of `CalculateAnimalCompatibility` states two outcomes the source's comments do not suggest:
    - the same sign scores 90, not 70, because every sign is in its own trine;
    - distinct trine-mates score 88, not 90, because the ally check runs after the trine check.
- `ZodiacCompatibility` (`compatibility.dfy`): the aggregator, with the level bands, the dynamics flags and the pairing key.
- `ZodiacYears` (`years.dfy`): the year search.
  - The scan loop is proved equal to `YearsBetween`, a recursive specification over any year test.
  - Its properties are proved about that function.
- `ZodiacValidation` (`validation.dfy`): the birth-year check, with the current year as a parameter.

## Model

| member | source | states |
|---|---|---|
| ZodiacTables.AnimalName | src/lib/zodiac-calculator.js:7-10 | each animal's name is a capitalised word of ASCII letters |
| ZodiacTables.ElementName | src/lib/zodiac-calculator.js:27 | each element's name is a capitalised word of ASCII letters |
| ZodiacTables.AnimalIndex | src/lib/zodiac-calculator.js:7-10 | the position of an animal in the 12-animal list, which holds that animal |
| ZodiacTables.ElementIndex | src/lib/zodiac-calculator.js:27 | the position of an element in the 5-element list, which holds that element |
| ZodiacTables.AnimalAtIndex | src/lib/zodiac-calculator.js:7-10 | the list has no repeats: looking up the animal at position i gives back i |
| ZodiacTables.ElementAtIndex | src/lib/zodiac-calculator.js:27 | the element list has no repeats |
| ZodiacTables.AnimalNameInjective | src/lib/zodiac-calculator.js:7-10 | distinct animals have distinct names, so comparing names is comparing animals |
| ZodiacTables.TrineOf | src/lib/zodiac-calculator.js:48-53 | every animal belongs to one of the four trines |
| ZodiacTables.SameTrine | src/lib/zodiac-calculator.js:193 | some trine includes both animals exactly when the two have the same trine |
| ZodiacTables.TrineMembership | src/lib/zodiac-calculator.js:48-53 | an animal is in trine k exactly when k is its trine: the trines partition the animals |
| ZodiacTables.TrineSizes | src/lib/zodiac-calculator.js:48-53 | each trine has three distinct members |
| ZodiacTables.TrineByPosition | src/lib/zodiac-calculator.js:48-53 | trine-mates are the animals with equal cycle position mod 4 |
| ZodiacTables.Allies | src/lib/zodiac-calculator.js:54-67 | each animal lists two different allies, neither of them itself, both in its trine |
| ZodiacTables.Clash | src/lib/zodiac-calculator.js:68-81 | the clash partner is six positions further round the cycle |
| ZodiacTables.SecretFriend | src/lib/zodiac-calculator.js:82-95 | secret friends' positions add up to 1 mod 12: mirror images around the Rat/Ox axis |
| ZodiacTables.RelationsSymmetric | src/lib/zodiac-calculator.js:68-95 | clash and secret friendship are involutions |
| ZodiacTables.AlliesFromTrine | src/lib/zodiac-calculator.js:54-67 | each ally list has two entries, and b is listed exactly when b is another member of a's trine |
| ZodiacTables.AlliesAreTrineMates | src/lib/zodiac-calculator.js:54-67 | allies are exactly the distinct trine-mates, and the ally relation is symmetric |
| ZodiacTables.RelationsDisjoint | src/lib/zodiac-calculator.js:47-95 | no animal is its own clash or secret friend; neither is a trine-mate; the two never coincide |
| ZodiacTables.GeneratingCycle | src/lib/zodiac-calculator.js:101-107 | each element generates the next one on the element cycle (+1 mod 5) |
| ZodiacTables.OvercomingCycle | src/lib/zodiac-calculator.js:109-115 | each element overcomes the one two places further on (+2 mod 5) |
| ProfileResolver.JsRem | src/lib/zodiac-calculator.js:126 | JavaScript `%`: magnitude below the modulus, sign of the dividend |
| ProfileResolver.FloorHalf | src/lib/zodiac-calculator.js:137 | `Math.floor(x / 2)`: the largest h with 2h <= x |
| ProfileResolver.NormalizedRemainderIsEuclidean | src/lib/zodiac-calculator.js:126-127 | the truncating remainder plus the "add n if negative" repair is the Euclidean remainder |
| ProfileResolver.NormalizeIndex | src/lib/zodiac-calculator.js:127 | adding the modulus to a negative remainder gives a valid table index in the same residue class |
| ProfileResolver.ZodiacAnimal | src/lib/zodiac-calculator.js:123-128 | the animal of a year is at position (year - 1900) mod 12, in [0, 12) also before 1900 |
| ProfileResolver.ZodiacElement | src/lib/zodiac-calculator.js:135-139 | the element of a year is at position floor((year - 1900) / 2) mod 5, in [0, 5) |
| ProfileResolver.ZodiacPolarity | src/lib/zodiac-calculator.js:146-148 | Yang exactly for even years, negative ones included |
| ProfileResolver.ZodiacProfile | src/lib/zodiac-calculator.js:155-174 | the profile carries the year, its animal, element and polarity, the animal's allies, clash and secret friend, and "Element Animal" as full sign |
| ProfileResolver.Year1900 | src/lib/zodiac-calculator.js:123-148 | 1900 is a Yang Wood Rat year |
| ProfileResolver.WorkedYears | src/lib/zodiac-calculator.js:123-128 | 1990 Horse, 1991 Goat, 1984 Rat, 1988 and 2000 Dragon |
| ProfileResolver.AnimalCycle | src/lib/zodiac-calculator.js:123-128 | two years share an animal exactly when they differ by a multiple of 12 |
| ProfileResolver.AnimalPeriod | src/lib/zodiac-calculator.js:123-128 | y and y + 12 have the same animal |
| ProfileResolver.ElementPeriod | src/lib/zodiac-calculator.js:135-139 | y and y + 10 have the same element |
| ProfileResolver.ElementPairs | src/lib/zodiac-calculator.js:135-139 | 1900 + 2k and 1900 + 2k + 1 share an element |
| ProfileResolver.PolarityAlternates | src/lib/zodiac-calculator.js:146-148 | consecutive years have opposite polarities |
| ZodiacScoring.AnimalScore | src/lib/zodiac-calculator.js:182-215 | the reference animal score is one of 35, 50, 85, 88, 90 |
| ZodiacScoring.AnimalScoreSymmetric | src/lib/zodiac-calculator.js:182-215 | the animal score does not depend on argument order |
| ZodiacScoring.WorkedAnimalScores | src/lib/zodiac-calculator.js:182-215 | Horse/Goat 85, Rat/Horse 35, Rat/Dragon 88, Dragon/Dragon 90 |
| ZodiacScoring.FindSharedTrine | src/lib/zodiac-calculator.js:191-197 | the trine loop with break finds a trine holding both animals exactly when they share one |
| ZodiacScoring.CalculateAnimalCompatibility | src/lib/zodiac-calculator.js:182-215 | the overwrite chain gives 90 for the same sign, 88 for distinct trine-mates, 85 for a secret friend, 35 for a clash, 50 otherwise |
| ZodiacScoring.RelationshipTag | src/lib/zodiac-calculator.js:224-269 | each relationship is reported by a non-empty lower-case tag |
| ZodiacScoring.RelationshipTagsDistinct | src/lib/zodiac-calculator.js:224-269 | the six relationships have six different tags |
| ZodiacScoring.RelationshipScore | src/lib/zodiac-calculator.js:224-269 | each relationship's score lies between 45 (overcome) and 90 (generated) |
| ZodiacScoring.RelationshipScoresDistinct | src/lib/zodiac-calculator.js:224-269 | the six relationships have six different scores, so the score tells which rule fired |
| ZodiacScoring.ElementRulesByOffset | src/lib/zodiac-calculator.js:99-116 | same, generating, overcoming, controlled and receiving hold exactly at cycle distance 0, 1, 2, 3 and 4 |
| ZodiacScoring.CalculateElementCompatibility | src/lib/zodiac-calculator.js:223-270 | each pair lands in exactly one of same/75, generating/90, receiving/85, overcoming/45, controlled/50, chosen by cycle distance; neutral is unreachable |
| ZodiacScoring.ElementCompatibilityConverse | src/lib/zodiac-calculator.js:223-270 | swapping the elements gives the converse relationship, so the score is not symmetric (90 against 85) |
| ZodiacScoring.CalculatePolarityCompatibility | src/lib/zodiac-calculator.js:278-291 | balanced with 85 exactly when the polarities differ, otherwise unbalanced with 70 |
| ZodiacCompatibility.WeightedRound | src/lib/zodiac-calculator.js:308-312 | the overall score is the integer nearest (50a + 35e + 15p) / 100, halves rounded up |
| ZodiacCompatibility.WeightedRoundInRange | src/lib/zodiac-calculator.js:308-312 | components in [0, 100] give an overall score in [0, 100] |
| ZodiacCompatibility.WeightedRoundBounds | src/lib/zodiac-calculator.js:308-312 | components within the scorers' ranges give an overall score in [44, 89] |
| ZodiacCompatibility.ReachableOverallRange | src/lib/zodiac-calculator.js:303-312 | any two animals, elements and polarities give an overall score in [44, 89] |
| ZodiacCompatibility.FloorsIncrease | src/lib/zodiac-calculator.js:316-334 | the level thresholds 40, 50, 65, 75, 85 are increasing |
| ZodiacCompatibility.LevelMonotone | src/lib/zodiac-calculator.js:316-334 | a higher score never gets a lower level |
| ZodiacCompatibility.LevelUnique | src/lib/zodiac-calculator.js:316-334 | every score lies in the band of exactly one level |
| ZodiacCompatibility.LevelLabel | src/lib/zodiac-calculator.js:316-334 | each level has a capitalised label |
| ZodiacCompatibility.LevelLabelsDistinct | src/lib/zodiac-calculator.js:316-334 | the six levels have six different labels |
| ZodiacCompatibility.LevelDescription | src/lib/zodiac-calculator.js:316-334 | every level has a description |
| ZodiacCompatibility.LevelDescriptionsDistinct | src/lib/zodiac-calculator.js:316-334 | the six levels have six different descriptions |
| ZodiacCompatibility.DetermineLevel | src/lib/zodiac-calculator.js:315-334 | the top-down threshold chain picks the level whose band holds the score, with that level's description |
| ZodiacCompatibility.LexTotal | src/lib/zodiac-calculator.js:363 | any two names are ordered one way or the other |
| ZodiacCompatibility.LexAntisymmetric | src/lib/zodiac-calculator.js:363 | names ordered both ways are equal |
| ZodiacCompatibility.PairingKey | src/lib/zodiac-calculator.js:363 | the key is the two names in ascending order joined by '-' |
| ZodiacCompatibility.PairingKeyOrderIndependent | src/lib/zodiac-calculator.js:363 | the key is the same whichever name comes first |
| ZodiacCompatibility.DynamicsExclusions | src/lib/zodiac-calculator.js:337-341 | the same animal is a trine match; a clash is neither a trine match nor a secret friend; a secret friend is not a trine match |
| ZodiacCompatibility.CalculateCompatibility | src/lib/zodiac-calculator.js:299-365 | the result holds both profiles, the three scores, their weighted rounding (within [44, 89]), the level whose band holds it, the dynamics flags with their exclusions and the pairing key |
| ZodiacCompatibility.SwappedYears | src/lib/zodiac-calculator.js:299-365 | swapping the years keeps the animal and polarity scores and the key, and turns the element relationship into its converse |
| ZodiacCompatibility.WorkedCases | src/lib/zodiac-calculator.js:299-365 | 1990/1991 are secret friends (85), 1984/1990 clash (35), 1984/1988 are trine-mates (88), 2000/2000 scores 90 with the same element (75) |
| ZodiacYears.IsYearOf | src/lib/zodiac-calculator.js:379 | the test holds only for an animal's name, and for the name of animal a exactly in the years of a |
| ZodiacYears.YearsOfAnAnimal | src/lib/zodiac-calculator.js:379 | the years of one animal name recur every twelve years and never sooner |
| ZodiacYears.YearOfEachAnimalPerCycle | src/lib/zodiac-calculator.js:123-128 | every run of twelve consecutive years holds a year of each animal |
| ZodiacYears.OneYearOfEachAnimalPerCycle | src/lib/zodiac-calculator.js:123-128 | and at most one |
| ZodiacYears.YearsBetween | src/lib/zodiac-calculator.js:378-382 | the years a forward scan of [lo, hi] keeps, at most one per year of the range |
| ZodiacYears.YearsBetweenMembers | src/lib/zodiac-calculator.js:378-382 | a year is listed exactly when it is in [startYear, endYear] and passes the test; an empty range lists nothing |
| ZodiacYears.YearsBetweenAscending | src/lib/zodiac-calculator.js:378-382 | the listed years are strictly ascending |
| ZodiacYears.YearsBetweenSteps | src/lib/zodiac-calculator.js:378-382 | for a test that recurs every twelve years, consecutive listed years are twelve apart |
| ZodiacYears.UnknownNameHasNoYears | src/lib/zodiac-calculator.js:374-385 | a name that is not an animal yields no years |
| ZodiacYears.GetYearsForAnimal | src/lib/zodiac-calculator.js:374-385 | the scan loop returns the matching years of the range in scan order |
| ZodiacYears.YearsForAnimal | src/lib/zodiac-calculator.js:374-385 | the result is exactly the matching years of the range, ascending, twelve apart |
| ZodiacValidation.ValidateBirthYear | src/lib/zodiac-calculator.js:408-426 | valid exactly for 1920 <= year <= current year; a missing, non-numeric or zero input is "not a valid year", then too early, then in the future, one error per call |
| ZodiacValidation.ErrorMessage | src/lib/zodiac-calculator.js:414-422 | every failed check reports a message |
| ZodiacValidation.ErrorMessagesDistinct | src/lib/zodiac-calculator.js:414-422 | the three failures report three different messages, so the message tells which check failed |
| ZodiacValidation.ValidationAsTimePasses | src/lib/zodiac-calculator.js:408-426 | an accepted year stays accepted later, and a future year is accepted once the clock reaches it |

## Left out

- Display metadata is not modelled: the Chinese characters, the emoji and the element colours of the profile.
- The description text of the element and polarity results is not modelled (the interpolated strings are display only). The relationship tag and the score are kept.
- The level is an enumeration. `LevelLabel` gives its display label, and the level descriptions are kept as constants.
- The element relationship is carried as the enumeration `ElementRelationship`. `RelationshipTag` gives the string the source reports, and `RelationshipTagsDistinct` shows the strings tell the relationships apart.
- The weighted overall score uses exact arithmetic instead of IEEE-754 doubles. A double-rounding difference at a .5 boundary is not captured.
- Years are unbounded integers. JavaScript numbers are IEEE-754 doubles, exact only within ±2^53. Beyond that the source's `year - 1900` and `year++` round, so the animal and element can differ from the model's, and the year scan can fail to terminate. `AnimalPeriod`, `ElementPeriod`, `YearsForAnimal` and the other lemmas stated for every integer describe the source only for years within ±2^53. The validator keeps real inputs to [1920, current year].
- `validateBirthYear` reads the wall clock. Here the current year is a parameter.
- JavaScript loose typing is not modelled. Inputs are integers, an `Animal` or `Element` enumeration, or an explicit `YearInput` (missing, not a number, or an integer).
  - Fractional years and numeric strings are not represented.
  - Names outside the tables are not represented, because the `Animal` and `Element` enumerations exclude them. In the source such names do not always throw:
    - `calculateAnimalCompatibility` throws a TypeError only for an unknown first animal. For an unknown second animal every comparison fails and it returns 50.
    - `calculateElementCompatibility` misses every cycle lookup when an unknown element is compared with a different one, and returns neutral with 65. The proof that neutral is unreachable holds over the five elements only.
    - `calculatePolarityCompatibility` accepts any two values.
- `getYearsForAnimal`'s default range (1940 to 2030) is not modelled; callers pass both bounds. Its unused `indexOf` lookup has no effect and is omitted.
- `getZodiacData` only returns the tables. It and the export block are not part of this model.
- `src/lib/bundle.js` (page wiring, storage, animation) and `api/health.js` (a timestamp endpoint) are not part of this model.
- `ZodiacCompatibility.PairingKey` orders names character by character. JavaScript's default sort compares UTF-16 code units, which agree with this for the ASCII animal names.
