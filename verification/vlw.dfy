/**
 `Vlw` (src/miscellaneous/vlw.rs), distance travelled through the water and
 over ground: four distances, each a value followed by its unit letter.
 */
module Vlw {
  import opened Sentence
  import opened Units
  import opened Dispatch

  /** A distance whose unit letter is at `letter` and value at `value`:
      `M` metres, `K` kilometres, `N` nautical miles. */
  function DistanceRules(value: nat, letter: nat): seq<Rule<Read>> {
    [Rule(letter, "M", Read(value, Meters)),
     Rule(letter, "K", Read(value, Kilometers)),
     Rule(letter, "N", Read(value, NauticalMiles))]
  }

  /** The `match parameters[letter].as_str()` every accessor performs. */
  function DistanceAt<F>(b: Base, value: nat, letter: nat, num: Numeric<F>): (r: Outcome<Result<Quantity<F>>>)
    ensures r == MeasureBy(b, DistanceRules(value, letter), "Invalid data", num)
    ensures r.Panicked? <==> letter >= |b.parameters|
  {
    var m, k, n := Rule(letter, "M", Read(value, Meters)), Rule(letter, "K", Read(value, Kilometers)),
                   Rule(letter, "N", Read(value, NauticalMiles));
    MeasureCons(b, m, [k, n], "Invalid data", num);
    MeasureCons(b, k, [n], "Invalid data", num);
    MeasureCons(b, n, [], "Invalid data", num);
    MeasureEmpty(b, "Invalid data", num);
    assert [m] + [k, n] == DistanceRules(value, letter) && [k] + [n] == [k, n] && [n] + [] == [n];
    var ps := b.parameters;
    When(ps, letter, "M", Measure(b, Read(value, Meters), num),
    When(ps, letter, "K", Measure(b, Read(value, Kilometers), num),
    When(ps, letter, "N", Measure(b, Read(value, NauticalMiles), num),
    Fail("Invalid data"))))
  }

  function CumulativeDtw<F>(b: Base, num: Numeric<F>): (r: Outcome<Result<Quantity<F>>>)
    ensures r == MeasureBy(b, DistanceRules(0, 1), "Invalid data", num)
  {
    DistanceAt(b, 0, 1, num)
  }

  function DtwSinceReset<F>(b: Base, num: Numeric<F>): (r: Outcome<Result<Quantity<F>>>)
    ensures r == MeasureBy(b, DistanceRules(2, 3), "Invalid data", num)
  {
    DistanceAt(b, 2, 3, num)
  }

  function DogCumulative<F>(b: Base, num: Numeric<F>): (r: Outcome<Result<Quantity<F>>>)
    ensures r == MeasureBy(b, DistanceRules(4, 5), "Invalid data", num)
  {
    DistanceAt(b, 4, 5, num)
  }

  function DogSinceReset<F>(b: Base, num: Numeric<F>): (r: Outcome<Result<Quantity<F>>>)
    ensures r == MeasureBy(b, DistanceRules(6, 7), "Invalid data", num)
  {
    DistanceAt(b, 6, 7, num)
  }

  /** The unit letter decides the unit, the value's parse error passes
      through unchanged, and any other letter (empty or lower case
      included) is "Invalid data". */
  lemma DistanceUnitLetter<F>(b: Base, value: nat, letter: nat, num: Numeric<F>)
    requires letter < |b.parameters|
    ensures b.parameters[letter] == "M" ==> DistanceAt(b, value, letter, num) == Measure(b, Read(value, Meters), num)
    ensures b.parameters[letter] == "K" ==> DistanceAt(b, value, letter, num) == Measure(b, Read(value, Kilometers), num)
    ensures b.parameters[letter] == "N" ==> DistanceAt(b, value, letter, num) == Measure(b, Read(value, NauticalMiles), num)
    ensures b.parameters[letter] !in {"M", "K", "N"} <==> DistanceAt(b, value, letter, num) == Fail("Invalid data")
  {
    FallbacksAreNotParseFailures();
    FallbackIffAllMiss(b, DistanceRules(value, letter), "Invalid data", num);
  }
}
