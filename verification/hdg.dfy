/**
 `Hdg` (src/heading/hdg.rs), heading, deviation and variation: the heading
 as it parses, deviation and variation each with a hemisphere letter.
 */
module Hdg {
  import opened Sentence
  import opened Units
  import opened Dispatch

  /** `magnetic_heading`: field 0 as it parses; never panics. */
  function MagneticHeading<F>(b: Base, num: Numeric<F>): (r: Outcome<Result<F>>)
    ensures r.Returned?
    ensures r.value.Ok? <==> 0 < |b.parameters| && num.parse(b.parameters[0]).Some?
    ensures r.value.Ok? ==> r.value.value == num.parse(b.parameters[0]).value
    ensures r.value.Err? ==> r.value.error == NmeaError(if 0 < |b.parameters| then CouldNotParse(b.parameters[0])
        else INSUFFICIENT_NUMBER_OF_PARAMETERS)
  {
    Value(b, 0, num)
  }

  /** `magnetic_deviation`: field 1, negated unless field 2 is exactly `E`. */
  function MagneticDeviation<F>(b: Base, num: Numeric<F>): (r: Outcome<Result<F>>)
    ensures r.Panicked? <==> |b.parameters| <= 2
    ensures 2 < |b.parameters| && b.parameters[2] == "E" ==> r == Value(b, 1, num)
    ensures 2 < |b.parameters| && b.parameters[2] != "E" ==> r == Negated(b, 1, num)
  {
    EastPositive(b, 1, 2, num)
  }

  /** `magnetic_variation`: field 3, negated unless field 4 is exactly `E`. */
  function MagneticVariation<F>(b: Base, num: Numeric<F>): (r: Outcome<Result<F>>)
    ensures r.Panicked? <==> |b.parameters| <= 4
    ensures 4 < |b.parameters| && b.parameters[4] == "E" ==> r == Value(b, 3, num)
    ensures 4 < |b.parameters| && b.parameters[4] != "E" ==> r == Negated(b, 3, num)
  {
    EastPositive(b, 3, 4, num)
  }

  /** Writing `W` for `E` negates a deviation or variation that parses. */
  lemma HemisphereNegates<F>(b: Base, num: Numeric<F>)
    requires |b.parameters| > 4 && b.parameters[2] == "E" && b.parameters[4] == "E"
    requires Parameter(b, 1, num.parse).Ok? && Parameter(b, 3, num.parse).Ok?
    ensures MagneticDeviation(b.(parameters := b.parameters[2 := "W"]), num)
         == Returned(Ok(num.neg(MagneticDeviation(b, num).value.value)))
    ensures MagneticVariation(b.(parameters := b.parameters[4 := "W"]), num)
         == Returned(Ok(num.neg(MagneticVariation(b, num).value.value)))
  {
    HemisphereFlip(b, 1, 2, num);
    HemisphereFlip(b, 3, 4, num);
  }
}
