/**
 `Rmc` (src/gps/rmc.rs), the recommended minimum navigation data: the
 status flag, speed and track, magnetic variation with its hemisphere
 letter, and the mode and status characters.
 */
module Rmc {
  import opened Text
  import opened Sentence
  import opened Units
  import opened Dispatch

  /** `is_valid`: whether the status field is exactly `A`; panics when there
      is no field 1. */
  function DataValid(b: Base): (r: Outcome<bool>)
    ensures r.Panicked? <==> |b.parameters| <= 1
    ensures r.Returned? ==> (r.value <==> b.parameters[1] == "A")
  {
    When(b.parameters, 1, "A", Returned(true), Returned(false))
  }

  /** `sog`: knots of field 6; never panics. */
  function Sog<F>(b: Base, num: Numeric<F>): (r: Outcome<Result<Quantity<F>>>)
    ensures r.Returned?
    ensures r.value.Ok? <==> 6 < |b.parameters| && num.parse(b.parameters[6]).Some?
    ensures r.value.Ok? ==> r.value.value == Quantity(Knots, num.parse(b.parameters[6]).value)
    ensures r.value.Err? ==> r.value.error == NmeaError(if 6 < |b.parameters| then CouldNotParse(b.parameters[6])
        else INSUFFICIENT_NUMBER_OF_PARAMETERS)
  {
    Measure(b, Read(6, Knots), num)
  }

  /** `track_made_good`: field 7 as it parses; never panics. */
  function TrackMadeGood<F>(b: Base, num: Numeric<F>): (r: Outcome<Result<F>>)
    ensures r.Returned?
    ensures r.value.Ok? <==> 7 < |b.parameters| && num.parse(b.parameters[7]).Some?
    ensures r.value.Ok? ==> r.value.value == num.parse(b.parameters[7]).value
    ensures r.value.Err? ==> r.value.error == NmeaError(if 7 < |b.parameters| then CouldNotParse(b.parameters[7])
        else INSUFFICIENT_NUMBER_OF_PARAMETERS)
  {
    Value(b, 7, num)
  }

  /** `magnetic_variation`: field 9, negated unless field 10 is exactly `E`. */
  function MagneticVariation<F>(b: Base, num: Numeric<F>): (r: Outcome<Result<F>>)
    ensures r.Panicked? <==> |b.parameters| <= 10
    ensures 10 < |b.parameters| && b.parameters[10] == "E" ==> r == Value(b, 9, num)
    ensures 10 < |b.parameters| && b.parameters[10] != "E" ==> r == Negated(b, 9, num)
    ensures r.Returned? && r.value.Ok? ==> Parameter(b, 9, num.parse).Ok?
    ensures r.Returned? && r.value.Ok?
        ==> r.value.value == if b.parameters[10] == "E" then Parameter(b, 9, num.parse).value
                             else num.neg(Parameter(b, 9, num.parse).value)
  {
    EastPositive(b, 9, 10, num)
  }

  /** `faa_mode`: the first character of field 11, `None` when it is empty;
      panics when there is no field 11. */
  function FaaMode(b: Base): (r: Outcome<Option<char>>)
    ensures r.Panicked? <==> |b.parameters| <= 11
    ensures r.Returned? ==> (r.value.Some? <==> |b.parameters[11]| > 0)
    ensures r.Returned? && r.value.Some? ==> r.value.value == b.parameters[11][0]
  {
    if |b.parameters| > 11 then Returned(FirstChar(b.parameters[11])) else Panicked
  }

  /** `nav_status`: the first character of field 12, `None` when it is
      empty; panics when there is no field 12. */
  function NavStatus(b: Base): (r: Outcome<Option<char>>)
    ensures r.Panicked? <==> |b.parameters| <= 12
    ensures r.Returned? ==> (r.value.Some? <==> |b.parameters[12]| > 0)
    ensures r.Returned? && r.value.Some? ==> r.value.value == b.parameters[12][0]
  {
    if |b.parameters| > 12 then Returned(FirstChar(b.parameters[12])) else Panicked
  }

  /** Only the exact letter `E` keeps the sign: `W`, the empty field and
      lower-case `e` all negate. */
  lemma VariationSignRule<F>(b: Base, num: Numeric<F>)
    requires |b.parameters| > 10 && b.parameters[10] in {"W", "", "e"}
    ensures MagneticVariation(b, num) == Negated(b, 9, num)
  {
  }

  /** Writing `W` instead of `E` negates a variation that parses and
      changes nothing else. */
  lemma VariationHemispheres<F>(b: Base, num: Numeric<F>)
    requires |b.parameters| > 10 && b.parameters[10] == "E"
    requires MagneticVariation(b, num).value.Ok?
    ensures MagneticVariation(b.(parameters := b.parameters[10 := "W"]), num)
         == Returned(Ok(num.neg(MagneticVariation(b, num).value.value)))
  {
    HemisphereFlip(b, 9, 10, num);
  }
}
