/**
 `Dbs` (src/miscellaneous/dbs.rs), depth below surface: a depth given in up
 to three units, and two plain metre readings.
 */
module Dbs {
  import opened Sentence
  import opened Units
  import opened Dispatch

  /** The rules of `depth`: `M` (metres) at slot 1, 3, 5, then `f` (feet,
      handed on as miles) at slot 1, 3, 5, each reading the field before. */
  const DEPTH: seq<Rule<Read>> := [
    Rule(1, "M", Read(0, Meters)), Rule(3, "M", Read(2, Meters)), Rule(5, "M", Read(4, Meters)),
    Rule(1, "f", FeetAsMiles(0)), Rule(3, "f", FeetAsMiles(2)), Rule(5, "f", FeetAsMiles(4))]

  function Depth<F>(b: Base, num: Numeric<F>): (r: Outcome<Result<Quantity<F>>>)
    ensures r == MeasureBy(b, DEPTH, "Invalid data.", num)
  {
    MeasureUnroll(b, DEPTH, "Invalid data.", num);
    MeasureUnroll(b, DEPTH[1..], "Invalid data.", num);
    MeasureUnroll(b, DEPTH[2..], "Invalid data.", num);
    MeasureUnroll(b, DEPTH[3..], "Invalid data.", num);
    MeasureUnroll(b, DEPTH[4..], "Invalid data.", num);
    MeasureUnroll(b, DEPTH[5..], "Invalid data.", num);
    var ps := b.parameters;
    When(ps, 1, "M", Measure(b, Read(0, Meters), num),
    When(ps, 3, "M", Measure(b, Read(2, Meters), num),
    When(ps, 5, "M", Measure(b, Read(4, Meters), num),
    When(ps, 1, "f", Measure(b, FeetAsMiles(0), num),
    When(ps, 3, "f", Measure(b, FeetAsMiles(2), num),
    When(ps, 5, "f", Measure(b, FeetAsMiles(4), num),
    Fail("Invalid data.")))))))
  }

  /** `offset`: metres of field 1; never panics. */
  function Offset<F>(b: Base, num: Numeric<F>): (r: Outcome<Result<Quantity<F>>>)
    ensures r.Returned?
    ensures r.value.Ok? <==> 1 < |b.parameters| && num.parse(b.parameters[1]).Some?
    ensures r.value.Ok? ==> r.value.value == Quantity(Meters, num.parse(b.parameters[1]).value)
    ensures r.value.Err? ==> r.value.error == NmeaError(if 1 < |b.parameters| then CouldNotParse(b.parameters[1])
        else INSUFFICIENT_NUMBER_OF_PARAMETERS)
  {
    Measure(b, Read(1, Meters), num)
  }

  /** `maximum_range`: metres of field 2; never panics. */
  function MaximumRange<F>(b: Base, num: Numeric<F>): (r: Outcome<Result<Quantity<F>>>)
    ensures r.Returned?
    ensures r.value.Ok? <==> 2 < |b.parameters| && num.parse(b.parameters[2]).Some?
    ensures r.value.Ok? ==> r.value.value == Quantity(Meters, num.parse(b.parameters[2]).value)
    ensures r.value.Err? ==> r.value.error == NmeaError(if 2 < |b.parameters| then CouldNotParse(b.parameters[2])
        else INSUFFICIENT_NUMBER_OF_PARAMETERS)
  {
    Measure(b, Read(2, Meters), num)
  }

  /** Metres win: an `M` in any of the three slots is taken, the first one
      found, even when an earlier slot holds `f`. */
  lemma DepthPrefersMeters<F>(b: Base, num: Numeric<F>)
    requires |b.parameters| > 5 && "M" in {b.parameters[1], b.parameters[3], b.parameters[5]}
    ensures Depth(b, num)
         == Measure(b, Read(if b.parameters[1] == "M" then 0 else if b.parameters[3] == "M" then 2 else 4, Meters), num)
  {
    if b.parameters[1] == "M" {
      MeasureFirstHit(b, DEPTH, "Invalid data.", num, 0);
    } else if b.parameters[3] == "M" {
      MeasureFirstHit(b, DEPTH, "Invalid data.", num, 1);
    } else {
      MeasureFirstHit(b, DEPTH, "Invalid data.", num, 2);
    }
  }

  /** Without an `M`, only a lower-case `f` is read, as feet turned into
      miles; "Invalid data." exactly when no slot holds `M` or `f`, so `F`
      is never accepted. */
  lemma DepthFeet<F>(b: Base, num: Numeric<F>)
    requires |b.parameters| > 5 && "M" !in {b.parameters[1], b.parameters[3], b.parameters[5]}
    ensures b.parameters[1] == "f" ==> Depth(b, num) == Measure(b, FeetAsMiles(0), num)
    ensures b.parameters[1] != "f" && b.parameters[3] == "f" ==> Depth(b, num) == Measure(b, FeetAsMiles(2), num)
    ensures b.parameters[1] != "f" && b.parameters[3] != "f" && b.parameters[5] == "f" ==> Depth(b, num) == Measure(b, FeetAsMiles(4), num)
    ensures Depth(b, num) == Fail("Invalid data.") <==> "f" !in {b.parameters[1], b.parameters[3], b.parameters[5]}
  {
    FallbacksAreNotParseFailures();
    FallbackIffAllMiss(b, DEPTH, "Invalid data.", num);
  }

  /** A successful feet reading is the value divided into miles. */
  lemma FeetAreMiles<F>(b: Base, num: Numeric<F>)
    requires |b.parameters| > 5 && "M" !in {b.parameters[1], b.parameters[3], b.parameters[5]}
    requires b.parameters[1] == "f" && num.parse(b.parameters[0]).Some?
    ensures Depth(b, num) == Returned(Ok(Quantity(Miles, num.feetToMiles(num.parse(b.parameters[0]).value))))
  {
    MeasureFirstHit(b, DEPTH, "Invalid data.", num, 3);
  }
}
