/**
 `Mwv` (src/wind/mwv.rs), wind speed and angle: every accessor first checks
 the status field (slot 4) for `A`, then a reference or unit letter.
 */
module Mwv {
  import opened Sentence
  import opened Units
  import opened Dispatch

  /** The angle when the reference at slot 1 is `reference`, behind the status gate. */
  function AngleFor<F>(b: Base, reference: string, num: Numeric<F>): (r: Outcome<Result<F>>)
    ensures r.Panicked? <==> |b.parameters| <= 4
    ensures 4 < |b.parameters| && b.parameters[4] != "A" ==> r == Fail("Data not valid.")
    ensures 4 < |b.parameters| && b.parameters[4] == "A" && b.parameters[1] != reference ==> r == Fail("Not found.")
    ensures 4 < |b.parameters| && b.parameters[4] == "A" && b.parameters[1] == reference ==> r == Value(b, 0, num)
    ensures r.Returned? && r.value.Ok?
        <==> 4 < |b.parameters| && b.parameters[4] == "A" && b.parameters[1] == reference
             && Parameter(b, 0, num.parse).Ok?
  {
    var ps := b.parameters;
    When(ps, 4, "A",
      When(ps, 1, reference, Value(b, 0, num), Fail("Not found.")),
      Fail("Data not valid."))
  }

  /** `angle_relative`: field 0 when the status is `A` and the reference `R`. */
  function AngleRelative<F>(b: Base, num: Numeric<F>): (r: Outcome<Result<F>>)
    ensures r.Panicked? <==> |b.parameters| <= 4
    ensures 4 < |b.parameters| && b.parameters[4] != "A" ==> r == Fail("Data not valid.")
    ensures 4 < |b.parameters| && b.parameters[4] == "A" && b.parameters[1] != "R" ==> r == Fail("Not found.")
    ensures 4 < |b.parameters| && b.parameters[4] == "A" && b.parameters[1] == "R" ==> r == Value(b, 0, num)
    ensures r.Returned? && r.value.Ok?
        <==> 4 < |b.parameters| && b.parameters[4] == "A" && b.parameters[1] == "R" && Parameter(b, 0, num.parse).Ok?
    ensures r.Returned? && r.value.Ok? ==> r.value == Parameter(b, 0, num.parse)
  {
    AngleFor(b, "R", num)
  }

  /** `angle_true`: field 0 when the status is `A` and the reference `T`. */
  function AngleTrue<F>(b: Base, num: Numeric<F>): (r: Outcome<Result<F>>)
    ensures r.Panicked? <==> |b.parameters| <= 4
    ensures 4 < |b.parameters| && b.parameters[4] != "A" ==> r == Fail("Data not valid.")
    ensures 4 < |b.parameters| && b.parameters[4] == "A" && b.parameters[1] != "T" ==> r == Fail("Not found.")
    ensures 4 < |b.parameters| && b.parameters[4] == "A" && b.parameters[1] == "T" ==> r == Value(b, 0, num)
    ensures r.Returned? && r.value.Ok?
        <==> 4 < |b.parameters| && b.parameters[4] == "A" && b.parameters[1] == "T" && Parameter(b, 0, num.parse).Ok?
    ensures r.Returned? && r.value.Ok? ==> r.value == Parameter(b, 0, num.parse)
  {
    AngleFor(b, "T", num)
  }

  /** The unit rules of `wind_speed`, all at slot 3 reading field 2. */
  const SPEED_UNITS: seq<Rule<Read>> := [
    Rule(3, "M", Read(2, MilesPerHour)), Rule(3, "N", Read(2, Knots)), Rule(3, "K", Read(2, KilometersPerHour))]

  /** `wind_speed`: behind the status gate, `M` miles per hour, `N` knots,
      `K` kilometres per hour, anything else "Not found"; a status other
      than `A` is "Invalid data". */
  function WindSpeed<F>(b: Base, num: Numeric<F>): (r: Outcome<Result<Quantity<F>>>)
    ensures r.Panicked? <==> |b.parameters| <= 4
    ensures 4 < |b.parameters| && b.parameters[4] != "A" ==> r == Fail("Invalid data")
    ensures 4 < |b.parameters| && b.parameters[4] == "A" ==> r == MeasureBy(b, SPEED_UNITS, "Not found", num)
  {
    var ps := b.parameters;
    When(ps, 4, "A",
      When(ps, 3, "M", Measure(b, Read(2, MilesPerHour), num),
      When(ps, 3, "N", Measure(b, Read(2, Knots), num),
      When(ps, 3, "K", Measure(b, Read(2, KilometersPerHour), num),
      Fail("Not found")))),
      Fail("Invalid data"))
  }

  /** A status other than `A` fails all three accessors with the status
      error, whatever the reference and unit fields hold. */
  lemma StatusChecked<F>(b: Base, num: Numeric<F>)
    requires |b.parameters| > 4 && b.parameters[4] != "A"
    ensures AngleRelative(b, num) == Fail("Data not valid.")
    ensures AngleTrue(b, num) == Fail("Data not valid.")
    ensures WindSpeed(b, num) == Fail("Invalid data")
  {
  }

  /** The relative and the true angle are never both given. */
  lemma AnglesExclusive<F>(b: Base, num: Numeric<F>)
    ensures !(AngleRelative(b, num).Returned? && AngleRelative(b, num).value.Ok?
              && AngleTrue(b, num).Returned? && AngleTrue(b, num).value.Ok?)
  {
  }

  /** With a valid status the unit letter at slot 3 decides the unit of
      field 2, and any other letter is "Not found". */
  lemma WindSpeedUnits<F>(b: Base, num: Numeric<F>)
    requires |b.parameters| > 4 && b.parameters[4] == "A"
    ensures b.parameters[3] == "M" ==> WindSpeed(b, num) == Measure(b, Read(2, MilesPerHour), num)
    ensures b.parameters[3] == "N" ==> WindSpeed(b, num) == Measure(b, Read(2, Knots), num)
    ensures b.parameters[3] == "K" ==> WindSpeed(b, num) == Measure(b, Read(2, KilometersPerHour), num)
    ensures WindSpeed(b, num) == Fail("Not found") <==> b.parameters[3] !in {"M", "N", "K"}
  {
    FallbacksAreNotParseFailures();
    FallbackIffAllMiss(b, SPEED_UNITS, "Not found", num);
  }
}
