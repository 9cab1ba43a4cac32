/**
 `Vhw` (src/wind/vhw.rs), water speed and heading: two headings with their
 reference letters and a speed with unit letters in two places.
 */
module Vhw {
  import opened Sentence
  import opened Units
  import opened Dispatch

  /** `heading_true`: `T` at slot 1 reads field 0, then `T` at slot 3 reads field 2. */
  function HeadingTrue<F>(b: Base, num: Numeric<F>): (r: Outcome<Result<F>>)
    ensures r == ValueBy(b, ReferenceRules("T"), "Not found.", num)
  {
    var ps := b.parameters;
    When(ps, 1, "T", Value(b, 0, num),
    When(ps, 3, "T", Value(b, 2, num),
    Fail("Not found.")))
  }

  /** `heading_magnetic`: the same with `M`. */
  function HeadingMagnetic<F>(b: Base, num: Numeric<F>): (r: Outcome<Result<F>>)
    ensures r == ValueBy(b, ReferenceRules("M"), "Not found.", num)
  {
    var ps := b.parameters;
    When(ps, 1, "M", Value(b, 0, num),
    When(ps, 3, "M", Value(b, 2, num),
    Fail("Not found.")))
  }

  /** `water_speed`: kilometres per hour at slot 5 or 7 first, then miles per
      hour or knots at slot 5, then at slot 7. */
  function WaterSpeed<F>(b: Base, num: Numeric<F>): (r: Outcome<Result<Quantity<F>>>)
    ensures r == MeasureBy(b, KPH_FIRST, "Not found", num)
  {
    MeasureUnroll(b, KPH_FIRST, "Not found", num);
    MeasureUnroll(b, KPH_FIRST[1..], "Not found", num);
    MeasureUnroll(b, KPH_FIRST[2..], "Not found", num);
    MeasureUnroll(b, KPH_FIRST[3..], "Not found", num);
    MeasureUnroll(b, KPH_FIRST[4..], "Not found", num);
    MeasureUnroll(b, KPH_FIRST[5..], "Not found", num);
    var ps := b.parameters;
    When(ps, 5, "K", Measure(b, Read(4, KilometersPerHour), num),
    When(ps, 7, "K", Measure(b, Read(6, KilometersPerHour), num),
    When(ps, 5, "M", Measure(b, Read(4, MilesPerHour), num),
    When(ps, 5, "N", Measure(b, Read(4, Knots), num),
    When(ps, 7, "M", Measure(b, Read(6, MilesPerHour), num),
    When(ps, 7, "N", Measure(b, Read(6, Knots), num),
    Fail("Not found")))))))
  }

  /** Both headings answer from the first slot holding their letter, and
      "Not found." exactly when both slots are there and neither holds it;
      with too few fields they panic. */
  lemma HeadingsByReference<F>(b: Base, num: Numeric<F>)
    ensures HeadingTrue(b, num).Panicked? <==> |b.parameters| <= 1 || (|b.parameters| <= 3 && b.parameters[1] != "T")
    ensures 1 < |b.parameters| && b.parameters[1] == "T" ==> HeadingTrue(b, num) == Value(b, 0, num)
    ensures 3 < |b.parameters| && b.parameters[1] != "T" && b.parameters[3] == "T" ==> HeadingTrue(b, num) == Value(b, 2, num)
    ensures HeadingTrue(b, num) == Fail("Not found.")
        <==> 3 < |b.parameters| && b.parameters[1] != "T" && b.parameters[3] != "T"
    ensures HeadingMagnetic(b, num).Panicked? <==> |b.parameters| <= 1 || (|b.parameters| <= 3 && b.parameters[1] != "M")
    ensures 1 < |b.parameters| && b.parameters[1] == "M" ==> HeadingMagnetic(b, num) == Value(b, 0, num)
    ensures 3 < |b.parameters| && b.parameters[1] != "M" && b.parameters[3] == "M" ==> HeadingMagnetic(b, num) == Value(b, 2, num)
    ensures HeadingMagnetic(b, num) == Fail("Not found.")
        <==> 3 < |b.parameters| && b.parameters[1] != "M" && b.parameters[3] != "M"
  {
    FallbacksAreNotParseFailures();
    ReferenceLetter(b, "T", "Not found.", num);
    ReferenceLetter(b, "M", "Not found.", num);
  }

  /** Without a `K`, slot 5 is decided before slot 7: `M` is miles per hour,
      `N` knots; "Not found" exactly when neither slot holds `K`, `M` or `N`. */
  lemma WaterSpeedUnits<F>(b: Base, num: Numeric<F>)
    requires |b.parameters| > 7 && b.parameters[5] != "K" && b.parameters[7] != "K"
    ensures b.parameters[5] == "M" ==> WaterSpeed(b, num) == Measure(b, Read(4, MilesPerHour), num)
    ensures b.parameters[5] == "N" ==> WaterSpeed(b, num) == Measure(b, Read(4, Knots), num)
    ensures b.parameters[5] !in {"M", "N"} && b.parameters[7] == "M" ==> WaterSpeed(b, num) == Measure(b, Read(6, MilesPerHour), num)
    ensures b.parameters[5] !in {"M", "N"} && b.parameters[7] == "N" ==> WaterSpeed(b, num) == Measure(b, Read(6, Knots), num)
    ensures WaterSpeed(b, num) == Fail("Not found") <==> b.parameters[5] !in {"M", "N"} && b.parameters[7] !in {"M", "N"}
  {
    FallbacksAreNotParseFailures();
    KphFirst(b, "Not found", num);
  }
}
