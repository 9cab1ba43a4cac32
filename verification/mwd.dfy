/**
 `Mwd` (src/wind/mwd.rs), wind direction and speed: two directions with
 their reference letters and a speed with unit letters in two places.
 */
module Mwd {
  import opened Sentence
  import opened Units
  import opened Dispatch

  /** `direction_true`: `T` at slot 1 reads field 0, then `T` at slot 3 reads field 2. */
  function DirectionTrue<F>(b: Base, num: Numeric<F>): (r: Outcome<Result<F>>)
    ensures r == ValueBy(b, ReferenceRules("T"), "Not found", num)
  {
    var ps := b.parameters;
    When(ps, 1, "T", Value(b, 0, num),
    When(ps, 3, "T", Value(b, 2, num),
    Fail("Not found")))
  }

  /** `direction_magnetic`: the same with `M`. */
  function DirectionMagnetic<F>(b: Base, num: Numeric<F>): (r: Outcome<Result<F>>)
    ensures r == ValueBy(b, ReferenceRules("M"), "Not found", num)
  {
    var ps := b.parameters;
    When(ps, 1, "M", Value(b, 0, num),
    When(ps, 3, "M", Value(b, 2, num),
    Fail("Not found")))
  }

  /** `wind_speed`: kilometres per hour at slot 5 or 7 first, then miles per
      hour or knots at slot 5, then at slot 7. */
  function WindSpeed<F>(b: Base, num: Numeric<F>): (r: Outcome<Result<Quantity<F>>>)
    ensures r == MeasureBy(b, KPH_FIRST, "Not found", num)
  {
    MeasureUnroll(b, KPH_FIRST, "Not found", num);
    MeasureUnroll(b, KPH_FIRST[1..], "Not found", num);
    MeasureUnroll(b, KPH_FIRST[2..], "Not found", num);
    MeasureUnroll(b, KPH_FIRST[3..], "Not found", num);
    MeasureUnroll(b, KPH_FIRST[4..], "Not found", num);
    MeasureUnroll(b, KPH_FIRST[5..], "Not found", num);
    var ps := b.parameters;
    When(ps, 5, "K", Measure(b, Read(4, KilometersPerHour), num),
    When(ps, 7, "K", Measure(b, Read(6, KilometersPerHour), num),
    When(ps, 5, "M", Measure(b, Read(4, MilesPerHour), num),
    When(ps, 5, "N", Measure(b, Read(4, Knots), num),
    When(ps, 7, "M", Measure(b, Read(6, MilesPerHour), num),
    When(ps, 7, "N", Measure(b, Read(6, Knots), num),
    Fail("Not found")))))))
  }

  /** Both directions answer from the first slot holding their letter, and
      "Not found" exactly when both slots are there and neither holds it. */
  lemma DirectionsByReference<F>(b: Base, num: Numeric<F>)
    requires |b.parameters| > 3
    ensures b.parameters[1] == "T" ==> DirectionTrue(b, num) == Value(b, 0, num)
    ensures b.parameters[1] != "T" && b.parameters[3] == "T" ==> DirectionTrue(b, num) == Value(b, 2, num)
    ensures DirectionTrue(b, num) == Fail("Not found") <==> b.parameters[1] != "T" && b.parameters[3] != "T"
    ensures b.parameters[1] == "M" ==> DirectionMagnetic(b, num) == Value(b, 0, num)
    ensures b.parameters[1] != "M" && b.parameters[3] == "M" ==> DirectionMagnetic(b, num) == Value(b, 2, num)
    ensures DirectionMagnetic(b, num) == Fail("Not found") <==> b.parameters[1] != "M" && b.parameters[3] != "M"
  {
    FallbacksAreNotParseFailures();
    ReferenceLetter(b, "T", "Not found", num);
    ReferenceLetter(b, "M", "Not found", num);
  }

  /** A `K` in slot 5 or 7 wins over any `M` or `N`; the selected value's
      parse error is returned without trying the other slot. */
  lemma WindSpeedPrefersKph<F>(b: Base, num: Numeric<F>)
    requires |b.parameters| > 7 && (b.parameters[5] == "K" || b.parameters[7] == "K")
    ensures WindSpeed(b, num) == Measure(b, Read(if b.parameters[5] == "K" then 4 else 6, KilometersPerHour), num)
    ensures b.parameters[5] == "K" && num.parse(b.parameters[4]).None?
        ==> WindSpeed(b, num) == Fail(CouldNotParse(b.parameters[4]))
  {
    FallbacksAreNotParseFailures();
    KphFirst(b, "Not found", num);
  }

  /** `wind_speed` is "Not found" exactly when neither unit slot holds `K`, `M` or `N`. */
  lemma WindSpeedNotFound<F>(b: Base, num: Numeric<F>)
    requires |b.parameters| > 7
    ensures WindSpeed(b, num) == Fail("Not found")
        <==> b.parameters[5] !in {"K", "M", "N"} && b.parameters[7] !in {"K", "M", "N"}
  {
    FallbacksAreNotParseFailures();
    KphFirst(b, "Not found", num);
  }
}
