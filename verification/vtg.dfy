/**
 `Vtg` (src/heading/vtg.rs), course and speed over ground: two courses with
 their reference letters, a speed with unit letters in two places, and the
 FAA mode indicator.
 */
module Vtg {
  import opened Text
  import opened Sentence
  import opened Units
  import opened Dispatch

  /** `cog_true`: `T` at slot 1 reads field 0, then `T` at slot 3 reads field 2. */
  function CogTrue<F>(b: Base, num: Numeric<F>): (r: Outcome<Result<F>>)
    ensures r == ValueBy(b, ReferenceRules("T"), "Not found.", num)
  {
    var ps := b.parameters;
    When(ps, 1, "T", Value(b, 0, num),
    When(ps, 3, "T", Value(b, 2, num),
    Fail("Not found.")))
  }

  /** `cog_mag`: the same with `M`. */
  function CogMag<F>(b: Base, num: Numeric<F>): (r: Outcome<Result<F>>)
    ensures r == ValueBy(b, ReferenceRules("M"), "Not found.", num)
  {
    var ps := b.parameters;
    When(ps, 1, "M", Value(b, 0, num),
    When(ps, 3, "M", Value(b, 2, num),
    Fail("Not found.")))
  }

  /** The rules of `sog`: knots at slot 5, then at slot 7; then miles or
      kilometres per hour at slot 5, then at slot 7. */
  const SOG: seq<Rule<Read>> := [
    Rule(5, "N", Read(4, Knots)), Rule(7, "N", Read(6, Knots)),
    Rule(5, "M", Read(4, MilesPerHour)), Rule(5, "K", Read(4, KilometersPerHour)),
    Rule(7, "M", Read(6, MilesPerHour)), Rule(7, "K", Read(6, KilometersPerHour))]

  function Sog<F>(b: Base, num: Numeric<F>): (r: Outcome<Result<Quantity<F>>>)
    ensures r == MeasureBy(b, SOG, "Not found", num)
  {
    MeasureUnroll(b, SOG, "Not found", num);
    MeasureUnroll(b, SOG[1..], "Not found", num);
    MeasureUnroll(b, SOG[2..], "Not found", num);
    MeasureUnroll(b, SOG[3..], "Not found", num);
    MeasureUnroll(b, SOG[4..], "Not found", num);
    MeasureUnroll(b, SOG[5..], "Not found", num);
    var ps := b.parameters;
    When(ps, 5, "N", Measure(b, Read(4, Knots), num),
    When(ps, 7, "N", Measure(b, Read(6, Knots), num),
    When(ps, 5, "M", Measure(b, Read(4, MilesPerHour), num),
    When(ps, 5, "K", Measure(b, Read(4, KilometersPerHour), num),
    When(ps, 7, "M", Measure(b, Read(6, MilesPerHour), num),
    When(ps, 7, "K", Measure(b, Read(6, KilometersPerHour), num),
    Fail("Not found")))))))
  }

  /** `faa_mode`: the first character of field 8 when there is such a
      field and it is not empty; it checks the length first, so it never
      panics. */
  function FaaMode(b: Base): (r: Option<char>)
    ensures r.Some? <==> |b.parameters| > 8 && |b.parameters[8]| > 0
    ensures r.Some? ==> r.value == b.parameters[8][0]
  {
    if |b.parameters| > 8 && |b.parameters[8]| > 0 then FirstChar(b.parameters[8]) else None
  }

  /** With `T` at slot 1 and `M` at slot 3 the two courses read different
      fields: the true course field 0, the magnetic course field 2. */
  lemma CoursesReadDifferentFields<F>(b: Base, num: Numeric<F>)
    requires |b.parameters| > 3 && b.parameters[1] == "T" && b.parameters[3] == "M"
    ensures CogTrue(b, num) == Value(b, 0, num)
    ensures CogMag(b, num) == Value(b, 2, num)
  {
    ValueFirstHit(b, ReferenceRules("T"), "Not found.", num, 0);
    ValueFirstHit(b, ReferenceRules("M"), "Not found.", num, 1);
  }

  /** Knots win: an `N` at slot 5 or 7 is taken whatever the other slot
      holds, and a value that does not parse is the answer. */
  lemma SogPrefersKnots<F>(b: Base, num: Numeric<F>)
    requires |b.parameters| > 7 && (b.parameters[5] == "N" || b.parameters[7] == "N")
    ensures Sog(b, num) == Measure(b, Read(if b.parameters[5] == "N" then 4 else 6, Knots), num)
  {
    if b.parameters[5] == "N" {
      MeasureFirstHit(b, SOG, "Not found", num, 0);
    } else {
      MeasureFirstHit(b, SOG, "Not found", num, 1);
    }
  }

  /** Without a knots letter, slot 5 is decided before slot 7: `M` gives miles
      and `K` kilometres per hour, from field 4 or field 6. */
  lemma SogSlotFiveFirst<F>(b: Base, num: Numeric<F>)
    requires |b.parameters| > 7 && b.parameters[5] != "N" && b.parameters[7] != "N"
    ensures b.parameters[5] == "M" ==> Sog(b, num) == Measure(b, Read(4, MilesPerHour), num)
    ensures b.parameters[5] == "K" ==> Sog(b, num) == Measure(b, Read(4, KilometersPerHour), num)
    ensures b.parameters[5] !in {"M", "K"} && b.parameters[7] == "M" ==> Sog(b, num) == Measure(b, Read(6, MilesPerHour), num)
    ensures b.parameters[5] !in {"M", "K"} && b.parameters[7] == "K" ==> Sog(b, num) == Measure(b, Read(6, KilometersPerHour), num)
  {
  }

  /** `sog` is "Not found" exactly when neither unit slot holds `N`, `M` or `K`. */
  lemma SogNotFound<F>(b: Base, num: Numeric<F>)
    requires |b.parameters| > 7
    ensures Sog(b, num) == Fail("Not found") <==> b.parameters[5] !in {"N", "M", "K"} && b.parameters[7] !in {"N", "M", "K"}
  {
    FallbacksAreNotParseFailures();
    FallbackIffAllMiss(b, SOG, "Not found", num);
  }
}
