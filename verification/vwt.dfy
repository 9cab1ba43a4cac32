/**
 `Vwt` (src/wind/vwt.rs), true wind relative to the bow: an angle with its
 left/right letter, and a speed with unit letters in three places.
 */
module Vwt {
  import opened Sentence
  import opened Units
  import opened Dispatch

  /** `wind_direction`: field 0 off the bow, to the right (`R`) as it is, to
      the left (`L`) negated through `unwrap`. The Rust method is a textual
      copy of the one in src/wind/vwr.rs, so both are the shared `LeftRight`. */
  function WindDirection<F>(b: Base, num: Numeric<F>): (r: Outcome<Result<F>>)
    ensures r.Panicked? <==> 1 >= |b.parameters| || (b.parameters[1] == "L" && Parameter(b, 0, num.parse).Err?)
    ensures 1 < |b.parameters| && b.parameters[1] == "R" ==> r == Value(b, 0, num)
    ensures 1 < |b.parameters| && b.parameters[1] == "L" ==> r == NegatedOrPanic(b, 0, num)
    ensures 1 < |b.parameters| && b.parameters[1] !in {"L", "R"} ==> r == Fail("Invalid data")
  {
    LeftRight(b, num)
  }

  /** The rules of `wind_speed`: metres per second at slot 3, 5, 7, then
      kilometres per hour at slot 3, 5, 7; there is no rule for knots. */
  const SPEED: seq<Rule<Read>> := [
    Rule(3, "M", Read(2, MetersPerSecond)), Rule(5, "M", Read(4, MetersPerSecond)),
    Rule(7, "M", Read(6, MetersPerSecond)), Rule(3, "K", Read(2, KilometersPerHour)),
    Rule(5, "K", Read(4, KilometersPerHour)), Rule(7, "K", Read(6, KilometersPerHour))]

  function WindSpeed<F>(b: Base, num: Numeric<F>): (r: Outcome<Result<Quantity<F>>>)
    ensures r == MeasureBy(b, SPEED, "Invalid data", num)
  {
    MeasureUnroll(b, SPEED, "Invalid data", num);
    MeasureUnroll(b, SPEED[1..], "Invalid data", num);
    MeasureUnroll(b, SPEED[2..], "Invalid data", num);
    MeasureUnroll(b, SPEED[3..], "Invalid data", num);
    MeasureUnroll(b, SPEED[4..], "Invalid data", num);
    MeasureUnroll(b, SPEED[5..], "Invalid data", num);
    var ps := b.parameters;
    When(ps, 3, "M", Measure(b, Read(2, MetersPerSecond), num),
    When(ps, 5, "M", Measure(b, Read(4, MetersPerSecond), num),
    When(ps, 7, "M", Measure(b, Read(6, MetersPerSecond), num),
    When(ps, 3, "K", Measure(b, Read(2, KilometersPerHour), num),
    When(ps, 5, "K", Measure(b, Read(4, KilometersPerHour), num),
    When(ps, 7, "K", Measure(b, Read(6, KilometersPerHour), num),
    Fail("Invalid data")))))))
  }

  /** Metres per second win: an `M` in any of the three slots is taken, the
      first one found, even when an earlier slot holds `K`. */
  lemma WindSpeedPrefersMetersPerSecond<F>(b: Base, num: Numeric<F>)
    requires |b.parameters| > 7 && "M" in {b.parameters[3], b.parameters[5], b.parameters[7]}
    ensures WindSpeed(b, num)
         == Measure(b, Read(if b.parameters[3] == "M" then 2 else if b.parameters[5] == "M" then 4 else 6, MetersPerSecond), num)
  {
    if b.parameters[3] == "M" {
      MeasureFirstHit(b, SPEED, "Invalid data", num, 0);
    } else if b.parameters[5] == "M" {
      MeasureFirstHit(b, SPEED, "Invalid data", num, 1);
    } else {
      MeasureFirstHit(b, SPEED, "Invalid data", num, 2);
    }
  }

  /** "Invalid data" exactly when no slot holds `M` or `K`; in particular a
      speed in knots (`N`) is never accepted. */
  lemma WindSpeedInvalid<F>(b: Base, num: Numeric<F>)
    requires |b.parameters| > 7
    ensures WindSpeed(b, num) == Fail("Invalid data")
        <==> b.parameters[3] !in {"M", "K"} && b.parameters[5] !in {"M", "K"} && b.parameters[7] !in {"M", "K"}
    ensures b.parameters[3] == b.parameters[5] == b.parameters[7] == "N" ==> WindSpeed(b, num) == Fail("Invalid data")
  {
    FallbacksAreNotParseFailures();
    FallbackIffAllMiss(b, SPEED, "Invalid data", num);
  }
}
