/**
 `Vbw` (src/wind/vbw.rs), dual ground and water speed: two water speeds
 behind the water status (slot 2) and two ground speeds behind the ground
 status (slot 5).
 */
module Vbw {
  import opened Sentence
  import opened Units
  import opened Dispatch

  /** `water_speed`: knots of field 0 when the water status is `A`. */
  function WaterSpeed<F>(b: Base, num: Numeric<F>): (r: Outcome<Result<Quantity<F>>>)
    ensures r.Panicked? <==> |b.parameters| <= 2
    ensures 2 < |b.parameters| && b.parameters[2] == "A" ==> r == Measure(b, Read(0, Knots), num)
    ensures 2 < |b.parameters| && b.parameters[2] != "A" ==> r == Fail("Invalid speed")
  {
    When(b.parameters, 2, "A", Measure(b, Read(0, Knots), num), Fail("Invalid speed"))
  }

  /** `transverse_water_speed`: knots of field 1 when the water status is `A`. */
  function TransverseWaterSpeed<F>(b: Base, num: Numeric<F>): (r: Outcome<Result<Quantity<F>>>)
    ensures r.Panicked? <==> |b.parameters| <= 2
    ensures 2 < |b.parameters| && b.parameters[2] == "A" ==> r == Measure(b, Read(1, Knots), num)
    ensures 2 < |b.parameters| && b.parameters[2] != "A" ==> r == Fail("Invalid speed.")
  {
    When(b.parameters, 2, "A", Measure(b, Read(1, Knots), num), Fail("Invalid speed."))
  }

  /** `ground_speed`: field 3 as it parses when the ground status is `A`,
      and 0 otherwise: a bad status is not an error. */
  function GroundSpeed<F>(b: Base, num: Numeric<F>): (r: Outcome<Result<F>>)
    ensures r.Panicked? <==> |b.parameters| <= 5
    ensures 5 < |b.parameters| && b.parameters[5] == "A" ==> r == Returned(Parameter(b, 3, num.parse))
    ensures 5 < |b.parameters| && b.parameters[5] != "A" ==> r == Returned(Ok(num.zero))
  {
    When(b.parameters, 5, "A", Value(b, 3, num), Returned(Ok(num.zero)))
  }

  /** `transverse_ground_speed`: knots of field 4 when the ground status is `A`. */
  function TransverseGroundSpeed<F>(b: Base, num: Numeric<F>): (r: Outcome<Result<Quantity<F>>>)
    ensures r.Panicked? <==> |b.parameters| <= 5
    ensures 5 < |b.parameters| && b.parameters[5] == "A" ==> r == Measure(b, Read(4, Knots), num)
    ensures 5 < |b.parameters| && b.parameters[5] != "A" ==> r == Fail("No speed present")
  {
    When(b.parameters, 5, "A", Measure(b, Read(4, Knots), num), Fail("No speed present"))
  }

  /** The two gates are independent: whatever the ground status holds, the
      water speeds are unchanged, and whatever the water status holds, the
      ground speeds are unchanged. */
  lemma GatesIndependent<F>(b: Base, s: string, num: Numeric<F>)
    requires |b.parameters| > 5
    ensures WaterSpeed(b.(parameters := b.parameters[5 := s]), num) == WaterSpeed(b, num)
    ensures TransverseWaterSpeed(b.(parameters := b.parameters[5 := s]), num) == TransverseWaterSpeed(b, num)
    ensures GroundSpeed(b.(parameters := b.parameters[2 := s]), num) == GroundSpeed(b, num)
    ensures TransverseGroundSpeed(b.(parameters := b.parameters[2 := s]), num) == TransverseGroundSpeed(b, num)
  {
    var c, d := b.(parameters := b.parameters[5 := s]), b.(parameters := b.parameters[2 := s]);
    assert Parameter(c, 0, num.parse) == Parameter(b, 0, num.parse) by { assert c.parameters[0] == b.parameters[0]; }
    assert Parameter(c, 1, num.parse) == Parameter(b, 1, num.parse) by { assert c.parameters[1] == b.parameters[1]; }
    assert Parameter(d, 3, num.parse) == Parameter(b, 3, num.parse) by { assert d.parameters[3] == b.parameters[3]; }
    assert Parameter(d, 4, num.parse) == Parameter(b, 4, num.parse) by { assert d.parameters[4] == b.parameters[4]; }
  }
}
