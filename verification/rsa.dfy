/**
 `Rsa` (src/miscellaneous/rsa.rs), rudder sensor angle: the starboard (or
 single) rudder behind its status at slot 1, the port rudder behind its
 status at slot 3.
 */
module Rsa {
  import opened Sentence
  import opened Units
  import opened Dispatch

  /** `angle`: field 0 when the starboard status is `A`. */
  function Angle<F>(b: Base, num: Numeric<F>): (r: Outcome<Result<F>>)
    ensures r.Panicked? <==> |b.parameters| <= 1
    ensures r.Returned? && r.value.Ok? <==> 1 < |b.parameters| && b.parameters[1] == "A" && Parameter(b, 0, num.parse).Ok?
    ensures 1 < |b.parameters| && b.parameters[1] == "A" ==> r == Returned(Parameter(b, 0, num.parse))
    ensures 1 < |b.parameters| && b.parameters[1] != "A" ==> r == Fail("Not found")
  {
    When(b.parameters, 1, "A", Value(b, 0, num), Fail("Not found"))
  }

  /** `starboard_rudder`: the same as `angle`. */
  function StarboardRudder<F>(b: Base, num: Numeric<F>): (r: Outcome<Result<F>>)
    ensures r == Angle(b, num)
  {
    Angle(b, num)
  }

  /** `port_rudder`: field 2 when the port status is `A`. */
  function PortRudder<F>(b: Base, num: Numeric<F>): (r: Outcome<Result<F>>)
    ensures r.Panicked? <==> |b.parameters| <= 3
    ensures r.Returned? && r.value.Ok? <==> 3 < |b.parameters| && b.parameters[3] == "A" && Parameter(b, 2, num.parse).Ok?
    ensures 3 < |b.parameters| && b.parameters[3] == "A" ==> r == Returned(Parameter(b, 2, num.parse))
    ensures 3 < |b.parameters| && b.parameters[3] != "A" ==> r == Fail("Not found")
  {
    When(b.parameters, 3, "A", Value(b, 2, num), Fail("Not found"))
  }

  /** The two gates are independent: the port status does not change the
      starboard angle, nor the starboard status the port angle. */
  lemma RuddersIndependent<F>(b: Base, s: string, num: Numeric<F>)
    requires |b.parameters| > 3
    ensures StarboardRudder(b.(parameters := b.parameters[3 := s]), num) == StarboardRudder(b, num)
    ensures PortRudder(b.(parameters := b.parameters[1 := s]), num) == PortRudder(b, num)
  {
    var c, d := b.(parameters := b.parameters[3 := s]), b.(parameters := b.parameters[1 := s]);
    assert Parameter(c, 0, num.parse) == Parameter(b, 0, num.parse) by { assert c.parameters[0] == b.parameters[0]; }
    assert Parameter(d, 2, num.parse) == Parameter(b, 2, num.parse) by { assert d.parameters[2] == b.parameters[2]; }
  }
}
