/**
 `Vwr` (src/wind/vwr.rs), relative wind: the angle off the bow with its
 left/right letter, read as `Vwt` reads it.
 */
module Vwr {
  import opened Sentence
  import opened Units
  import opened Dispatch

  /** `wind_direction`: field 0 off the bow, to the right (`R`) as it is, to
      the left (`L`) negated through `unwrap`. The Rust method is a textual
      copy of the one in src/wind/vwt.rs, so both are the shared `LeftRight`. */
  function WindDirection<F>(b: Base, num: Numeric<F>): (r: Outcome<Result<F>>)
    ensures r.Panicked? <==> 1 >= |b.parameters| || (b.parameters[1] == "L" && Parameter(b, 0, num.parse).Err?)
    ensures 1 < |b.parameters| && b.parameters[1] == "R" ==> r == Value(b, 0, num)
    ensures 1 < |b.parameters| && b.parameters[1] == "L" ==> r == NegatedOrPanic(b, 0, num)
    ensures 1 < |b.parameters| && b.parameters[1] !in {"L", "R"} ==> r == Fail("Invalid data")
  {
    LeftRight(b, num)
  }

  /** A left angle that does not parse panics rather than failing, while
      the same field with `R` is an ordinary parse error. */
  lemma LeftUnparsablePanics<F>(b: Base, num: Numeric<F>)
    requires |b.parameters| > 1 && num.parse(b.parameters[0]).None?
    ensures b.parameters[1] == "L" ==> WindDirection(b, num).Panicked?
    ensures b.parameters[1] == "R" ==> WindDirection(b, num) == Fail(CouldNotParse(b.parameters[0]))
  {
  }
}
