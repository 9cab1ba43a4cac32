/**
 `Mtw` (src/miscellaneous/mtw.rs), water temperature: a value and its unit
 letter.
 */
module Mtw {
  import opened Sentence
  import opened Units
  import opened Dispatch

  /** `temperature`: `C` Celsius or `F` Fahrenheit at slot 1 for field 0,
      anything else "Not found". */
  function Temperature<F>(b: Base, num: Numeric<F>): (r: Outcome<Result<Quantity<F>>>)
    ensures r == MeasureBy(b, TemperatureRules(0, 1), "Not found", num)
  {
    var ps := b.parameters;
    When(ps, 1, "C", Measure(b, Read(0, Celsius), num),
    When(ps, 1, "F", Measure(b, Read(0, Fahrenheit), num),
    Fail("Not found")))
  }

  /** The letter decides the unit, a parse error of field 0 passes through,
      and "Not found" comes exactly for a letter other than `C` and `F`. */
  lemma TemperatureUnits<F>(b: Base, num: Numeric<F>)
    requires |b.parameters| > 1
    ensures b.parameters[1] == "C" ==> Temperature(b, num) == Measure(b, Read(0, Celsius), num)
    ensures b.parameters[1] == "F" ==> Temperature(b, num) == Measure(b, Read(0, Fahrenheit), num)
    ensures Temperature(b, num) == Fail("Not found") <==> b.parameters[1] !in {"C", "F"}
  {
    FallbacksAreNotParseFailures();
    FallbackIffAllMiss(b, TemperatureRules(0, 1), "Not found", num);
  }
}
