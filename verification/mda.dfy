/**
 `Mda` (src/miscellaneous/mda.rs), the meteorological composite: pressure,
 temperatures, humidity, wind direction and wind speed. Every typed
 accessor tests unit or reference letters in odd slots and reads the value
 from the slot before the one that matched.
 */
module Mda {
  import opened Text
  import opened Sentence
  import opened Units
  import opened Dispatch

  /* ---------------------------------------------------------------------- */
  /* Pressure                                                               */
  /* ---------------------------------------------------------------------- */

  /** The rules of `pressure` as written: bar at slot 1 or 3, then inches of
      mercury at slot 1 or 3; the last rule parses field 3, the unit letter. */
  const PRESSURE_AS_WRITTEN: seq<Rule<Read>> := [
    Rule(1, "B", Read(0, Bar)), Rule(3, "B", Read(2, Bar)),
    Rule(1, "I", Read(0, InchesOfMercury)), Rule(3, "I", Read(3, InchesOfMercury))]

  /** The rules of `pressure` with every value read next to its unit letter. */
  const PRESSURE: seq<Rule<Read>> := [
    Rule(1, "B", Read(0, Bar)), Rule(3, "B", Read(2, Bar)),
    Rule(1, "I", Read(0, InchesOfMercury)), Rule(3, "I", Read(2, InchesOfMercury))]

  /** `pressure` as the source writes it. */
  function PressureAsWritten<F>(b: Base, num: Numeric<F>): (r: Outcome<Result<Quantity<F>>>)
    ensures r == MeasureBy(b, PRESSURE_AS_WRITTEN, "Invalid data", num)
  {
    MeasureUnroll(b, PRESSURE_AS_WRITTEN, "Invalid data", num);
    MeasureUnroll(b, PRESSURE_AS_WRITTEN[1..], "Invalid data", num);
    MeasureUnroll(b, PRESSURE_AS_WRITTEN[2..], "Invalid data", num);
    MeasureUnroll(b, PRESSURE_AS_WRITTEN[3..], "Invalid data", num);
    var ps := b.parameters;
    When(ps, 1, "B", Measure(b, Read(0, Bar), num),
    When(ps, 3, "B", Measure(b, Read(2, Bar), num),
    When(ps, 1, "I", Measure(b, Read(0, InchesOfMercury), num),
    When(ps, 3, "I", Measure(b, Read(3, InchesOfMercury), num),
    Fail("Invalid data")))))
  }

  /** `pressure` with the inches-of-mercury value at slot 3 read from field 2. */
  function Pressure<F>(b: Base, num: Numeric<F>): (r: Outcome<Result<Quantity<F>>>)
    ensures r == MeasureBy(b, PRESSURE, "Invalid data", num)
  {
    MeasureUnroll(b, PRESSURE, "Invalid data", num);
    MeasureUnroll(b, PRESSURE[1..], "Invalid data", num);
    MeasureUnroll(b, PRESSURE[2..], "Invalid data", num);
    MeasureUnroll(b, PRESSURE[3..], "Invalid data", num);
    var ps := b.parameters;
    When(ps, 1, "B", Measure(b, Read(0, Bar), num),
    When(ps, 3, "B", Measure(b, Read(2, Bar), num),
    When(ps, 1, "I", Measure(b, Read(0, InchesOfMercury), num),
    When(ps, 3, "I", Measure(b, Read(2, InchesOfMercury), num),
    Fail("Invalid data")))))
  }

  /** As written, a sentence giving inches of mercury only at slot 3 gets
      its unit letter `I` parsed as the number, which `f32` rejects; the
      value in field 2 is never looked at. */
  lemma PressureReadsUnitLetter<F>(b: Base, num: Numeric<F>)
    requires |b.parameters| > 3
    requires b.parameters[1] !in {"B", "I"} && b.parameters[3] == "I"
    requires num.parse("I").None?
    ensures PressureAsWritten(b, num) == Fail(CouldNotParse("I"))
    ensures Pressure(b, num) == Measure(b, Read(2, InchesOfMercury), num)
  {
  }

  /** Every corrected pressure rule reads the field before its unit letter;
      the as-written table breaks this at its last rule. */
  lemma PressureTablesBesideUnit()
    ensures ValuesBesideLetters(PRESSURE) && !ValuesBesideLetters(PRESSURE_AS_WRITTEN)
  {
    assert PRESSURE_AS_WRITTEN[3].action.index + 1 != PRESSURE_AS_WRITTEN[3].slot;
  }

  /** So a corrected pressure reading always comes from the field before a
      matching `B` or `I`. */
  lemma PressureReadsBesideUnit<F>(b: Base, num: Numeric<F>)
    requires Pressure(b, num).Returned? && Pressure(b, num).value.Ok?
    ensures exists slot | slot in {1, 3} :: slot < |b.parameters| && b.parameters[slot] in {"B", "I"}
              && num.parse(b.parameters[slot - 1]).Some?
  {
    PressureTablesBesideUnit();
    var j := MeasuredBesideLetter(b, PRESSURE, "Invalid data", num);
    var slot := PRESSURE[j].slot;
    assert slot in {1, 3} && b.parameters[slot] in {"B", "I"};
  }

  /* ---------------------------------------------------------------------- */
  /* Temperatures and humidity                                              */
  /* ---------------------------------------------------------------------- */

  /** The shape of `air_temperature`, `water_temperature` and `dew_point`:
      `C` or `F` in slot `letter`, anything else is an error. */
  function TemperatureAt<F>(b: Base, value: nat, letter: nat, num: Numeric<F>): (r: Outcome<Result<Quantity<F>>>)
    ensures r == MeasureBy(b, TemperatureRules(value, letter), "Invalid data", num)
    ensures letter < |b.parameters| && b.parameters[letter] !in {"C", "F"} ==> r == Fail("Invalid data")
  {
    var c, f := Rule(letter, "C", Read(value, Celsius)), Rule(letter, "F", Read(value, Fahrenheit));
    MeasureCons(b, c, [f], "Invalid data", num);
    MeasureCons(b, f, [], "Invalid data", num);
    MeasureEmpty(b, "Invalid data", num);
    assert [c] + [f] == TemperatureRules(value, letter) && [f] + [] == [f];
    var ps := b.parameters;
    When(ps, letter, "C", Measure(b, Read(value, Celsius), num),
    When(ps, letter, "F", Measure(b, Read(value, Fahrenheit), num),
    Fail("Invalid data")))
  }

  function AirTemperature<F>(b: Base, num: Numeric<F>): (r: Outcome<Result<Quantity<F>>>)
    ensures r == MeasureBy(b, TemperatureRules(4, 5), "Invalid data", num)
  {
    TemperatureAt(b, 4, 5, num)
  }

  function WaterTemperature<F>(b: Base, num: Numeric<F>): (r: Outcome<Result<Quantity<F>>>)
    ensures r == MeasureBy(b, TemperatureRules(6, 7), "Invalid data", num)
  {
    TemperatureAt(b, 6, 7, num)
  }

  function DewPoint<F>(b: Base, num: Numeric<F>): (r: Outcome<Result<Quantity<F>>>)
    ensures r == MeasureBy(b, TemperatureRules(10, 11), "Invalid data", num)
  {
    TemperatureAt(b, 10, 11, num)
  }

  /** `relative_humidity`: a plain read of field 8, which never panics. */
  function RelativeHumidity<F>(b: Base, num: Numeric<F>): (r: Outcome<Result<F>>)
    ensures r.Returned?
    ensures r.value.Ok? <==> 8 < |b.parameters| && num.parse(b.parameters[8]).Some?
    ensures r.value.Ok? ==> r.value.value == num.parse(b.parameters[8]).value
    ensures r.value.Err? ==> r.value.error == NmeaError(if 8 < |b.parameters| then CouldNotParse(b.parameters[8])
        else INSUFFICIENT_NUMBER_OF_PARAMETERS)
  {
    Value(b, 8, num)
  }

  /** `absolute_humidity`: a plain read of field 9, which never panics. */
  function AbsoluteHumidity<F>(b: Base, num: Numeric<F>): (r: Outcome<Result<F>>)
    ensures r.Returned?
    ensures r.value.Ok? <==> 9 < |b.parameters| && num.parse(b.parameters[9]).Some?
    ensures r.value.Ok? ==> r.value.value == num.parse(b.parameters[9]).value
    ensures r.value.Err? ==> r.value.error == NmeaError(if 9 < |b.parameters| then CouldNotParse(b.parameters[9])
        else INSUFFICIENT_NUMBER_OF_PARAMETERS)
  {
    Value(b, 9, num)
  }

  /* ---------------------------------------------------------------------- */
  /* Wind                                                                   */
  /* ---------------------------------------------------------------------- */

  /** The rules of both wind directions: `letter` at slot 13 reads field
      12, otherwise `letter` at slot 15 reads field 14. */
  function WindDirectionRules(letter: string): seq<Rule<nat>> {
    [Rule(13, letter, 12), Rule(15, letter, 14)]
  }

  /** `wind_direction_true`: `T` at slot 13 reads field 12, then `T` at
      slot 15 reads field 14. */
  function WindDirectionTrue<F>(b: Base, num: Numeric<F>): (r: Outcome<Result<F>>)
    ensures r == ValueBy(b, WindDirectionRules("T"), "Not found", num)
  {
    var ps := b.parameters;
    When(ps, 13, "T", Value(b, 12, num),
    When(ps, 15, "T", Value(b, 14, num),
    Fail("Not found")))
  }

  /** `wind_direction_magnetic`: the same with `M`. */
  function WindDirectionMagnetic<F>(b: Base, num: Numeric<F>): (r: Outcome<Result<F>>)
    ensures r == ValueBy(b, WindDirectionRules("M"), "Not found", num)
  {
    var ps := b.parameters;
    When(ps, 13, "M", Value(b, 12, num),
    When(ps, 15, "M", Value(b, 14, num),
    Fail("Not found")))
  }

  /** `wind_speed`: metres per second at slot 17 or 19 first, then knots or
      kilometres per hour at slot 17, then at slot 19. */
  const WIND_SPEED: seq<Rule<Read>> := [
    Rule(17, "M", Read(16, MetersPerSecond)), Rule(19, "M", Read(18, MetersPerSecond)),
    Rule(17, "N", Read(16, Knots)), Rule(17, "K", Read(16, KilometersPerHour)),
    Rule(19, "N", Read(18, Knots)), Rule(19, "K", Read(18, KilometersPerHour))]

  function WindSpeed<F>(b: Base, num: Numeric<F>): (r: Outcome<Result<Quantity<F>>>)
    ensures r == MeasureBy(b, WIND_SPEED, "Invalid data", num)
  {
    MeasureUnroll(b, WIND_SPEED, "Invalid data", num);
    MeasureUnroll(b, WIND_SPEED[1..], "Invalid data", num);
    MeasureUnroll(b, WIND_SPEED[2..], "Invalid data", num);
    MeasureUnroll(b, WIND_SPEED[3..], "Invalid data", num);
    MeasureUnroll(b, WIND_SPEED[4..], "Invalid data", num);
    MeasureUnroll(b, WIND_SPEED[5..], "Invalid data", num);
    var ps := b.parameters;
    When(ps, 17, "M", Measure(b, Read(16, MetersPerSecond), num),
    When(ps, 19, "M", Measure(b, Read(18, MetersPerSecond), num),
    When(ps, 17, "N", Measure(b, Read(16, Knots), num),
    When(ps, 17, "K", Measure(b, Read(16, KilometersPerHour), num),
    When(ps, 19, "N", Measure(b, Read(18, Knots), num),
    When(ps, 19, "K", Measure(b, Read(18, KilometersPerHour), num),
    Fail("Invalid data")))))))
  }

  /** Metres per second in slot 19 wins over knots or kilometres per hour in
      slot 17, and a value in field 18 that does not parse is the answer:
      field 16 is not tried instead. */
  lemma WindSpeedMetersPerSecondFirst<F>(b: Base, num: Numeric<F>)
    requires |b.parameters| > 19
    requires b.parameters[17] != "M" && b.parameters[19] == "M"
    ensures WindSpeed(b, num) == Measure(b, Read(18, MetersPerSecond), num)
    ensures num.parse(b.parameters[18]).None? ==> WindSpeed(b, num) == Fail(CouldNotParse(b.parameters[18]))
  {
    MeasureFirstHit(b, WIND_SPEED, "Invalid data", num, 1);
  }
}
