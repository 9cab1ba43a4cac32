/**
 The typed readings the sentence wrappers hand out. The source builds them
 with `f32` unit constructors (`Speed::from_knots`, `Distance::from_meters`,
 ...); here a reading is the unit it was built with and the number it was
 built from, and the number type stays abstract.
 */
module Units {
  import opened Text
  import opened Sentence

  /** The unit constructors of src/base/mod.rs the wrappers call. */
  datatype Unit =
    | Bar | InchesOfMercury
    | Celsius | Fahrenheit
    | Meters | Kilometers | Miles | NauticalMiles
    | MetersPerSecond | KilometersPerHour | MilesPerHour | Knots

  /** A `Pressure`, `Temperature`, `Distance` or `Speed`: the constructor and its argument. */
  datatype Quantity<F> = Quantity(unit: Unit, amount: F)

  /** What the wrappers use of `f32`: its `FromStr`, unary minus, the literal
      `0.` and the division by 5280.0 that turns feet into miles. */
  datatype Numeric<!F> = Numeric(parse: string -> Option<F>, neg: F -> F, zero: F, feetToMiles: F -> F)

  /** Which field to parse and what to build from it: `Unit::from_x(parameter(index)?)`,
      or `Distance::from_miles(parameter(index)? / 5280.0)`. */
  datatype Read = Read(index: nat, unit: Unit) | FeetAsMiles(index: nat)

  /** `parameter::<f32>(index)` as an accessor result: it never panics. */
  function Value<F>(b: Base, index: nat, num: Numeric<F>): (r: Outcome<Result<F>>)
    ensures r.Returned?
  {
    Returned(Parameter(b, index, num.parse))
  }

  /** `Ok(from_x(parameter(index)?))`: the reading when the field parses,
      otherwise the parse error unchanged. */
  function Measure<F>(b: Base, rd: Read, num: Numeric<F>): (r: Outcome<Result<Quantity<F>>>)
    ensures r.Returned?
    ensures r.value.Ok? <==> Parameter(b, rd.index, num.parse).Ok?
    ensures r.value.Err? ==> r.value.error == Parameter(b, rd.index, num.parse).error
    ensures r.value.Ok? ==> r.value.value == match rd
                                               case Read(_, u) => Quantity(u, Parameter(b, rd.index, num.parse).value)
                                               case FeetAsMiles(_) => Quantity(Miles, num.feetToMiles(Parameter(b, rd.index, num.parse).value))
  {
    match Parameter(b, rd.index, num.parse)
    case Err(e) => Returned(Err(e))
    case Ok(v) =>
      match rd
      case Read(_, unit) => Returned(Ok(Quantity(unit, v)))
      case FeetAsMiles(_) => Returned(Ok(Quantity(Miles, num.feetToMiles(v))))
  }

  /** `Ok(-(parameter(index)?))`: the negated value, or the parse error. */
  function Negated<F>(b: Base, index: nat, num: Numeric<F>): (r: Outcome<Result<F>>)
    ensures r.Returned?
    ensures r.value.Ok? <==> Parameter(b, index, num.parse).Ok?
    ensures r.value.Ok? ==> r.value.value == num.neg(Parameter(b, index, num.parse).value)
    ensures r.value.Err? ==> r.value == Parameter(b, index, num.parse)
  {
    match Parameter(b, index, num.parse)
    case Err(e) => Returned(Err(e))
    case Ok(v) => Returned(Ok(num.neg(v)))
  }

  /** `Ok(-(parameter(index)).unwrap())`: the negated value, and a panic
      instead of an error when the field is missing or does not parse. */
  function NegatedOrPanic<F>(b: Base, index: nat, num: Numeric<F>): (r: Outcome<Result<F>>)
    ensures r.Panicked? <==> Parameter(b, index, num.parse).Err?
    ensures r.Returned? ==> r.value == Ok(num.neg(Parameter(b, index, num.parse).value))
  {
    match Parameter(b, index, num.parse)
    case Err(_) => Panicked
    case Ok(v) => Returned(Ok(num.neg(v)))
  }

  /** `s.chars().nth(0)`: the first character, if any. */
  function FirstChar(s: string): (r: Option<char>)
    ensures r.Some? <==> |s| > 0
    ensures r.Some? ==> r.value == s[0]
  {
    if |s| > 0 then Some(s[0]) else None
  }
}
