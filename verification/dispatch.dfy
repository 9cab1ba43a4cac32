/**
 The letter dispatch the sentence wrappers share. An accessor looks at
 single-letter unit, reference or status fields one after another and acts
 on the first one that holds the letter it tests for. Indexing a field that
 does not exist panics, so which fields were looked at before the first
 match decides whether the accessor panics.
 */
module Dispatch {
  import opened Text
  import opened Sentence
  import opened Units

  /* ---------------------------------------------------------------------- */
  /* The cascade as the source writes it                                    */
  /* ---------------------------------------------------------------------- */

  /** `if parameters[slot] == letter { yes } else { no }`: panics when the
      slot is missing, and compares the whole field, not a prefix. */
  function When<T>(ps: seq<string>, slot: nat, letter: string, yes: Outcome<T>, no: Outcome<T>): (r: Outcome<T>)
    ensures slot >= |ps| ==> r.Panicked?
    ensures slot < |ps| ==> r == yes || r == no
  {
    if slot >= |ps| then Panicked else if ps[slot] == letter then yes else no
  }

  /* ---------------------------------------------------------------------- */
  /* The same cascade as a table of rules                                   */
  /* ---------------------------------------------------------------------- */

  /** Test field `slot` for `letter`; on a match, do `action`. */
  datatype Rule<A> = Rule(slot: nat, letter: string, action: A)

  /** Which rule a cascade takes: the first matching one, none, or it
      panics on the missing field of rule `index`. */
  datatype Choice = Chosen(index: nat) | NoMatch | SlotMissing(index: nat)

  predicate Hit<A>(ps: seq<string>, r: Rule<A>) {
    r.slot < |ps| && ps[r.slot] == r.letter
  }

  predicate Miss<A>(ps: seq<string>, r: Rule<A>) {
    r.slot < |ps| && ps[r.slot] != r.letter
  }

  /** Rules `from` up to `to` were tested and did not match. */
  predicate MissesBetween<A>(ps: seq<string>, rules: seq<Rule<A>>, from: nat, to: nat)
    requires to <= |rules|
  {
    forall i | from <= i < to :: Miss(ps, rules[i])
  }

  /** The rules tried in order from `k`. */
  function SelectFrom<A>(ps: seq<string>, rules: seq<Rule<A>>, k: nat): (c: Choice)
    requires k <= |rules|
    ensures c.Chosen? ==> k <= c.index < |rules| && Hit(ps, rules[c.index]) && MissesBetween(ps, rules, k, c.index)
    ensures c.SlotMissing? ==> k <= c.index < |rules| && rules[c.index].slot >= |ps| && MissesBetween(ps, rules, k, c.index)
    ensures c.NoMatch? ==> MissesBetween(ps, rules, k, |rules|)
    decreases |rules| - k
  {
    if k == |rules| then NoMatch
    else if rules[k].slot >= |ps| then SlotMissing(k)
    else if ps[rules[k].slot] == rules[k].letter then Chosen(k)
    else SelectFrom(ps, rules, k + 1)
  }

  /** The rule a cascade over the whole table takes. */
  function Select<A>(ps: seq<string>, rules: seq<Rule<A>>): (c: Choice)
    ensures c.Chosen? ==> c.index < |rules| && Hit(ps, rules[c.index]) && MissesBetween(ps, rules, 0, c.index)
    ensures c.SlotMissing? ==> c.index < |rules| && rules[c.index].slot >= |ps| && MissesBetween(ps, rules, 0, c.index)
    ensures c.NoMatch? ==> MissesBetween(ps, rules, 0, |rules|)
  {
    SelectFrom(ps, rules, 0)
  }

  /** A choice among `rest` as a choice among `[r] + rest`. */
  function Shift(c: Choice): (d: Choice)
    ensures d.NoMatch? <==> c.NoMatch?
  {
    match c
    case Chosen(i) => Chosen(i + 1)
    case NoMatch => NoMatch
    case SlotMissing(i) => SlotMissing(i + 1)
  }

  /** Past its first rule, a table is tried exactly as its tail is. */
  lemma {:induction false} SelectFromCons<A>(ps: seq<string>, r: Rule<A>, rest: seq<Rule<A>>, k: nat)
    requires k <= |rest|
    ensures SelectFrom(ps, [r] + rest, k + 1) == Shift(SelectFrom(ps, rest, k))
    decreases |rest| - k
  {
    if k < |rest| {
      assert ([r] + rest)[k + 1] == rest[k];
      SelectFromCons(ps, r, rest, k + 1);
    }
  }

  /** The first rule that does not miss decides: the cascade takes it when
      it matches and panics when its field is missing. */
  lemma FirstDecides<A>(ps: seq<string>, rules: seq<Rule<A>>, j: nat)
    requires j < |rules| && MissesBetween(ps, rules, 0, j) && !Miss(ps, rules[j])
    ensures Hit(ps, rules[j]) ==> Select(ps, rules) == Chosen(j)
    ensures !Hit(ps, rules[j]) ==> Select(ps, rules) == SlotMissing(j)
  {
  }

  /** A cascade that matches nothing reaches its fallback. */
  lemma AllMiss<A>(ps: seq<string>, rules: seq<Rule<A>>)
    requires MissesBetween(ps, rules, 0, |rules|)
    ensures Select(ps, rules) == NoMatch
  {
  }

  /* ---------------------------------------------------------------------- */
  /* What an accessor returns for a table                                   */
  /* ---------------------------------------------------------------------- */

  /** An accessor whose rules read typed values (`Ok(from_x(parameter(i)?))`). */
  function MeasureBy<F>(b: Base, rules: seq<Rule<Read>>, fallback: string, num: Numeric<F>): Outcome<Result<Quantity<F>>>
  {
    match Select(b.parameters, rules)
    case Chosen(j) => Measure(b, rules[j].action, num)
    case NoMatch => Fail(fallback)
    case SlotMissing(_) => Panicked
  }

  /** An accessor whose rules return `parameter(i)` as it is. */
  function ValueBy<F>(b: Base, rules: seq<Rule<nat>>, fallback: string, num: Numeric<F>): Outcome<Result<F>>
  {
    match Select(b.parameters, rules)
    case Chosen(j) => Value(b, rules[j].action, num)
    case NoMatch => Fail(fallback)
    case SlotMissing(_) => Panicked
  }

  /** A table is the cascade the source writes: test the first rule's
      field, act on a match, otherwise go on with the rest of the table. */
  lemma MeasureCons<F>(b: Base, r: Rule<Read>, rest: seq<Rule<Read>>, fallback: string, num: Numeric<F>)
    ensures MeasureBy(b, [r] + rest, fallback, num)
         == When(b.parameters, r.slot, r.letter, Measure(b, r.action, num), MeasureBy(b, rest, fallback, num))
  {
    SelectFromCons(b.parameters, r, rest, 0);
    var c := Select(b.parameters, rest);
    if c.Chosen? {
      assert ([r] + rest)[c.index + 1] == rest[c.index];
    }
  }

  /** `MeasureCons` for a table given as a whole. */
  lemma MeasureUnroll<F>(b: Base, rules: seq<Rule<Read>>, fallback: string, num: Numeric<F>)
    requires |rules| > 0
    ensures MeasureBy(b, rules, fallback, num)
         == When(b.parameters, rules[0].slot, rules[0].letter, Measure(b, rules[0].action, num),
                 MeasureBy(b, rules[1..], fallback, num))
  {
    assert rules == [rules[0]] + rules[1..];
    MeasureCons(b, rules[0], rules[1..], fallback, num);
  }

  /** The empty table goes straight to the fallback. */
  lemma MeasureEmpty<F>(b: Base, fallback: string, num: Numeric<F>)
    ensures MeasureBy(b, [], fallback, num) == Fail(fallback)
  {
  }

  /** The cascade takes a rule whose letter is found before any other rule
      matches, and the accessor returns what that rule reads, parse error
      included: a later rule is never tried. */
  lemma MeasureFirstHit<F>(b: Base, rules: seq<Rule<Read>>, fallback: string, num: Numeric<F>, j: nat)
    requires j < |rules| && MissesBetween(b.parameters, rules, 0, j) && Hit(b.parameters, rules[j])
    ensures MeasureBy(b, rules, fallback, num) == Measure(b, rules[j].action, num)
  {
    FirstDecides(b.parameters, rules, j);
  }

  /** A typed read whose letter is checked right after the value it reads. */
  predicate ValuesBesideLetters(rules: seq<Rule<Read>>) {
    forall i | 0 <= i < |rules| :: rules[i].action.index + 1 == rules[i].slot
  }

  /** When every rule reads the field right before its letter, a reading
      that succeeds was parsed from the field before a matching letter. */
  lemma MeasuredBesideLetter<F>(b: Base, rules: seq<Rule<Read>>, fallback: string, num: Numeric<F>) returns (j: nat)
    requires ValuesBesideLetters(rules)
    requires MeasureBy(b, rules, fallback, num).Returned? && MeasureBy(b, rules, fallback, num).value.Ok?
    ensures j < |rules| && Hit(b.parameters, rules[j])
    ensures num.parse(b.parameters[rules[j].slot - 1]).Some?
  {
    j := Select(b.parameters, rules).index;
  }

  /** The messages `parameter` fails with: too few fields, or "Could not parse …". */
  predicate ParseFailure(m: string) {
    m == INSUFFICIENT_NUMBER_OF_PARAMETERS || (|m| > 0 && m[0] == 'C')
  }

  /** None of the wrappers' own error messages can be mistaken for a
      failure of `parameter`. */
  lemma FallbacksAreNotParseFailures()
    ensures !ParseFailure("Invalid data") && !ParseFailure("Invalid data.")
    ensures !ParseFailure("Not found") && !ParseFailure("Not found.")
    ensures !ParseFailure("Data not valid.") && !ParseFailure("Invalid speed")
    ensures !ParseFailure("Invalid speed.") && !ParseFailure("No speed present")
    ensures !ParseFailure("Invalid index") && !ParseFailure("Index out of range")
  {
    assert INSUFFICIENT_NUMBER_OF_PARAMETERS[2] == 's';
  }

  /** A reading that fails, fails as `parameter` does. */
  lemma MeasureFailsAsParameter<F>(b: Base, rd: Read, num: Numeric<F>)
    ensures Measure(b, rd, num).value.Err? ==> ParseFailure(Measure(b, rd, num).value.error.message)
  {
  }

  /** The accessor answers with its own fallback message exactly when every
      rule was tested and missed. */
  lemma {:induction false} FallbackIffAllMiss<F>(b: Base, rules: seq<Rule<Read>>, fallback: string, num: Numeric<F>)
    requires !ParseFailure(fallback)
    ensures MeasureBy(b, rules, fallback, num) == Fail(fallback) <==> MissesBetween(b.parameters, rules, 0, |rules|)
  {
    var c := Select(b.parameters, rules);
    if c.Chosen? {
      MeasureFailsAsParameter(b, rules[c.index].action, num);
    } else if MissesBetween(b.parameters, rules, 0, |rules|) {
      AllMiss(b.parameters, rules);
    }
  }

  /** The `nat`-action form of `FallbackIffAllMiss`. */
  lemma {:induction false} ValueFallbackIffAllMiss<F>(b: Base, rules: seq<Rule<nat>>, fallback: string, num: Numeric<F>)
    requires !ParseFailure(fallback)
    ensures ValueBy(b, rules, fallback, num) == Fail(fallback) <==> MissesBetween(b.parameters, rules, 0, |rules|)
  {
    if MissesBetween(b.parameters, rules, 0, |rules|) {
      AllMiss(b.parameters, rules);
    }
  }

  /** The accessor panics exactly when some rule's field is missing and
      every rule before it was tested and missed. */
  lemma PanicsIffSlotMissing<F>(b: Base, rules: seq<Rule<Read>>, fallback: string, num: Numeric<F>)
    ensures MeasureBy(b, rules, fallback, num).Panicked?
        <==> exists j | 0 <= j < |rules| :: rules[j].slot >= |b.parameters| && MissesBetween(b.parameters, rules, 0, j)
  {
    if j :| 0 <= j < |rules| && rules[j].slot >= |b.parameters| && MissesBetween(b.parameters, rules, 0, j) {
      FirstDecides(b.parameters, rules, j);
    }
  }

  /** A reading that succeeds was made by a rule whose letter was found,
      with every earlier rule missed, from the field that rule reads. */
  lemma MeasuredByRule<F>(b: Base, rules: seq<Rule<Read>>, fallback: string, num: Numeric<F>) returns (j: nat)
    requires MeasureBy(b, rules, fallback, num).Returned? && MeasureBy(b, rules, fallback, num).value.Ok?
    ensures j < |rules| && Hit(b.parameters, rules[j]) && MissesBetween(b.parameters, rules, 0, j)
    ensures MeasureBy(b, rules, fallback, num) == Measure(b, rules[j].action, num)
  {
    j := Select(b.parameters, rules).index;
  }

  /** The `nat`-action form of `MeasureFirstHit`. */
  lemma ValueFirstHit<F>(b: Base, rules: seq<Rule<nat>>, fallback: string, num: Numeric<F>, j: nat)
    requires j < |rules| && MissesBetween(b.parameters, rules, 0, j) && Hit(b.parameters, rules[j])
    ensures ValueBy(b, rules, fallback, num) == Value(b, rules[j].action, num)
  {
    FirstDecides(b.parameters, rules, j);
  }

  /* ---------------------------------------------------------------------- */
  /* Tables and cascades several sentences share                            */
  /* ---------------------------------------------------------------------- */

  /** A course or heading reference: `letter` at slot 1 reads field 0,
      otherwise `letter` at slot 3 reads field 2. */
  function ReferenceRules(letter: string): seq<Rule<nat>> {
    [Rule(1, letter, 0), Rule(3, letter, 2)]
  }

  /** How a reference cascade ends: the first slot holding `letter` gives
      its value field; it panics when slot 1 is missing, or slot 3 is
      missing and slot 1 did not match; with both slots present and neither
      matching it gives its fallback. */
  lemma ReferenceLetter<F>(b: Base, letter: string, fallback: string, num: Numeric<F>)
    requires !ParseFailure(fallback)
    ensures ValueBy(b, ReferenceRules(letter), fallback, num).Panicked?
        <==> |b.parameters| <= 1 || (|b.parameters| <= 3 && b.parameters[1] != letter)
    ensures 1 < |b.parameters| && b.parameters[1] == letter
        ==> ValueBy(b, ReferenceRules(letter), fallback, num) == Value(b, 0, num)
    ensures 3 < |b.parameters| && b.parameters[1] != letter && b.parameters[3] == letter
        ==> ValueBy(b, ReferenceRules(letter), fallback, num) == Value(b, 2, num)
    ensures ValueBy(b, ReferenceRules(letter), fallback, num) == Fail(fallback)
        <==> 3 < |b.parameters| && b.parameters[1] != letter && b.parameters[3] != letter
  {
    var ps, rules := b.parameters, ReferenceRules(letter);
    ValueFallbackIffAllMiss(b, rules, fallback, num);
    if 1 < |ps| && ps[1] == letter {
      ValueFirstHit(b, rules, fallback, num, 0);
    } else if 1 >= |ps| {
      FirstDecides(ps, rules, 0);
    } else if 3 < |ps| && ps[3] == letter {
      ValueFirstHit(b, rules, fallback, num, 1);
    } else if 3 >= |ps| {
      FirstDecides(ps, rules, 1);
    } else {
      AllMiss(ps, rules);
    }
  }

  /** A temperature: `C` or `F` at slot `letter`, the value at slot `value`. */
  function TemperatureRules(value: nat, letter: nat): seq<Rule<Read>> {
    [Rule(letter, "C", Read(value, Celsius)), Rule(letter, "F", Read(value, Fahrenheit))]
  }

  /** A speed with kilometres per hour preferred: `K` at slot 5 or 7 first,
      then `M` (miles per hour) or `N` (knots) at slot 5, then at slot 7. */
  const KPH_FIRST: seq<Rule<Read>> := [
    Rule(5, "K", Read(4, KilometersPerHour)), Rule(7, "K", Read(6, KilometersPerHour)),
    Rule(5, "M", Read(4, MilesPerHour)), Rule(5, "N", Read(4, Knots)),
    Rule(7, "M", Read(6, MilesPerHour)), Rule(7, "N", Read(6, Knots))]

  /** How a kilometres-per-hour-first speed ends once both unit slots are
      present: a `K` in either slot wins, slot 5 before slot 7; otherwise
      slot 5 is decided before slot 7, `M` giving miles per hour and `N`
      knots; and the fallback exactly when neither slot holds `K`, `M` or `N`. */
  lemma KphFirst<F>(b: Base, fallback: string, num: Numeric<F>)
    requires |b.parameters| > 7 && !ParseFailure(fallback)
    ensures b.parameters[5] == "K" || b.parameters[7] == "K"
        ==> MeasureBy(b, KPH_FIRST, fallback, num)
            == Measure(b, Read(if b.parameters[5] == "K" then 4 else 6, KilometersPerHour), num)
    ensures b.parameters[5] != "K" && b.parameters[7] != "K" && b.parameters[5] in {"M", "N"}
        ==> MeasureBy(b, KPH_FIRST, fallback, num)
            == Measure(b, Read(4, if b.parameters[5] == "M" then MilesPerHour else Knots), num)
    ensures b.parameters[7] != "K" && b.parameters[5] !in {"K", "M", "N"} && b.parameters[7] in {"M", "N"}
        ==> MeasureBy(b, KPH_FIRST, fallback, num)
            == Measure(b, Read(6, if b.parameters[7] == "M" then MilesPerHour else Knots), num)
    ensures MeasureBy(b, KPH_FIRST, fallback, num) == Fail(fallback)
        <==> b.parameters[5] !in {"K", "M", "N"} && b.parameters[7] !in {"K", "M", "N"}
  {
    FallbackIffAllMiss(b, KPH_FIRST, fallback, num);
  }

  /** A value with a hemisphere letter: exactly `E` keeps its sign, any
      other text negates it (`Ok(-(parameter(value)?))`). */
  function EastPositive<F>(b: Base, value: nat, letter: nat, num: Numeric<F>): (r: Outcome<Result<F>>)
    ensures letter >= |b.parameters| ==> r.Panicked?
    ensures letter < |b.parameters| && b.parameters[letter] == "E" ==> r == Value(b, value, num)
    ensures letter < |b.parameters| && b.parameters[letter] != "E" ==> r == Negated(b, value, num)
  {
    When(b.parameters, letter, "E", Value(b, value, num), Negated(b, value, num))
  }

  /** Replacing an `E` by `W` negates a value that parses and touches no
      other field. */
  lemma HemisphereFlip<F>(b: Base, value: nat, letter: nat, num: Numeric<F>)
    requires value != letter && letter < |b.parameters| && b.parameters[letter] == "E"
    requires Parameter(b, value, num.parse).Ok?
    ensures EastPositive(b.(parameters := b.parameters[letter := "W"]), value, letter, num)
         == Returned(Ok(num.neg(EastPositive(b, value, letter, num).value.value)))
  {
    var c := b.(parameters := b.parameters[letter := "W"]);
    assert c.parameters[value] == b.parameters[value];
    assert Parameter(c, value, num.parse) == Parameter(b, value, num.parse);
  }

  /** A wind angle off the bow: `R` (right) keeps it, `L` (left) negates it
      through `unwrap`, so an `L` angle that does not parse panics; any
      other letter is an error. */
  function LeftRight<F>(b: Base, num: Numeric<F>): (r: Outcome<Result<F>>)
    ensures 1 >= |b.parameters| ==> r.Panicked?
    ensures r.Panicked? <==> 1 >= |b.parameters| || (b.parameters[1] == "L" && Parameter(b, 0, num.parse).Err?)
    ensures r.Returned? && r.value.Ok? ==>
              b.parameters[1] in {"L", "R"} && Parameter(b, 0, num.parse).Ok?
              && r.value.value == if b.parameters[1] == "L" then num.neg(Parameter(b, 0, num.parse).value)
                                  else Parameter(b, 0, num.parse).value
    ensures 1 < |b.parameters| && b.parameters[1] == "R" ==> r == Value(b, 0, num)
    ensures 1 < |b.parameters| && b.parameters[1] == "L" ==> r == NegatedOrPanic(b, 0, num)
    ensures 1 < |b.parameters| && b.parameters[1] !in {"L", "R"} ==> r == Fail("Invalid data")
  {
    var ps := b.parameters;
    When(ps, 1, "L", NegatedOrPanic(b, 0, num),
    When(ps, 1, "R", Value(b, 0, num),
    Fail("Invalid data")))
  }

  /** Turning the angle from the right (`R`) to the left (`L`) negates it
      when it parses. */
  lemma LeftRightMirror<F>(b: Base, num: Numeric<F>)
    requires |b.parameters| > 1 && b.parameters[1] == "R" && Parameter(b, 0, num.parse).Ok?
    ensures LeftRight(b.(parameters := b.parameters[1 := "L"]), num)
         == Returned(Ok(num.neg(LeftRight(b, num).value.value)))
  {
    var c := b.(parameters := b.parameters[1 := "L"]);
    assert Parameter(c, 0, num.parse) == Parameter(b, 0, num.parse) by {
      assert c.parameters[0] == b.parameters[0];
    }
  }
}
