/**
 `Dbt` (src/miscellaneous/dbt.rs), depth below transducer: the same depth
 rules as `Dbs`.
 */
module Dbt {
  import opened Sentence
  import opened Units
  import opened Dispatch
  import Dbs

  /** `depth`: the cascade of `Dbs.Depth`, written out again in the source. */
  function Depth<F>(b: Base, num: Numeric<F>): (r: Outcome<Result<Quantity<F>>>)
    ensures r == MeasureBy(b, Dbs.DEPTH, "Invalid data.", num)
  {
    MeasureUnroll(b, Dbs.DEPTH, "Invalid data.", num);
    MeasureUnroll(b, Dbs.DEPTH[1..], "Invalid data.", num);
    MeasureUnroll(b, Dbs.DEPTH[2..], "Invalid data.", num);
    MeasureUnroll(b, Dbs.DEPTH[3..], "Invalid data.", num);
    MeasureUnroll(b, Dbs.DEPTH[4..], "Invalid data.", num);
    MeasureUnroll(b, Dbs.DEPTH[5..], "Invalid data.", num);
    var ps := b.parameters;
    When(ps, 1, "M", Measure(b, Read(0, Meters), num),
    When(ps, 3, "M", Measure(b, Read(2, Meters), num),
    When(ps, 5, "M", Measure(b, Read(4, Meters), num),
    When(ps, 1, "f", Measure(b, FeetAsMiles(0), num),
    When(ps, 3, "f", Measure(b, FeetAsMiles(2), num),
    When(ps, 5, "f", Measure(b, FeetAsMiles(4), num),
    Fail("Invalid data.")))))))
  }

  /** Both sentences read their depth alike. */
  lemma SameAsDbs<F>(b: Base, num: Numeric<F>)
    ensures Depth(b, num) == Dbs.Depth(b, num)
  {
  }

  /** A value that does not parse is the answer once its letter matched:
      the other slots are not tried. */
  lemma DepthParseErrorPropagates<F>(b: Base, num: Numeric<F>)
    requires |b.parameters| > 1 && b.parameters[1] == "M" && num.parse(b.parameters[0]).None?
    ensures Depth(b, num) == Fail(CouldNotParse(b.parameters[0]))
  {
    MeasureFirstHit(b, Dbs.DEPTH, "Invalid data.", num, 0);
  }
}
