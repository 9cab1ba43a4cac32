/**
 `Xdr` (src/miscellaneous/xdr.rs), transducer measurements: the fields come
 in groups of four (type, data, units, name), one group per measurement.
 */
module Xdr {
  import opened Text
  import opened Sentence
  import opened Units

  /** `Transducer<T>`: one measurement. */
  datatype Transducer<T> = Transducer(xdrType: char, xdrData: T, xdrUnits: char, xdrName: string)

  /** The number of whole groups, `parameters.len() / 4`. */
  function Groups(b: Base): nat {
    |b.parameters| / 4
  }

  /** A group that passes the guard lies inside the fields, and below the
      `len mod 4` trailing fields. */
  lemma GroupInBounds(b: Base, index: nat)
    requires index < Groups(b)
    ensures 4 * index + 3 < |b.parameters| - |b.parameters| % 4
  {
    assert |b.parameters| == 4 * Groups(b) + |b.parameters| % 4;
  }

  /** `measurements::<T>(index)`: "Index out of range" for an index with no
      whole group; otherwise the group's fields in order: the first
      character of the type field (`unwrap`, so an empty field panics), the
      data field parsed with `?`, the first character of the units field
      (`unwrap` again) and the name as it is. */
  function Measurements<T>(b: Base, index: nat, parse: string -> Option<T>): (r: Outcome<Result<Transducer<T>>>)
    ensures r == Fail("Index out of range") <==> index >= Groups(b)
    ensures r.Panicked? <==> index < Groups(b) && 4 * index + 3 < |b.parameters|
                              && (|b.parameters[4 * index]| == 0
                                  || (parse(b.parameters[4 * index + 1]).Some? && |b.parameters[4 * index + 2]| == 0))
    ensures r.Returned? && r.value.Ok?
        <==> index < Groups(b) && 4 * index + 3 < |b.parameters| && |b.parameters[4 * index]| > 0
             && parse(b.parameters[4 * index + 1]).Some? && |b.parameters[4 * index + 2]| > 0
    ensures r.Returned? && r.value.Ok?
        ==> r.value.value == Transducer(b.parameters[4 * index][0], parse(b.parameters[4 * index + 1]).value,
                                        b.parameters[4 * index + 2][0], b.parameters[4 * index + 3])
    ensures r.Returned? && r.value.Err? && index < Groups(b)
        ==> 4 * index + 1 < |b.parameters| && r.value.error == NmeaError(CouldNotParse(b.parameters[4 * index + 1]))
  {
    var ps := b.parameters;
    if index >= |ps| / 4 then
      Fail("Index out of range")
    else
      GroupInBounds(b, index);
      match FirstChar(ps[index * 4])
      case None => Panicked
      case Some(xdrType) =>
        match Parameter(b, index * 4 + 1, parse)
        case Err(e) => Returned(Err(e))
        case Ok(xdrData) =>
          match FirstChar(ps[index * 4 + 2])
          case None => Panicked
          case Some(xdrUnits) => Returned(Ok(Transducer(xdrType, xdrData, xdrUnits, ps[index * 4 + 3])))
  }

  /** The trailing `len mod 4` fields belong to no group: rewriting one of
      them changes no measurement. */
  lemma TrailingFieldsUnread<T>(b: Base, index: nat, parse: string -> Option<T>, k: nat, s: string)
    requires 4 * Groups(b) <= k < |b.parameters|
    ensures Measurements(b.(parameters := b.parameters[k := s]), index, parse) == Measurements(b, index, parse)
  {
    var c := b.(parameters := b.parameters[k := s]);
    assert Groups(c) == Groups(b);
    if index < Groups(b) {
      GroupInBounds(b, index);
      assert c.parameters[4 * index + 1] == b.parameters[4 * index + 1];
      assert Parameter(c, 4 * index + 1, parse) == Parameter(b, 4 * index + 1, parse);
    }
  }

  /** The type field is read before the data: with an empty type field the
      call panics even when the data does not parse, and with a non-empty
      one a bad data field is an error even when the units field is empty. */
  lemma EvaluationOrder<T>(b: Base, index: nat, parse: string -> Option<T>)
    requires index < Groups(b)
    requires parse(b.parameters[4 * index + 1]).None?
    ensures |b.parameters[4 * index]| == 0 ==> Measurements(b, index, parse).Panicked?
    ensures |b.parameters[4 * index]| > 0
        ==> Measurements(b, index, parse) == Fail(CouldNotParse(b.parameters[4 * index + 1]))
  {
    GroupInBounds(b, index);
  }
}
