/**
 `Gsv` (src/gps/gsv.rs), satellites in view: three counters, then one group
 of four fields per satellite starting at field 3.
 */
module Gsv {
  import opened Text
  import opened Sentence

  /** `SatelliteData`: the four numbers of one satellite. */
  datatype SatelliteData = SatelliteData(id: nat, elevation: nat, azimuth: nat, snr: nat)

  /** `sentence_total`: field 0 read as `usize`. */
  function SentenceTotal(b: Base, parse: string -> Option<nat>): (r: Result<nat>)
    ensures r.Ok? <==> 0 < |b.parameters| && parse(b.parameters[0]).Some?
    ensures r.Ok? ==> r.value == parse(b.parameters[0]).value
    ensures r.Err? ==> r.error == NmeaError(if 0 < |b.parameters| then CouldNotParse(b.parameters[0])
        else INSUFFICIENT_NUMBER_OF_PARAMETERS)
  {
    Parameter(b, 0, parse)
  }

  /** `sentence_number`: field 1 read as `usize`. */
  function SentenceNumber(b: Base, parse: string -> Option<nat>): (r: Result<nat>)
    ensures r.Ok? <==> 1 < |b.parameters| && parse(b.parameters[1]).Some?
    ensures r.Ok? ==> r.value == parse(b.parameters[1]).value
    ensures r.Err? ==> r.error == NmeaError(if 1 < |b.parameters| then CouldNotParse(b.parameters[1])
        else INSUFFICIENT_NUMBER_OF_PARAMETERS)
  {
    Parameter(b, 1, parse)
  }

  /** `number_of_satellites`: field 2 read as `usize`. */
  function NumberOfSatellites(b: Base, parse: string -> Option<nat>): (r: Result<nat>)
    ensures r.Ok? <==> 2 < |b.parameters| && parse(b.parameters[2]).Some?
    ensures r.Ok? ==> r.value == parse(b.parameters[2]).value
    ensures r.Err? ==> r.error == NmeaError(if 2 < |b.parameters| then CouldNotParse(b.parameters[2])
        else INSUFFICIENT_NUMBER_OF_PARAMETERS)
  {
    Parameter(b, 2, parse)
  }

  /** The fields satellite `n` is read from. */
  function Slots(n: nat): set<nat> {
    {4 * n + 3, 4 * n + 4, 4 * n + 5, 4 * n + 6}
  }

  /** Every field of satellite `n` parses. */
  predicate AllParse(b: Base, n: nat, parse: string -> Option<nat>)
    requires 4 * n + 6 < |b.parameters|
  {
    && parse(b.parameters[4 * n + 3]).Some? && parse(b.parameters[4 * n + 4]).Some?
    && parse(b.parameters[4 * n + 5]).Some? && parse(b.parameters[4 * n + 6]).Some?
  }

  /** `satellite(n)`: when field `4n + 6` exists, the four fields from `4n + 3`
      on, each read with `?` in order; otherwise "Invalid index". */
  function Satellite(b: Base, n: nat, parse: string -> Option<nat>): (r: Result<SatelliteData>)
    ensures r == Err(NmeaError("Invalid index")) <==> 4 * n + 6 >= |b.parameters|
    ensures r.Ok? <==> 4 * n + 6 < |b.parameters| && AllParse(b, n, parse)
    ensures r.Ok? ==> r.value == SatelliteData(parse(b.parameters[4 * n + 3]).value, parse(b.parameters[4 * n + 4]).value,
                                               parse(b.parameters[4 * n + 5]).value, parse(b.parameters[4 * n + 6]).value)
    ensures r.Err? ==> r.error.message != INSUFFICIENT_NUMBER_OF_PARAMETERS
  {
    var ps, first := b.parameters, 4 * n + 3;
    if first + 3 < |ps| then
      match Parameter(b, first, parse)
      case Err(e) => Err(e)
      case Ok(id) =>
        match Parameter(b, first + 1, parse)
        case Err(e) => Err(e)
        case Ok(elevation) =>
          match Parameter(b, first + 2, parse)
          case Err(e) => Err(e)
          case Ok(azimuth) =>
            match Parameter(b, first + 3, parse)
            case Err(e) => Err(e)
            case Ok(snr) => Ok(SatelliteData(id, elevation, azimuth, snr))
    else
      assert "Invalid index"[2] != INSUFFICIENT_NUMBER_OF_PARAMETERS[2];
      Err(NmeaError("Invalid index"))
  }

  /** The first of satellite `n`'s fields that does not parse is the one
      the error names: one empty signal-to-noise field fails the record. */
  lemma FirstBadFieldReported(b: Base, n: nat, parse: string -> Option<nat>, k: nat)
    requires 4 * n + 6 < |b.parameters| && 3 <= k <= 6
    requires forall j | 4 * n + 3 <= j < 4 * n + k :: parse(b.parameters[j]).Some?
    requires parse(b.parameters[4 * n + k]).None?
    ensures Satellite(b, n, parse) == Err(NmeaError(CouldNotParse(b.parameters[4 * n + k])))
  {
    if k > 3 {
      assert parse(b.parameters[4 * n + 3]).Some?;
    }
    if k > 4 {
      assert parse(b.parameters[4 * n + 4]).Some?;
    }
    if k > 5 {
      assert parse(b.parameters[4 * n + 5]).Some?;
    }
  }

  /** Different satellites are read from disjoint fields. */
  lemma SlotsDisjoint(n: nat, m: nat)
    requires n != m
    ensures Slots(n) * Slots(m) == {}
  {
    if n < m {
      assert 4 * n + 6 < 4 * m + 3;
    } else {
      assert 4 * m + 6 < 4 * n + 3;
    }
  }

  /** A satellite's record depends on its own four fields only: rewriting any
      other field leaves it unchanged. */
  lemma OnlyOwnSlots(b: Base, n: nat, parse: string -> Option<nat>, k: nat, s: string)
    requires k < |b.parameters| && k !in Slots(n)
    ensures Satellite(b.(parameters := b.parameters[k := s]), n, parse) == Satellite(b, n, parse)
  {
    var c := b.(parameters := b.parameters[k := s]);
    if 4 * n + 6 < |b.parameters| {
      forall j | 4 * n + 3 <= j <= 4 * n + 6
        ensures Parameter(c, j, parse) == Parameter(b, j, parse)
      {
        assert c.parameters[j] == b.parameters[j];
      }
    }
  }
}
