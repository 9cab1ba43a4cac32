/**
 `Vdm` (src/ais/vdm.rs), an AIS message fragment: three counters, the radio
 channel and the armoured payload, which is handed on as it is.
 */
module Vdm {
  import opened Text
  import opened Sentence
  import opened Units

  /** `total_sentences`: field 0 read as `usize`; never panics. */
  function TotalSentences(b: Base, parse: string -> Option<nat>): (r: Outcome<Result<nat>>)
    ensures r.Returned?
    ensures r.value.Ok? <==> 0 < |b.parameters| && parse(b.parameters[0]).Some?
    ensures r.value.Ok? ==> r.value.value == parse(b.parameters[0]).value
    ensures r.value.Err? ==> r.value.error == NmeaError(if 0 < |b.parameters| then CouldNotParse(b.parameters[0])
        else INSUFFICIENT_NUMBER_OF_PARAMETERS)
  {
    Returned(Parameter(b, 0, parse))
  }

  /** `sentence_number`: field 1 read as `usize`; never panics. */
  function SentenceNumber(b: Base, parse: string -> Option<nat>): (r: Outcome<Result<nat>>)
    ensures r.Returned?
    ensures r.value.Ok? <==> 1 < |b.parameters| && parse(b.parameters[1]).Some?
    ensures r.value.Ok? ==> r.value.value == parse(b.parameters[1]).value
    ensures r.value.Err? ==> r.value.error == NmeaError(if 1 < |b.parameters| then CouldNotParse(b.parameters[1])
        else INSUFFICIENT_NUMBER_OF_PARAMETERS)
  {
    Returned(Parameter(b, 1, parse))
  }

  /** `sentence_id`: field 2 read as `usize`; never panics. */
  function SentenceId(b: Base, parse: string -> Option<nat>): (r: Outcome<Result<nat>>)
    ensures r.Returned?
    ensures r.value.Ok? <==> 2 < |b.parameters| && parse(b.parameters[2]).Some?
    ensures r.value.Ok? ==> r.value.value == parse(b.parameters[2]).value
    ensures r.value.Err? ==> r.value.error == NmeaError(if 2 < |b.parameters| then CouldNotParse(b.parameters[2])
        else INSUFFICIENT_NUMBER_OF_PARAMETERS)
  {
    Returned(Parameter(b, 2, parse))
  }

  /** `channel`: the first character of field 3, "Invalid data" when it is
      empty; panics when there is no field 3. */
  function Channel(b: Base): (r: Outcome<Result<char>>)
    ensures r.Panicked? <==> |b.parameters| <= 3
    ensures r.Returned? ==> (r.value.Ok? <==> |b.parameters[3]| > 0)
    ensures r.Returned? && r.value.Ok? ==> r.value.value == b.parameters[3][0]
    ensures r.Returned? && r.value.Err? ==> r == Fail("Invalid data")
  {
    if |b.parameters| <= 3 then Panicked
    else match FirstChar(b.parameters[3])
      case Some(c) => Returned(Ok(c))
      case None => Fail("Invalid data")
  }

  /** `message`: field 4 exactly as it is; panics when there is no field 4. */
  function Message(b: Base): (r: Outcome<Result<string>>)
    ensures r.Panicked? <==> |b.parameters| <= 4
    ensures r.Returned? ==> r.value == Ok(b.parameters[4])
  {
    if |b.parameters| <= 4 then Panicked else Returned(Ok(b.parameters[4]))
  }
}
