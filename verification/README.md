# libnmea0183 in Dafny

A model of the core of `libnmea0183`, a Rust library that reads NMEA 0183
sentences. It has two parts.

- **The sentence frame** (`Nmea0183Base`). `from_string` cuts a line into
  talker (sender), message identifier, comma-separated parameters and a hex
  checksum. `calculate_checksum` and `is_valid` compute and check the XOR
  checksum. `to_string` writes a sentence back, first stamping a zero
  checksum with the computed one. `parameter::<T>(n)` is the bounds-checked
  typed field read.
- **The per-sentence accessors** (MDA, VLW, VTG, MWD, VHW, MWV, DBS, DBT,
  RMC, VWT, VWR, VBW, GSV, XDR, VDM, HDG, RSA, MTW). Each one inspects unit,
  status, reference or hemisphere letters and then picks which field to
  parse, which unit to tag it with, or which error to return.

Every Rust panic is an explicit outcome, so no accessor has a
precondition:

- `Framing.Parsed` records where `from_string` panics: no `*` in the line,
  the slice `&introducer[..3]`, or the `unwrap` of the hex checksum.
- `Sentence.Outcome` is `Returned(value)` or `Panicked`. An accessor panics
  when it indexes a missing field, or when it `unwrap`s a failed parse or an
  empty first character.

Numbers are abstract. `Units.Numeric<F>` bundles `f32`'s `FromStr`, its
negation, `0.0` and the feet-to-miles division, and `usize` accessors take a
parse function. The `Speed`, `Distance`, `Temperature` and `Pressure`
constructors become a unit tag on the parsed value (`Units.Quantity`).

Strings are sequences of Unicode scalar values. Rust's byte view is an
explicit UTF-8 encoding (`Text.Bytes`), so the checksum and the 3-byte
talker slice also mean what they mean for non-ASCII text.

Each letter-dispatch accessor is written the way the source writes it, as a
chain of `if parameters[slot] == letter` tests (`Dispatch.When`). The unit
and reference tables need a few more words. These are the accessors of MDA,
VLW, VTG, MWD, VHW, DBS, DBT and MTW, plus `Mwv.WindSpeed` and
`Vwt.WindSpeed`. Each one's contract equates it with an independent
reference definition: a priority table of `Rule(slot, letter, action)`,
read by `Dispatch.Select` ("the first rule whose letter matches, every
earlier rule having missed"). General theorems about tables then give each
table accessor these facts:

- which rule wins;
- that the fallback error means every rule missed, and the converse;
- that a parse error of the chosen field is returned as it is, without
  trying another slot;
- exactly when the accessor panics.

The other accessors test a single status, reference or hemisphere letter:
the MWV angles, VBW, RSA, the HDG deviation and variation,
`Rmc.MagneticVariation` and `Dispatch.LeftRight`. They have no table.
Their contracts state each case on its own: when the accessor panics,
which error each failed test gives, and that a matching letter passes the
field's own read through, parse error included.

The checksum follows the code, not NMEA 0183. The code XORs the bytes of
the talker, the message identifier and each parameter, and leaves out the
commas. A leading `$` is not stripped, so it becomes the first of the
three talker characters. `Framing.StandardChecksumDiffersByCommaParity`
states how far the code's checksum is from the standard's.

A few consequences of the code that are easy to miss:

- `from_string` takes the payload from before the first `*` and the
  checksum text from after the last `*`, and drops the text in between
  (`RoundTrip.FromStringCuts`).
- A malformed line makes `from_string` panic, not fail. It panics on a
  missing `*`, on an introducer shorter than 3 bytes and on checksum text
  that is not hex. Its one error branch, for a payload with no fields, is
  unreachable (`Framing.FromString`).
- The checksum text is whatever `u8::from_str_radix(_, 16)` accepts: an
  optional `+`, then one or more hex digits of either case, with a value
  below 256.
- The XOR checksum is order-insensitive (`ChecksumLaws.ParameterPermutation`,
  `ChecksumLaws.OrderInsensitive`).
- The talker is the first 3 bytes of the introducer, so `GPGGA` gives
  talker `GPG` and message `GA` (`RoundTrip.FramedFields`).

## Model

| member | source | states |
|---|---|---|
| Text.Trim | src/base/mod.rs:69 | `trim` returns an infix of the line with only whitespace cut from either side, and the result neither starts nor ends with whitespace |
| Text.TrimUnchanged | src/base/mod.rs:75 | trimming text that already starts and ends with non-whitespace changes nothing |
| Text.SplitPieces | src/base/mod.rs:70 | no piece of `split(d)` contains `d`, and joining the pieces with `d` gives back the text |
| Text.SplitJoin | src/base/mod.rs:76 | splitting the `d`-join of pieces that contain no `d` gives back exactly those pieces, empty ones included |
| Text.SplitFirst | src/base/mod.rs:74 | the first piece is the text before the first delimiter |
| Text.SplitLast | src/base/mod.rs:73 | the last piece, which `pop` takes as the checksum text, is the text after the last delimiter |
| Text.SplitCount | src/base/mod.rs:70-74 | the split has exactly one piece iff the text has no delimiter, which is when `parts[0]` after the `pop` is out of bounds |
| Text.Utf8 | src/base/mod.rs:159-168 | a character is 1 to 4 bytes in `as_bytes`, and exactly 1 byte iff it is ASCII |
| Text.BytesAppend | src/base/mod.rs:159-168 | the bytes of a concatenation are the bytes of the parts, in order |
| Text.CharsInBytes | src/base/mod.rs:86-87 | the byte slice `[..n]` succeeds iff some character prefix has exactly `n` bytes, and that prefix is what it cuts |
| Text.CharsInBytesOfPrefix | src/base/mod.rs:86-87 | slicing at the byte length of a prefix ends exactly after that prefix |
| Text.ParseHexU8 | src/base/mod.rs:92 | `u8::from_str_radix(_, 16)` accepts only non-empty text that starts with neither `-` nor whitespace |
| Text.Hex2 | src/base/mod.rs:184 | `{:02X}` writes exactly two uppercase hex digits |
| Text.ParseHex2 | src/base/mod.rs:184 | parsing the `{:02X}` digits as hex gives the byte back |
| Sentence.CouldNotParse | src/base/mod.rs:105 | the parse-error message starts with `C` and is never the insufficient-parameters message |
| Sentence.Parameter | src/base/mod.rs:101-110 | fails with the insufficient-parameters error iff `n >= len`, whatever `T` is; succeeds iff the field exists and parses, with the parsed value; otherwise "Could not parse {raw}" |
| Sentence.XorFoldAppend | src/base/mod.rs:157-171 | the XOR of a byte run splits at any concatenation |
| Sentence.TextXorIsHomomorphism | src/base/mod.rs:157-171 | the XOR of a text's bytes turns concatenation into XOR |
| Sentence.XorInto | src/base/mod.rs:159-161 | one `checksum ^= c` loop leaves the accumulator XOR-ed with every byte of the run |
| Sentence.XorParameters | src/base/mod.rs:165-169 | the nested parameter loop XORs in every byte of every parameter and nothing else |
| Sentence.ChecksumParts | src/base/mod.rs:157-171 | the checksum is the sender's share XOR the message's share XOR the parameters' share |
| Sentence.CalculateChecksum | src/base/mod.rs:157-171 | the loops compute the XOR of every byte of sender, message and parameters, with no comma and no `*` |
| Framing.FromString | src/base/mod.rs:67-95 | `from_string` never returns its `InvalidData` error, and panics at the `parts[0]` index iff the trimmed line has no `*` |
| Framing.Frame | src/base/mod.rs:74-94 | once the payload is cut out, framing never reaches the `InvalidData` branch and never the no-`*` panic |
| Framing.Serialise | src/base/mod.rs:175-185 | the written line is the payload, then `*`, then two uppercase hex digits that parse back to the checksum |
| Framing.ToString | src/base/mod.rs:173-194 | `to_string` gives nothing iff the checksum is non-zero and wrong; otherwise the stamped sentence is valid and its line is written |
| Framing.CommaPrefixedJoin | src/base/mod.rs:179-183 | the `fold` that prefixes every parameter with a comma writes the introducer and parameters joined by commas |
| Framing.SplitPayload | src/base/mod.rs:74-78 | splitting a written payload on `,` gives back the introducer and the parameters |
| Framing.StandardChecksumDiffersByCommaParity | src/base/mod.rs:157-171 | the NMEA 0183 checksum of the written payload equals this checksum for an even number of parameters and differs by 0x2C for an odd number |
| ChecksumLaws.PermutationInvariant | src/base/mod.rs:157-171 | any XOR fold gives the same value on two sequences that are permutations of each other |
| ChecksumLaws.ChecksumShares | src/base/mod.rs:157-171 | the checksum is the XOR of the sender's, the message's and each parameter's share |
| ChecksumLaws.ParameterPermutation | src/base/mod.rs:165-169 | reordering the parameters leaves the checksum unchanged |
| ChecksumLaws.OrderInsensitive | src/base/mod.rs:157-171 | two sentences whose content has the same multiset of bytes have the same checksum |
| ChecksumLaws.ShiftBetweenParameters | src/base/mod.rs:165-169 | moving bytes across the boundary of two adjacent parameters leaves the checksum unchanged |
| ChecksumLaws.ShiftBetweenSenderAndMessage | src/base/mod.rs:159-164 | moving bytes between sender and message leaves the checksum unchanged |
| ChecksumLaws.EmptyParameter | src/base/mod.rs:165-169 | inserting an empty parameter anywhere leaves the checksum unchanged |
| RoundTrip.RoundTrip | src/base/mod.rs:67-95 | reading the line written for a framable sentence gives that sentence back |
| RoundTrip.ToStringRoundTrip | src/base/mod.rs:173-194 | reading what `to_string` writes gives the sentence back, its zero checksum stamped |
| RoundTrip.PayloadJoin | src/base/mod.rs:175-183 | the text before `*` is sender plus message, then the parameters, joined by commas |
| RoundTrip.FromStringCuts | src/base/mod.rs:68-74 | the payload is the text before the first `*`, the checksum text is the text after the last `*`, and the text between is dropped |
| RoundTrip.ParsedIsFramable | src/base/mod.rs:67-95 | every sentence `from_string` returns is framable and writes back its trimmed payload |
| RoundTrip.FramedFields | src/base/mod.rs:85-93 | sender plus message is the first comma field, the sender is exactly 3 bytes, the parameters are the remaining fields in order, and the checksum is the parsed hex |
| RoundTrip.ParsedChecksum | src/base/mod.rs:92 | a parsed checksum is the hex value of the text after the last `*` |
| RoundTrip.BadChecksumPanics | src/base/mod.rs:92 | checksum text that is not a hex byte panics at the `unwrap` |
| RoundTrip.ShortPayloadPanics | src/base/mod.rs:86 | a payload shorter than 3 bytes panics at the talker slice |
| RoundTrip.LeadingStarPanics | src/base/mod.rs:74-86 | a line that starts with `*` has an empty payload and panics at the talker slice |
| RoundTrip.NewIsValid | src/base/mod.rs:42-49 | `new()` has checksum 0, which is its computed checksum, so it is valid |
| RoundTrip.NewSentence | src/base/mod.rs:173-186 | `new()` is valid and writes `*00` |
| RoundTrip.NewDoesNotReadBack | src/base/mod.rs:86 | reading back `*00`, the line written for `new()`, panics at the talker slice |
| Units.Measure | src/miscellaneous/vlw.rs:15-17 | a unit-tagged read succeeds iff `parameter` does and passes its error on unchanged; on success it holds the parsed value in the named unit, or feet converted to miles |
| Units.Negated | src/heading/hdg.rs:21 | `-parameter(i)?` is the negated value when the field parses, and the field's error otherwise |
| Units.NegatedOrPanic | src/wind/vwt.rs:15 | `-parameter(i).unwrap()` panics iff the read fails, and otherwise returns the negated value |
| Units.FirstChar | src/gps/rmc.rs:46 | `chars().nth(0)` is present iff the text is non-empty, and is its first character |
| Dispatch.When | src/heading/vtg.rs:13-19 | testing a letter in a missing slot panics; otherwise the test picks one of its two branches |
| Dispatch.SelectFrom | src/miscellaneous/dbs.rs:13-34 | the chosen rule matches and every earlier rule missed; a missing slot is reported at the first rule that reaches it |
| Dispatch.SelectFromCons | src/miscellaneous/dbs.rs:13-34 | looking past a leading rule is looking in the rest of the table |
| Dispatch.FirstDecides | src/miscellaneous/dbs.rs:13-34 | the first rule that does not miss decides the choice |
| Dispatch.MeasureCons | src/miscellaneous/dbs.rs:13-34 | a table of rules behaves as the source's `if`/`else if` chain, one test per rule |
| Dispatch.MeasureFirstHit | src/miscellaneous/mda.rs:15-21 | a table reading is the first matching rule's reading, parse error included; the other slots are not tried |
| Dispatch.FallbackIffAllMiss | src/miscellaneous/vlw.rs:14-18 | a table accessor returns its fallback error iff every rule misses |
| Dispatch.ValueFallbackIffAllMiss | src/heading/vtg.rs:12-20 | the same for accessors that return a bare value |
| Dispatch.PanicsIffSlotMissing | src/miscellaneous/dbs.rs:14-28 | a table accessor panics iff some rule's slot is missing and every rule before it missed |
| Dispatch.MeasuredByRule | src/miscellaneous/dbs.rs:13-34 | every successful table reading comes from a matching rule that all earlier rules let through |
| Dispatch.MeasuredBesideLetter | src/miscellaneous/mda.rs:13-25 | in a table whose values sit just before their letters, a successful reading comes from the field before a matching letter |
| Dispatch.ReferenceLetter | src/heading/vtg.rs:12-20 | the T/M reference rule: value 0 if slot 1 matches, else value 2 if slot 3 matches, else the fallback iff neither matches; when it panics |
| Dispatch.KphFirst | src/wind/mwd.rs:33-49 | `K` at slot 5 or 7 wins; then `M` or `N` at slot 5, then at slot 7; the fallback iff none of these letters is present |
| Dispatch.EastPositive | src/gps/rmc.rs:37-43 | exactly `E` keeps the sign of the value; any other letter negates it; a missing letter slot panics |
| Dispatch.HemisphereFlip | src/heading/hdg.rs:17-23 | replacing `E` by `W` negates the reading |
| Dispatch.LeftRight | src/wind/vwt.rs:13-19 | `R` gives the value, `L` its negation, anything else "Invalid data"; panics iff the letter is missing or `L` meets an unparsable value |
| Dispatch.LeftRightMirror | src/wind/vwr.rs:13-19 | replacing `R` by `L` negates the reading |
| Mda.PressureAsWritten | src/miscellaneous/mda.rs:13-25 | `pressure` as written equals its table: bar at 1, bar at 3, inches of mercury at 1, then inches of mercury at 3 reading field 3 |
| Mda.PressureReadsUnitLetter | src/miscellaneous/mda.rs:20-21 | with inches of mercury only at slot 3, the source parses the letter `I` and fails, while the corrected accessor reads field 2 |
| Mda.Pressure | src/miscellaneous/mda.rs:13-25 | the corrected `pressure` equals the same table with every value read beside its unit letter |
| Mda.PressureTablesBesideUnit | src/miscellaneous/mda.rs:15-21 | every corrected rule reads the field before its letter; the as-written table breaks this at its last rule |
| Mda.PressureReadsBesideUnit | src/miscellaneous/mda.rs:13-25 | a corrected pressure reading always comes from the field before a matching `B` or `I` |
| Mda.TemperatureAt | src/miscellaneous/mda.rs:27-35 | `C` gives Celsius and `F` Fahrenheit of the value field; any other letter is "Invalid data" |
| Mda.AirTemperature | src/miscellaneous/mda.rs:27-35 | the temperature rule with letter 5 and value 4 |
| Mda.WaterTemperature | src/miscellaneous/mda.rs:37-45 | the temperature rule with letter 7 and value 6 |
| Mda.DewPoint | src/miscellaneous/mda.rs:55-63 | the temperature rule with letter 11 and value 10 |
| Mda.RelativeHumidity | src/miscellaneous/mda.rs:47-49 | never panics; succeeds iff field 8 exists and parses, with its value; otherwise "Could not parse" with field 8's text, or the insufficient-parameters error when there is no field 8 |
| Mda.AbsoluteHumidity | src/miscellaneous/mda.rs:51-53 | never panics; succeeds iff field 9 exists and parses, with its value; otherwise "Could not parse" with field 9's text, or the insufficient-parameters error when there is no field 9 |
| Mda.WindDirectionTrue | src/miscellaneous/mda.rs:65-73 | `T` at 13 reads field 12, else `T` at 15 reads field 14, else "Not found" |
| Mda.WindDirectionMagnetic | src/miscellaneous/mda.rs:75-83 | the same with `M` |
| Mda.WindSpeed | src/miscellaneous/mda.rs:85-101 | equals its table: metres per second at 17 or 19, then knots or km/h at 17, then at 19 |
| Mda.WindSpeedMetersPerSecondFirst | src/miscellaneous/mda.rs:85-101 | metres per second at 19 wins over knots or km/h at 17, and a bad value in field 18 is the answer |
| Vlw.DistanceAt | src/miscellaneous/vlw.rs:13-20 | the `M`/`K`/`N` table with fallback "Invalid data"; panics iff the letter slot is missing |
| Vlw.CumulativeDtw | src/miscellaneous/vlw.rs:13-20 | the distance rule with letter 1 and value 0 |
| Vlw.DtwSinceReset | src/miscellaneous/vlw.rs:22-29 | the distance rule with letter 3 and value 2 |
| Vlw.DogCumulative | src/miscellaneous/vlw.rs:31-38 | the distance rule with letter 5 and value 4 |
| Vlw.DogSinceReset | src/miscellaneous/vlw.rs:40-47 | the distance rule with letter 7 and value 6 |
| Vlw.DistanceUnitLetter | src/miscellaneous/vlw.rs:13-20 | `M` means metres, `K` kilometres, `N` nautical miles; "Invalid data" iff the letter is none of them |
| Vtg.CogTrue | src/heading/vtg.rs:12-20 | the `T` reference rule with fallback "Not found." |
| Vtg.CogMag | src/heading/vtg.rs:22-30 | the `M` reference rule with fallback "Not found." |
| Vtg.Sog | src/heading/vtg.rs:32-48 | equals its table: knots at 5, then 7; then mph or km/h at 5, then at 7; else "Not found" |
| Vtg.FaaMode | src/heading/vtg.rs:50-54 | present iff field 8 exists and is non-empty, and is its first character; never panics |
| Vtg.CoursesReadDifferentFields | src/heading/vtg.rs:12-30 | with `T` at 1 and `M` at 3, the true course reads field 0 and the magnetic course field 2 |
| Vtg.SogPrefersKnots | src/heading/vtg.rs:32-37 | `N` in slot 5 or 7 wins over every other letter |
| Vtg.SogSlotFiveFirst | src/heading/vtg.rs:38-46 | without knots, `M` gives mph and `K` km/h, slot 5 before slot 7 |
| Vtg.SogNotFound | src/heading/vtg.rs:32-48 | "Not found" iff neither slot holds `N`, `M` or `K` |
| Mwd.DirectionTrue | src/wind/mwd.rs:13-21 | the `T` reference rule with fallback "Not found" |
| Mwd.DirectionMagnetic | src/wind/mwd.rs:23-31 | the `M` reference rule with fallback "Not found" |
| Mwd.WindSpeed | src/wind/mwd.rs:33-49 | equals the km/h-first table with fallback "Not found" |
| Mwd.DirectionsByReference | src/wind/mwd.rs:13-31 | which field each direction reads, and "Not found" iff its letter is in neither slot |
| Mwd.WindSpeedPrefersKph | src/wind/mwd.rs:33-37 | `K` in slot 5 or 7 wins, and a bad value beside it is the answer |
| Mwd.WindSpeedNotFound | src/wind/mwd.rs:33-49 | "Not found" iff neither slot holds `K`, `M` or `N` |
| Vhw.HeadingTrue | src/wind/vhw.rs:13-21 | the `T` reference rule with fallback "Not found." |
| Vhw.HeadingMagnetic | src/wind/vhw.rs:23-31 | the `M` reference rule with fallback "Not found." |
| Vhw.WaterSpeed | src/wind/vhw.rs:33-49 | equals the km/h-first table with fallback "Not found" |
| Vhw.HeadingsByReference | src/wind/vhw.rs:13-31 | when each heading panics, which field it reads, and when it is "Not found." |
| Vhw.WaterSpeedUnits | src/wind/vhw.rs:38-47 | without km/h, `M` gives mph and `N` knots, slot 5 before 7; "Not found" iff neither |
| Mwv.AngleFor | src/wind/mwv.rs:13-35 | panics iff the status slot is missing; a status other than `A` is "Data not valid."; a wrong reference is "Not found."; status `A` with the right reference passes field 0's read through, parse error included |
| Mwv.AngleRelative | src/wind/mwv.rs:13-23 | panics iff the status slot is missing; a status other than `A` is "Data not valid."; a reference other than `R` is "Not found."; otherwise field 0's read, parse error included |
| Mwv.AngleTrue | src/wind/mwv.rs:25-35 | panics iff the status slot is missing; a status other than `A` is "Data not valid."; a reference other than `T` is "Not found."; otherwise field 0's read, parse error included |
| Mwv.WindSpeed | src/wind/mwv.rs:37-48 | panics iff the status slot is missing; "Invalid data" unless the status is `A`; otherwise the unit table at slot 3 |
| Mwv.StatusChecked | src/wind/mwv.rs:13-48 | a status other than `A` is reported by all three accessors, whatever the other fields hold |
| Mwv.AnglesExclusive | src/wind/mwv.rs:13-35 | the relative and the true angle are never both successful |
| Mwv.WindSpeedUnits | src/wind/mwv.rs:39-44 | `M` gives mph, `N` knots, `K` km/h of field 2; "Not found" iff none |
| Dbs.Depth | src/miscellaneous/dbs.rs:13-35 | equals its table: `M` at 1, 3, 5, then `f` at 1, 3, 5; else "Invalid data." |
| Dbs.Offset | src/miscellaneous/dbs.rs:37-39 | never panics; metres of field 1 iff it exists and parses; otherwise "Could not parse" with field 1's text, or the insufficient-parameters error when there is no field 1 |
| Dbs.MaximumRange | src/miscellaneous/dbs.rs:41-43 | never panics; metres of field 2 iff it exists and parses; otherwise "Could not parse" with field 2's text, or the insufficient-parameters error when there is no field 2 |
| Dbs.DepthPrefersMeters | src/miscellaneous/dbs.rs:14-31 | an `M` in any slot wins over an `f` in an earlier slot |
| Dbs.DepthFeet | src/miscellaneous/dbs.rs:20-34 | without `M`, the first `f` slot is read as feet; "Invalid data." iff no slot holds `f` |
| Dbs.FeetAreMiles | src/miscellaneous/dbs.rs:20-23 | a feet depth is stored as miles, the parsed value divided by 5280 |
| Dbt.Depth | src/miscellaneous/dbt.rs:13-35 | equals the DBS depth table |
| Dbt.SameAsDbs | src/miscellaneous/dbt.rs:13-35 | DBT depth and DBS depth agree on every sentence |
| Dbt.DepthParseErrorPropagates | src/miscellaneous/dbt.rs:14-15 | with `M` at slot 1 and an unparsable field 0, the parse error is returned and no other slot is tried |
| Rmc.DataValid | src/gps/rmc.rs:21-23 | panics iff field 1 is missing; true iff it is `A` |
| Rmc.Sog | src/gps/rmc.rs:29-31 | never panics; knots of field 6 iff it exists and parses; otherwise "Could not parse" with field 6's text, or the insufficient-parameters error when there is no field 6 |
| Rmc.TrackMadeGood | src/gps/rmc.rs:33-35 | never panics; field 7 iff it exists and parses; otherwise "Could not parse" with field 7's text, or the insufficient-parameters error when there is no field 7 |
| Rmc.MagneticVariation | src/gps/rmc.rs:37-43 | panics iff field 10 is missing; `E` keeps the sign of field 9, anything else negates it |
| Rmc.FaaMode | src/gps/rmc.rs:45-47 | panics iff field 11 is missing; present iff it is non-empty, and its first character |
| Rmc.NavStatus | src/gps/rmc.rs:49-51 | panics iff field 12 is missing; present iff it is non-empty, and its first character |
| Rmc.VariationSignRule | src/gps/rmc.rs:37-43 | `W`, empty and lower-case `e` all negate |
| Rmc.VariationHemispheres | src/gps/rmc.rs:37-43 | replacing `E` by `W` negates the variation |
| Vwt.WindDirection | src/wind/vwt.rs:13-19 | the left/right rule: `R` the value, `L` its negation (panicking on a bad value), else "Invalid data" |
| Vwt.WindSpeed | src/wind/vwt.rs:21-37 | equals its table: m/s at 3, 5, 7, then km/h at 3, 5, 7; else "Invalid data" |
| Vwt.WindSpeedPrefersMetersPerSecond | src/wind/vwt.rs:22-27 | an `M` in any slot wins over a `K` in an earlier slot |
| Vwt.WindSpeedInvalid | src/wind/vwt.rs:21-37 | "Invalid data" iff no slot holds `M` or `K`; knots (`N`) are never accepted |
| Vwr.WindDirection | src/wind/vwr.rs:13-19 | the left/right rule, as a textual copy of the true-wind method: `R` the value, `L` its negation (panicking on a bad value), else "Invalid data" |
| Vwr.LeftUnparsablePanics | src/wind/vwr.rs:15-16 | `L` with an unparsable value panics, while `R` returns the parse error |
| Vbw.WaterSpeed | src/wind/vbw.rs:13-19 | panics iff field 2 is missing; knots of field 0 when it is `A`, else "Invalid speed" |
| Vbw.TransverseWaterSpeed | src/wind/vbw.rs:21-27 | panics iff field 2 is missing; knots of field 1 when it is `A`, else "Invalid speed." |
| Vbw.GroundSpeed | src/wind/vbw.rs:29-35 | panics iff field 5 is missing; field 3 when it is `A`, else `Ok(0.0)`: never a status error |
| Vbw.TransverseGroundSpeed | src/wind/vbw.rs:37-43 | panics iff field 5 is missing; knots of field 4 when it is `A`, else "No speed present" |
| Vbw.GatesIndependent | src/wind/vbw.rs:13-43 | the water speeds ignore the ground status and the ground speeds ignore the water status |
| Rsa.Angle | src/miscellaneous/rsa.rs:12-18 | panics iff field 1 is missing; succeeds iff it is `A` and field 0 parses; any other status is "Not found" |
| Rsa.StarboardRudder | src/miscellaneous/rsa.rs:20-22 | is `angle` |
| Rsa.PortRudder | src/miscellaneous/rsa.rs:24-30 | panics iff field 3 is missing; succeeds iff it is `A` and field 2 parses; any other status is "Not found" |
| Rsa.RuddersIndependent | src/miscellaneous/rsa.rs:12-30 | starboard ignores the port status and port ignores the starboard status |
| Mtw.Temperature | src/miscellaneous/mtw.rs:13-19 | the temperature rule at letter 1 and value 0 with fallback "Not found" |
| Mtw.TemperatureUnits | src/miscellaneous/mtw.rs:13-19 | `C` gives Celsius, `F` Fahrenheit; "Not found" iff neither |
| Hdg.MagneticHeading | src/heading/hdg.rs:13-15 | never panics; field 0 iff it exists and parses; otherwise "Could not parse" with field 0's text, or the insufficient-parameters error when there is no field 0 |
| Hdg.MagneticDeviation | src/heading/hdg.rs:17-23 | panics iff field 2 is missing; `E` keeps the sign of field 1, anything else negates it |
| Hdg.MagneticVariation | src/heading/hdg.rs:25-31 | panics iff field 4 is missing; `E` keeps the sign of field 3, anything else negates it |
| Hdg.HemisphereNegates | src/heading/hdg.rs:17-31 | replacing `E` by `W` negates deviation and variation |
| Gsv.SentenceTotal | src/gps/gsv.rs:21-23 | field 0 iff it exists and parses; otherwise "Could not parse" with field 0's text, or the insufficient-parameters error when there is no field 0 |
| Gsv.SentenceNumber | src/gps/gsv.rs:25-27 | field 1 iff it exists and parses; otherwise "Could not parse" with field 1's text, or the insufficient-parameters error when there is no field 1 |
| Gsv.NumberOfSatellites | src/gps/gsv.rs:29-31 | field 2 iff it exists and parses; otherwise "Could not parse" with field 2's text, or the insufficient-parameters error when there is no field 2 |
| Gsv.Satellite | src/gps/gsv.rs:33-44 | "Invalid index" iff `4n+6 >= len`; success iff, in addition, fields `4n+3` to `4n+6` all parse, giving id, elevation, azimuth and SNR in that order; never the insufficient-parameters error |
| Gsv.FirstBadFieldReported | src/gps/gsv.rs:36-39 | one unparsable field fails the record, and the first such field is the one reported |
| Gsv.SlotsDisjoint | src/gps/gsv.rs:36-39 | different satellites read disjoint fields |
| Gsv.OnlyOwnSlots | src/gps/gsv.rs:33-44 | changing a field outside a satellite's four fields does not change that satellite |
| Xdr.GroupInBounds | src/miscellaneous/xdr.rs:22-29 | a group index that passes the guard has all four fields in bounds, below the trailing `len mod 4` fields |
| Xdr.Measurements | src/miscellaneous/xdr.rs:21-32 | "Index out of range" iff `index >= len / 4`; panics iff the type field is empty, or the data parses and the units field is empty; otherwise the transducer, or the data field's parse error |
| Xdr.TrailingFieldsUnread | src/miscellaneous/xdr.rs:22 | the trailing `len mod 4` fields change no measurement |
| Xdr.EvaluationOrder | src/miscellaneous/xdr.rs:25-30 | the type field is read before the data field, and the data field before the units field |
| Vdm.TotalSentences | src/ais/vdm.rs:13-15 | never panics; field 0 iff it exists and parses; otherwise "Could not parse" with field 0's text, or the insufficient-parameters error when there is no field 0 |
| Vdm.SentenceNumber | src/ais/vdm.rs:17-19 | never panics; field 1 iff it exists and parses; otherwise "Could not parse" with field 1's text, or the insufficient-parameters error when there is no field 1 |
| Vdm.SentenceId | src/ais/vdm.rs:21-23 | never panics; field 2 iff it exists and parses; otherwise "Could not parse" with field 2's text, or the insufficient-parameters error when there is no field 2 |
| Vdm.Channel | src/ais/vdm.rs:25-31 | panics iff field 3 is missing; its first character when it is non-empty, else "Invalid data" |
| Vdm.Message | src/ais/vdm.rs:33-35 | panics iff field 4 is missing; otherwise field 4 unchanged |

## Left out

- `from_reader` (src/base/mod.rs:51-65) reads a line from a stream. It is I/O, and everything after the read is `from_string`.
- `naive_time` and `naive_date` (src/base/mod.rs:112-124) hand the field to chrono's format parser, which is not part of this model. They index the field without a bounds check.
- `position` (src/base/mod.rs:126-155) is left out because it uses `f64` floor and ceil, an `as i8` cast and a foreign `Position` type.
- The arithmetic of `Temperature`, `Distance`, `Speed` and `Pressure` (src/base/mod.rs:197-356) is `f32` arithmetic. The constructors are unit tags here. The only arithmetic kept is the feet-to-miles division of DBS and DBT, as an abstract function. `as_feet` divides by 5280, so no inverse law holds for it.
- The time-based sentences (GGA, GLL, ZDA, ZFO, ZTG, BWR, GBS, GRS, GXA, BWC, GST, TRF) and `Rmc::timestamp` are left out. They call time constructors and chrono date arithmetic that are not part of this model.
- `Rmc::position` is left out for the same reasons as `position`.
- The forwarding sentences (HDM, HDT, ROT, DPT, GSA, the AIS module) add nothing beyond `parameter`, Dpt's `from_meters` tag on its reads, Rot's `is_valid` test of its status letter and a first-character `unwrap`. The modelled sentences already cover each of these.
- The `lib.rs` entry point is left out. It only wraps a successful parse in one catch-all variant.
- Rust's `usize` arithmetic is not modelled. Field and satellite indices are unbounded naturals, so the overflow of `n * 4 + 6` in `satellite` for a huge `n` is not modelled.
- `f32` and `usize` parsing (`FromStr`) is abstract: a function from text to an optional value. The model proves nothing about which texts parse.
- Text.Utf8: its contract states the encoded length only, 1 to 4 bytes and 1 exactly for ASCII, not the byte values. The checksum lemmas do not depend on the byte values.
- Framing.ToString: stated for the value returned. The source clones `self` before stamping; `self` is not changed, which holds trivially for immutable values.

## Findings

| source | as written | input that shows it | evidently intended | confidence | as-written member | corrected member |
|---|---|---|---|---|---|---|
| src/miscellaneous/mda.rs:20-21 | with `I` (inches of mercury) only at slot 3, `pressure` parses `parameters[3]`, the unit letter itself | parameters `["", "", "29.9", "I", ...]`: the letter `I` is parsed as `f32`, so the call fails with "Could not parse I" | read the value beside the letter, `parameters[2]`, as every other rule does | not executed | Mda.PressureAsWritten | Mda.Pressure |

`Mda.PressureReadsUnitLetter` exhibits the failing input against both
definitions. `Mda.PressureTablesBesideUnit` shows that only the as-written
table reads a field that is not beside its letter. `Mda.PressureReadsBesideUnit`
proves the intended property of the corrected accessor.
