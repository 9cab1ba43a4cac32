/**
 Turning a line of text into a framed sentence (`from_string`) and a framed
 sentence back into a line (`to_string`), as src/base/mod.rs does it.
 */
module Framing {
  import opened Text
  import opened Sentence

  /** Where `from_string` panics: `parts[0]` of an empty vector when the line
      has no `*`, the slice `&introducer[..3]` when byte 3 is missing or not a
      char boundary, and the `unwrap` of a checksum that is not a hex `u8`. */
  datatype PanicSite = NoChecksumDelimiter | IntroducerSlice | ChecksumNotHex

  /** The three ways `from_string` ends: the framed sentence, its
      `InvalidData` error, or a panic. */
  datatype Parsed = Framed(base: Base) | InvalidData(line: string) | PanickedAt(site: PanicSite)

  /** `from_string`: trim the line, split it on `*`, take the last piece as the
      checksum text and the first as the payload, and frame the payload. */
  function FromString(line: string): (r: Parsed)
    ensures !r.InvalidData?
    ensures r == PanickedAt(NoChecksumDelimiter) <==> '*' !in Trim(line)
  {
    var pieces := Split(Trim(line), '*');
    var checksum := pieces[|pieces| - 1];
    var parts := pieces[..|pieces| - 1];
    SplitCount(Trim(line), '*');
    if |parts| == 0 then
      PanickedAt(NoChecksumDelimiter)
    else
      Frame(line, Trim(parts[0]), ParseHexU8(checksum))
  }

  /** The rest of `from_string` once the payload is cut out and the checksum
      text read as a hex byte (`None` if it is not one): split the payload on
      `,`, cut the first 3 bytes of the first field off as the sender and keep
      the rest of it as the message; the remaining fields are the parameters.
      The slice is taken before the checksum is unwrapped. The empty-split
      branch is dead code. */
  function Frame(line: string, payload: string, checksum: Option<bv8>): (r: Parsed)
    ensures !r.InvalidData? && r != PanickedAt(NoChecksumDelimiter)
  {
    var fields := Split(payload, ',');
    if |fields| == 0 then
      InvalidData(line)
    else
      var introducer := fields[0];
      match CharsInBytes(introducer, 3)
      case None => PanickedAt(IntroducerSlice)
      case Some(k) =>
        match checksum
        case None => PanickedAt(ChecksumNotHex)
        case Some(c) => Framed(Base(introducer[..k], introducer[k..], fields[1..], c))
  }

  /** The `fold` in `to_string`: every parameter with a comma in front. */
  function CommaPrefixed(ps: seq<string>): string
  {
    if |ps| == 0 then "" else CommaPrefixed(ps[..|ps| - 1]) + "," + ps[|ps| - 1]
  }

  /** Everything `to_string` writes before the `*`. */
  function Payload(b: Base): string {
    b.sender + b.message + CommaPrefixed(b.parameters)
  }

  /** The line `to_string` writes for a sentence whose checksum it accepts. */
  function Serialise(b: Base): (r: string)
    ensures |r| == |Payload(b)| + 3 && r[..|Payload(b)|] == Payload(b) && r[|Payload(b)|] == '*'
    ensures r[|Payload(b)| + 1] in UpperHexDigits && r[|Payload(b)| + 2] in UpperHexDigits
    ensures ParseHexU8(r[|Payload(b)| + 1..]) == Some(b.checksum)
  {
    var r := Payload(b) + "*" + Hex2(b.checksum);
    assert r[|Payload(b)| + 1..] == Hex2(b.checksum);
    ParseHex2(b.checksum);
    r
  }

  /** The sentence with the computed checksum written in when it had none (0). */
  function Stamped(b: Base): Base {
    if b.checksum == 0 then b.(checksum := Checksum(b)) else b
  }

  /** `to_string`: the line for a valid sentence; a sentence whose checksum
      is 0 is first stamped with the computed one (one recursive step); any
      other wrong checksum gives nothing. */
  function ToString(b: Base): (r: Option<string>)
    ensures r.None? <==> b.checksum != 0 && !IsValid(b)
    ensures r.Some? ==> IsValid(Stamped(b)) && r.value == Serialise(Stamped(b))
    decreases if b.checksum == 0 then 1 else 0
  {
    if IsValid(b) then
      Some(Serialise(b))
    else if b.checksum == 0 then
      ToString(b.(checksum := Checksum(b)))
    else
      None
  }

  /* ---------------------------------------------------------------------- */
  /* Facts about the comma-prefixed fields                                  */
  /* ---------------------------------------------------------------------- */

  /** The payload is the introducer and the parameters joined by commas. */
  lemma {:induction false} CommaPrefixedJoin(h: string, ps: seq<string>)
    ensures h + CommaPrefixed(ps) == Join([h] + ps, ',')
  {
    if |ps| > 0 {
      var init := ps[..|ps| - 1];
      CommaPrefixedJoin(h, init);
      assert [h] + ps == ([h] + init) + [ps[|ps| - 1]];
      JoinSnoc([h] + init, ps[|ps| - 1], ',');
    } else {
      assert [h] + ps == [h];
    }
  }

  /** A character other than the comma occurs in the comma-prefixed fields
      only if it occurs in one of them. */
  lemma {:induction false} NotInCommaPrefixed(c: char, ps: seq<string>)
    requires c != ','
    requires forall i | 0 <= i < |ps| :: c !in ps[i]
    ensures c !in CommaPrefixed(ps)
  {
    if |ps| > 0 {
      NotInCommaPrefixed(c, ps[..|ps| - 1]);
    }
  }

  /** Splitting a payload on commas gives back the introducer and the parameters. */
  lemma SplitPayload(h: string, ps: seq<string>)
    requires ',' !in h
    requires forall i | 0 <= i < |ps| :: ',' !in ps[i]
    ensures Split(h + CommaPrefixed(ps), ',') == [h] + ps
  {
    CommaPrefixedJoin(h, ps);
    SplitJoin([h] + ps, ',');
  }

  /* ---------------------------------------------------------------------- */
  /* The standard's checksum                                                */
  /* ---------------------------------------------------------------------- */

  /** The byte of `n` commas XOR-ed together. */
  function Commas(n: nat): bv8
  {
    if n == 0 then 0 else Commas(n - 1) ^ 0x2C
  }

  /** Commas cancel in pairs. */
  lemma {:induction false} CommasParity(n: nat)
    ensures Commas(n) == if n % 2 == 1 then 0x2C else 0
  {
    if n > 0 {
      CommasParity(n - 1);
    }
  }

  /** For any map that turns concatenation into XOR and sends a comma to
      0x2C, the comma-prefixed fields weigh what the bare fields weigh plus
      one 0x2C per field. */
  lemma {:induction false} CommaPrefixedWeight(w: string -> bv8, ps: seq<string>)
    requires XorHomomorphism(w) && w(",") == 0x2C
    ensures w(CommaPrefixed(ps)) == w(Flatten(ps)) ^ Commas(|ps|)
  {
    if |ps| > 0 {
      CommaPrefixedWeight(w, ps[..|ps| - 1]);
    } else {
      var e: string := "";
      assert e + e == e;
      assert w(e) == w(e + e) == w(e) ^ w(e);
    }
  }

  /** Each comma XORs in 0x2C, so the commas cancel out in pairs. */
  lemma CommaPrefixedXor(ps: seq<string>)
    ensures TextXor(CommaPrefixed(ps)) == TextXor(Flatten(ps)) ^ Commas(|ps|)
  {
    TextXorIsHomomorphism();
    assert Bytes(",") == [0x2C];
    assert TextXor(",") == 0x2C by {
      assert [0x2C as bv8][..0] == [];
    }
    CommaPrefixedWeight(TextXor, ps);
  }

  /** NMEA 0183 checksums every character between the start delimiter and `*`,
      commas included; this library leaves the commas out. Over the payload it
      writes, the two agree exactly when the sentence has an even number of
      parameters, and otherwise differ by the byte of one comma (0x2C). */
  lemma StandardChecksumDiffersByCommaParity(b: Base)
    ensures TextXor(Payload(b))
         == Checksum(b) ^ (if |b.parameters| % 2 == 1 then 0x2C else 0)
  {
    CommaPrefixedXor(b.parameters);
    CommasParity(|b.parameters|);
    XorBytesAppend(b.sender + b.message, CommaPrefixed(b.parameters));
    XorBytesAppend(b.sender + b.message, Flatten(b.parameters));
  }
}
