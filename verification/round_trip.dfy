/**
 How `from_string` and `to_string` of src/base/mod.rs fit together: which
 sentences survive a trip through text, what every parsed sentence looks
 like, and where parsing panics.
 */
module RoundTrip {
  import opened Text
  import opened Sentence
  import opened Framing

  /** The sentences `to_string` writes in a form `from_string` reads back:
      a sender of exactly 3 bytes that does not start with whitespace, no
      `*` anywhere, no `,` in any field, and no whitespace just before `*`. */
  predicate Framable(b: Base) {
    && |Bytes(b.sender)| == 3
    && |b.sender| > 0 && !IsWhitespace(b.sender[0])
    && '*' !in b.sender && '*' !in b.message
    && ',' !in b.sender && ',' !in b.message
    && (forall i | 0 <= i < |b.parameters| :: '*' !in b.parameters[i] && ',' !in b.parameters[i])
    && |Payload(b)| > 0 && !IsWhitespace(Payload(b)[|Payload(b)| - 1])
  }

  lemma HexDigitsAreNotSpecial(c: char)
    requires c in UpperHexDigits
    ensures !IsWhitespace(c) && c != '*'
  {
  }

  /** Reading back a written sentence gives the same sentence. */
  lemma RoundTrip(b: Base)
    requires Framable(b)
    ensures FromString(Serialise(b)) == Framed(b)
  {
    var p := Payload(b);
    var hex := Hex2(b.checksum);
    var line := Serialise(b);
    assert line == p + ['*'] + hex;
    assert p[0] == b.sender[0];
    HexDigitsAreNotSpecial(hex[0]);
    HexDigitsAreNotSpecial(hex[1]);
    TrimUnchanged(line);
    NotInCommaPrefixed('*', b.parameters);
    assert '*' !in p;
    assert '*' !in hex;
    SplitAround(p, hex, '*');
    SplitWithout(p, '*');
    SplitWithout(hex, '*');
    assert Split(line, '*') == [p, hex];
    TrimUnchanged(p);
    SplitPayload(b.sender + b.message, b.parameters);
    CharsInBytesOfPrefix(b.sender, b.message);
    ParseHex2(b.checksum);
    var introducer := b.sender + b.message;
    assert introducer[..|b.sender|] == b.sender;
    assert introducer[|b.sender|..] == b.message;
  }

  /** Whatever `to_string` writes for a framable sentence reads back as the
      sentence it was asked to write, with the checksum stamped in. */
  lemma ToStringRoundTrip(b: Base)
    requires Framable(b) && ToString(b).Some?
    ensures FromString(ToString(b).value) == Framed(Stamped(b))
  {
    assert Payload(Stamped(b)) == Payload(b);
    RoundTrip(Stamped(b));
  }

  /** The payload text is the introducer and the parameters joined by commas. */
  lemma PayloadJoin(b: Base)
    ensures Payload(b) == Join([b.sender + b.message] + b.parameters, ',')
  {
    CommaPrefixedJoin(b.sender + b.message, b.parameters);
  }

  /** `from_string` frames the text before the first `*`, trimmed again,
      with the text after the last `*` read as the checksum. */
  lemma FromStringCuts(line: string, k: nat)
    requires k < |Trim(line)| && Trim(line)[k] == '*' && '*' !in Trim(line)[..k]
    ensures var pieces := Split(Trim(line), '*');
            FromString(line) == Frame(line, Trim(Trim(line)[..k]), ParseHexU8(pieces[|pieces| - 1]))
  {
    SplitFirst(Trim(line), '*', k);
    FromStringFrames(line);
  }

  /** `from_string` on a line with a `*` (more than one piece) is `Frame` of
      the first piece and the value of the last. */
  lemma FromStringFrames(line: string)
    requires |Split(Trim(line), '*')| > 1
    ensures var pieces := Split(Trim(line), '*');
            FromString(line) == Frame(line, Trim(pieces[0]), ParseHexU8(pieces[|pieces| - 1]))
  {
  }

  /** Everything `from_string` returns is framable, and its payload is the
      trimmed line up to the first `*`, trimmed again. */
  lemma ParsedIsFramable(line: string, b: Base, k: nat)
    requires FromString(line) == Framed(b)
    requires k < |Trim(line)| && Trim(line)[k] == '*' && '*' !in Trim(line)[..k]
    ensures Framable(b)
    ensures Payload(b) == Trim(Trim(line)[..k])
  {
    var pieces := Split(Trim(line), '*');
    FromStringCuts(line, k);
    FramedIsFramable(line, Trim(Trim(line)[..k]), ParseHexU8(pieces[|pieces| - 1]), b);
  }

  /** What `Frame` returns is framable and writes back the payload it was given. */
  lemma FramedIsFramable(line: string, payload: string, checksum: Option<bv8>, b: Base)
    requires Frame(line, payload, checksum) == Framed(b)
    requires payload == Trim(payload)
    requires '*' !in payload
    ensures Framable(b)
    ensures Payload(b) == payload
  {
    var fields := Split(payload, ',');
    FramedFields(line, payload, checksum, b);
    SplitPieces(payload, ',');
    assert |payload| > 0 ==> !IsWhitespace(payload[0]) && !IsWhitespace(payload[|payload| - 1]);
    FieldsFramable(b, payload, fields);
  }

  /** `Frame` cuts the first comma field into sender and message at byte 3,
      keeps the other fields as the parameters and the checksum it was given. */
  lemma FramedFields(line: string, payload: string, checksum: Option<bv8>, b: Base)
    requires Frame(line, payload, checksum) == Framed(b)
    ensures var fields := Split(payload, ',');
            fields[0] == b.sender + b.message && b.parameters == fields[1..]
    ensures |Bytes(b.sender)| == 3
    ensures checksum == Some(b.checksum)
  {
    var introducer := Split(payload, ',')[0];
    var n :| CharsInBytes(introducer, 3) == Some(n);
    assert b.sender == introducer[..n] && b.message == introducer[n..];
    assert introducer == introducer[..n] + introducer[n..];
  }

  /** A sentence cut out of comma fields that join into a payload with no `*`
      and no whitespace at either end is framable and has that payload. */
  lemma FieldsFramable(b: Base, payload: string, fields: seq<string>)
    requires |fields| >= 1 && fields[0] == b.sender + b.message && b.parameters == fields[1..]
    requires Join(fields, ',') == payload
    requires forall i | 0 <= i < |fields| :: ',' !in fields[i]
    requires |Bytes(b.sender)| == 3
    requires |payload| > 0 ==> !IsWhitespace(payload[0]) && !IsWhitespace(payload[|payload| - 1])
    requires '*' !in payload
    ensures Framable(b)
    ensures Payload(b) == payload
  {
    assert fields == [fields[0]] + fields[1..];
    PayloadJoin(b);
    forall i | 0 <= i < |fields|
      ensures '*' !in fields[i]
    {
      JoinHas(fields, ',', i);
    }
    assert forall i | 0 <= i < |b.parameters| :: b.parameters[i] == fields[i + 1];
  }

  /** Every piece of a join occurs in it. */
  lemma {:induction false} JoinHas(ps: seq<string>, d: char, i: nat)
    requires i < |ps|
    ensures forall c | c in ps[i] :: c in Join(ps, d)
  {
    if i > 0 {
      JoinHas(ps[1..], d, i - 1);
    }
  }

  /** The checksum `from_string` keeps is the hex value after the last `*`. */
  lemma ParsedChecksum(line: string, b: Base, k: nat)
    requires FromString(line) == Framed(b)
    requires k < |Trim(line)| && Trim(line)[k] == '*' && '*' !in Trim(line)[k + 1..]
    ensures ParseHexU8(Trim(line)[k + 1..]) == Some(b.checksum)
  {
    var pieces := Split(Trim(line), '*');
    SplitLast(Trim(line), '*', k);
    FromStringFrames(line);
    FramedFields(line, Trim(pieces[0]), ParseHexU8(Trim(line)[k + 1..]), b);
  }

  /** Checksum text after the last `*` that is not a hex byte makes
      `from_string` panic. */
  lemma BadChecksumPanics(line: string, k: nat)
    requires k < |Trim(line)| && Trim(line)[k] == '*' && '*' !in Trim(line)[k + 1..]
    requires ParseHexU8(Trim(line)[k + 1..]).None?
    ensures FromString(line).PanickedAt?
  {
    var pieces := Split(Trim(line), '*');
    SplitLast(Trim(line), '*', k);
    FromStringFrames(line);
    BadHexPanics(line, Trim(pieces[0]));
  }

  lemma BadHexPanics(line: string, payload: string)
    ensures Frame(line, payload, None).PanickedAt?
  {
  }

  /** A payload shorter than 3 bytes makes the 3-byte slice of the
      introducer panic, whatever the checksum. */
  lemma ShortPayloadPanics(line: string, k: nat)
    requires k < |Trim(line)| && Trim(line)[k] == '*' && '*' !in Trim(line)[..k]
    requires |Bytes(Trim(Trim(line)[..k]))| < 3
    ensures FromString(line) == PanickedAt(IntroducerSlice)
  {
    FromStringCuts(line, k);
    ShortIntroducer(Trim(Trim(line)[..k]));
  }

  /** The first comma field of a payload under 3 bytes has no 3-byte prefix. */
  lemma ShortIntroducer(payload: string)
    requires |Bytes(payload)| < 3
    ensures CharsInBytes(Split(payload, ',')[0], 3).None?
  {
    var introducer := Split(payload, ',')[0];
    SplitHeadIsPrefix(payload, ',');
    forall j | 0 <= j <= |introducer|
      ensures |Bytes(introducer[..j])| != 3
    {
      assert introducer[..j] == payload[..j];
      PrefixBytes(payload, j);
    }
  }

  /** `new()` has checksum 0 and that is its computed checksum. */
  lemma NewIsValid()
    ensures IsValid(New()) && Checksum(New()) == 0
  {
    assert Content(New()) == "";
  }

  /** `new()` is valid and writes `*00`. */
  lemma NewSentence()
    ensures IsValid(New())
    ensures ToString(New()) == Some("*00")
  {
    NewIsValid();
    assert Payload(New()) == "";
    assert Serialise(New()) == "*00" by {
      assert Hex2(0) == "00";
    }
  }

  /** A line that starts with `*` has an empty introducer and panics. */
  lemma LeadingStarPanics(line: string)
    requires |Trim(line)| > 0 && Trim(line)[0] == '*'
    ensures FromString(line) == PanickedAt(IntroducerSlice)
  {
    var t := Trim(line);
    var pieces := Split(t, '*');
    assert t[..0] == "";
    FromStringCuts(line, 0);
    EmptyPayloadPanics(line, Trim(t[..0]), ParseHexU8(pieces[|pieces| - 1]));
  }

  lemma EmptyPayloadPanics(line: string, payload: string, checksum: Option<bv8>)
    requires payload == Trim("")
    ensures Frame(line, payload, checksum) == PanickedAt(IntroducerSlice)
  {
    assert payload == "";
    ShortIntroducer(payload);
  }

  /** A line of the shape `*` then two digits panics when read. */
  lemma StarLinePanics(line: string)
    requires |line| == 3 && line[0] == '*' && '0' <= line[2] <= '9'
    ensures FromString(line) == PanickedAt(IntroducerSlice)
  {
    TrimUnchanged(line);
    LeadingStarPanics(line);
  }

  /** What `new()` writes does not read back: its introducer is empty. */
  lemma NewDoesNotReadBack()
    ensures ToString(New()).Some?
    ensures FromString(ToString(New()).value) == PanickedAt(IntroducerSlice)
  {
    NewSentence();
    StarLinePanics(ToString(New()).value);
  }
}
