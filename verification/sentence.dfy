/**
 The framed sentence `Nmea0183Base` of src/base/mod.rs: its four fields, the
 error and outcome types every accessor returns, bounds-checked typed field
 access and the XOR checksum.
 */
module Sentence {
  import opened Text

  const INSUFFICIENT_NUMBER_OF_PARAMETERS := "Insufficient " + "number of parameters in sentence."

  /** `NmeaError(String)`: every recoverable failure carries a message. */
  datatype NmeaError = NmeaError(message: string)

  /** The `Result<T, NmeaError>` an accessor returns. */
  datatype Result<+T> = Ok(value: T) | Err(error: NmeaError)

  /** What calling an accessor does: it returns a value, or the thread
      panics (an index out of bounds, or `unwrap` of a failure). */
  datatype Outcome<+T> = Returned(value: T) | Panicked

  /** Returns the error with the given message. */
  function Fail<T>(message: string): Outcome<Result<T>> {
    Returned(Err(NmeaError(message)))
  }

  /** A framed sentence: a 3-byte talker, the message identifier, the
      comma-separated fields in order and the checksum byte after `*`. */
  datatype Base = Base(sender: string, message: string, parameters: seq<string>, checksum: bv8)

  /** `Nmea0183Base::new`: every field empty and the checksum 0. */
  function New(): Base {
    Base("", "", [], 0)
  }

  /* ---------------------------------------------------------------------- */
  /* Typed field access                                                     */
  /* ---------------------------------------------------------------------- */

  /** The message of a parse failure: "Could not parse {raw}". */
  function CouldNotParse(raw: string): (m: string)
    ensures |m| > 0 && m[0] == 'C'
    ensures m != INSUFFICIENT_NUMBER_OF_PARAMETERS
  {
    var m := "Could not parse " + raw;
    assert m[0] == 'C';
    assert INSUFFICIENT_NUMBER_OF_PARAMETERS[0] == 'I';
    m
  }

  /** `parameter::<T>(n)`, where `parse` stands for `T`'s `FromStr`. Fails for
      a missing field whatever `T` is, and otherwise succeeds exactly when
      the field parses. */
  function Parameter<T>(b: Base, n: nat, parse: string -> Option<T>): (r: Result<T>)
    ensures n >= |b.parameters| <==> r == Err(NmeaError(INSUFFICIENT_NUMBER_OF_PARAMETERS))
    ensures r.Ok? <==> n < |b.parameters| && parse(b.parameters[n]).Some?
    ensures r.Ok? ==> parse(b.parameters[n]) == Some(r.value)
    ensures n < |b.parameters| && r.Err? ==> r.error.message == CouldNotParse(b.parameters[n])
  {
    if |b.parameters| > n then
      match parse(b.parameters[n])
      case Some(v) => Ok(v)
      case None => Err(NmeaError(CouldNotParse(b.parameters[n])))
    else
      Err(NmeaError(INSUFFICIENT_NUMBER_OF_PARAMETERS))
  }

  /* ---------------------------------------------------------------------- */
  /* Checksum                                                               */
  /* ---------------------------------------------------------------------- */

  /** The XOR of a byte sequence, folded from the left as the source's loops do. */
  function XorFold(bs: seq<bv8>): bv8
  {
    if |bs| == 0 then 0 else XorFold(bs[..|bs| - 1]) ^ bs[|bs| - 1]
  }

  lemma {:induction false} XorFoldAppend(a: seq<bv8>, b: seq<bv8>)
    ensures XorFold(a + b) == XorFold(a) ^ XorFold(b)
  {
    if |b| > 0 {
      assert (a + b)[..|a + b| - 1] == a + b[..|b| - 1];
      XorFoldAppend(a, b[..|b| - 1]);
    } else {
      assert a + b == a;
    }
  }

  /** The XOR of a text's bytes splits at any concatenation. */
  lemma XorBytesAppend(s: string, t: string)
    ensures XorFold(Bytes(s + t)) == XorFold(Bytes(s)) ^ XorFold(Bytes(t))
  {
    BytesAppend(s, t);
    XorFoldAppend(Bytes(s), Bytes(t));
  }

  /** The XOR of every byte of a text. */
  function TextXor(s: string): bv8 {
    XorFold(Bytes(s))
  }

  /** A map from sequences to bytes that turns concatenation into XOR. */
  ghost predicate XorHomomorphism<T(!new)>(g: seq<T> -> bv8) {
    forall a: seq<T>, b: seq<T> {:trigger g(a + b)} :: g(a + b) == g(a) ^ g(b)
  }

  /** The XOR of a text's bytes is such a map. */
  lemma TextXorIsHomomorphism()
    ensures XorHomomorphism(TextXor)
  {
    forall s: string, t: string
      ensures TextXor(s + t) == TextXor(s) ^ TextXor(t)
    {
      XorBytesAppend(s, t);
    }
  }

  /** The field texts run together with no delimiter between them. */
  function Flatten(ps: seq<string>): string
  {
    if |ps| == 0 then "" else Flatten(ps[..|ps| - 1]) + ps[|ps| - 1]
  }

  /** What the checksum covers: the sender, the message identifier and every
      parameter, in that order, without commas or the `*`. */
  function Content(b: Base): string {
    b.sender + b.message + Flatten(b.parameters)
  }

  /** The checksum the sentence should carry: the XOR of every byte of its content. */
  function Checksum(b: Base): bv8 {
    XorFold(Bytes(Content(b)))
  }

  /** `is_valid`: the stored checksum is the computed one. */
  predicate IsValid(b: Base) {
    Checksum(b) == b.checksum
  }

  /** One `for c in s.as_bytes() { checksum ^= c; }` loop of `calculate_checksum`. */
  method XorInto(checksum: bv8, bytes: seq<bv8>) returns (r: bv8)
    ensures r == checksum ^ XorFold(bytes)
  {
    r := checksum;
    var i := 0;
    while i < |bytes|
      invariant i <= |bytes|
      invariant r == checksum ^ XorFold(bytes[..i])
    {
      assert bytes[..i + 1][..i] == bytes[..i];
      r := r ^ bytes[i];
      i := i + 1;
    }
    assert bytes[..i] == bytes;
  }

  /** Adding one more parameter XORs in exactly that parameter's bytes. */
  lemma FlattenStep(ps: seq<string>, j: nat)
    requires j < |ps|
    ensures XorFold(Bytes(Flatten(ps[..j + 1]))) == XorFold(Bytes(Flatten(ps[..j]))) ^ XorFold(Bytes(ps[j]))
  {
    assert ps[..j + 1][..j] == ps[..j];
    BytesAppend(Flatten(ps[..j]), ps[j]);
    XorFoldAppend(Bytes(Flatten(ps[..j])), Bytes(ps[j]));
  }

  /** The checksum splits into the sender's, the message's and the parameters' share. */
  lemma ChecksumParts(b: Base)
    ensures XorFold(Bytes(b.sender + b.message + Flatten(b.parameters)))
         == XorFold(Bytes(b.sender)) ^ XorFold(Bytes(b.message)) ^ XorFold(Bytes(Flatten(b.parameters)))
  {
    BytesAppend(b.sender, b.message);
    BytesAppend(b.sender + b.message, Flatten(b.parameters));
    XorFoldAppend(Bytes(b.sender), Bytes(b.message));
    XorFoldAppend(Bytes(b.sender) + Bytes(b.message), Bytes(Flatten(b.parameters)));
  }

  /** The `for p in &self.parameters` loop of `calculate_checksum`. */
  method XorParameters(checksum: bv8, ps: seq<string>) returns (r: bv8)
    ensures r == checksum ^ XorFold(Bytes(Flatten(ps)))
  {
    r := checksum;
    var j := 0;
    while j < |ps|
      invariant j <= |ps|
      invariant r == checksum ^ XorFold(Bytes(Flatten(ps[..j])))
    {
      r := XorInto(r, Bytes(ps[j]));
      FlattenStep(ps, j);
      j := j + 1;
    }
    assert ps[..j] == ps;
  }

  /** `calculate_checksum`: the bytes of the sender, of the message and of
      each parameter in turn XOR-ed into one accumulator that starts at 0. */
  method CalculateChecksum(b: Base) returns (checksum: bv8)
    ensures checksum == XorFold(Bytes(b.sender + b.message + Flatten(b.parameters)))
  {
    checksum := XorInto(0, Bytes(b.sender));
    checksum := XorInto(checksum, Bytes(b.message));
    checksum := XorParameters(checksum, b.parameters);
    ChecksumParts(b);
  }
}
