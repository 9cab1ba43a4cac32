/**
 Text primitives the sentence engine is built on. Each one models the
 behaviour of the Rust standard-library operation the parser calls:
 `str::trim`, `str::split` on a character, the UTF-8 byte view `as_bytes`,
 byte-offset slicing `&s[..n]`, `u8::from_str_radix(_, 16)` and the `{:02X}`
 formatter. Strings are sequences of Unicode scalar values.
 */
module Text {

  datatype Option<+T> = None | Some(value: T)

  /* ---------------------------------------------------------------------- */
  /* Whitespace and trimming                                                */
  /* ---------------------------------------------------------------------- */

  /** Rust's `char::is_whitespace`: the Unicode White_Space property. */
  predicate IsWhitespace(c: char) {
    var n := c as int;
    || (0x09 <= n <= 0x0D) || n == 0x20 || n == 0x85 || n == 0xA0 || n == 0x1680
    || (0x2000 <= n <= 0x200A) || n == 0x2028 || n == 0x2029 || n == 0x202F
    || n == 0x205F || n == 0x3000
  }

  /** Drops leading whitespace. */
  function TrimStart(s: string): (r: string)
    ensures |r| <= |s| && r == s[|s| - |r|..]
    ensures |r| > 0 ==> !IsWhitespace(r[0])
    ensures forall i | 0 <= i < |s| - |r| :: IsWhitespace(s[i])
  {
    if |s| > 0 && IsWhitespace(s[0]) then TrimStart(s[1..]) else s
  }

  /** Drops trailing whitespace. */
  function TrimEnd(s: string): (r: string)
    ensures |r| <= |s| && r == s[..|r|]
    ensures |r| > 0 ==> !IsWhitespace(r[|r| - 1])
    ensures forall i | |r| <= i < |s| :: IsWhitespace(s[i])
  {
    if |s| > 0 && IsWhitespace(s[|s| - 1]) then TrimEnd(s[..|s| - 1]) else s
  }

  /** `r` is the infix of `s` starting at `a`, and everything around it is whitespace. */
  ghost predicate InfixAmidWhitespace(s: string, r: string, a: nat) {
    && a + |r| <= |s|
    && r == s[a..a + |r|]
    && (forall i | 0 <= i < a :: IsWhitespace(s[i]))
    && (forall i | a + |r| <= i < |s| :: IsWhitespace(s[i]))
  }

  /** Rust's `str::trim`: the infix left after removing whitespace at both ends. */
  function Trim(s: string): (r: string)
    ensures exists a :: InfixAmidWhitespace(s, r, a)
    ensures |r| > 0 ==> !IsWhitespace(r[0]) && !IsWhitespace(r[|r| - 1])
  {
    TrimBothEnds(s);
    TrimEnd(TrimStart(s))
  }

  lemma TrimBothEnds(s: string)
    ensures InfixAmidWhitespace(s, TrimEnd(TrimStart(s)), |s| - |TrimStart(s)|)
  {
    InfixOfSuffix(s, TrimStart(s), TrimEnd(TrimStart(s)));
  }

  /** A prefix `r` of a suffix `t` of `s` is an infix of `s`; whitespace
      around `t` and around `r` within `t` is whitespace around `r` in `s`. */
  lemma InfixOfSuffix(s: string, t: string, r: string)
    requires |t| <= |s| && t == s[|s| - |t|..]
    requires forall i | 0 <= i < |s| - |t| :: IsWhitespace(s[i])
    requires |r| <= |t| && r == t[..|r|]
    requires forall i | |r| <= i < |t| :: IsWhitespace(t[i])
    ensures InfixAmidWhitespace(s, r, |s| - |t|)
  {
    var a := |s| - |t|;
    assert r == s[a..a + |r|];
    forall i | a + |r| <= i < |s|
      ensures IsWhitespace(s[i])
    {
      assert s[i] == t[i - a];
    }
  }

  /** Text that starts and ends with a non-whitespace character is left alone. */
  lemma TrimUnchanged(s: string)
    requires |s| > 0 && !IsWhitespace(s[0]) && !IsWhitespace(s[|s| - 1])
    ensures Trim(s) == s
  {
  }

  /* ---------------------------------------------------------------------- */
  /* Splitting on a delimiter                                               */
  /* ---------------------------------------------------------------------- */

  /** The pieces glued back together with `d` between neighbours. */
  function Join(ps: seq<string>, d: char): string
  {
    if |ps| == 0 then "" else if |ps| == 1 then ps[0] else ps[0] + [d] + Join(ps[1..], d)
  }

  /** Rust's `str::split` on one character: the maximal runs between the
      occurrences of `d`, empty runs kept. */
  function Split(s: string, d: char): (r: seq<string>)
    ensures |r| >= 1
  {
    if |s| == 0 then [""]
    else
      var rest := Split(s[1..], d);
      if s[0] == d then [""] + rest else [[s[0]] + rest[0]] + rest[1..]
  }

  /** The pieces hold no delimiter and join back into the text. */
  lemma {:induction false} SplitPieces(s: string, d: char)
    ensures forall i | 0 <= i < |Split(s, d)| :: d !in Split(s, d)[i]
    ensures Join(Split(s, d), d) == s
  {
    if |s| > 0 {
      var rest := Split(s[1..], d);
      SplitPieces(s[1..], d);
      assert s == [s[0]] + s[1..];
      if s[0] != d {
        assert Join([[s[0]] + rest[0]] + rest[1..], d) == [s[0]] + Join(rest, d);
      }
    }
  }

  /** Text without the delimiter is a single piece. */
  lemma {:induction false} SplitWithout(s: string, d: char)
    requires d !in s
    ensures Split(s, d) == [s]
  {
    if |s| > 0 {
      assert s[0] != d && s == [s[0]] + s[1..];
      SplitWithout(s[1..], d);
    }
  }

  /** Splitting distributes over one occurrence of the delimiter. */
  lemma {:induction false} SplitAround(a: string, b: string, d: char)
    ensures Split(a + [d] + b, d) == Split(a, d) + Split(b, d)
  {
    if |a| == 0 {
      assert a + [d] + b == [d] + b;
      assert ([d] + b)[1..] == b;
    } else {
      assert (a + [d] + b)[1..] == a[1..] + [d] + b;
      SplitAround(a[1..], b, d);
    }
  }

  /** Joining with one more piece puts the delimiter in front of it. */
  lemma {:induction false} JoinSnoc(ps: seq<string>, p: string, d: char)
    requires |ps| >= 1
    ensures Join(ps + [p], d) == Join(ps, d) + [d] + p
  {
    if |ps| > 1 {
      assert (ps + [p])[1..] == ps[1..] + [p];
      JoinSnoc(ps[1..], p, d);
    }
  }

  /** Splitting undoes joining when no piece holds the delimiter. */
  lemma {:induction false} SplitJoin(ps: seq<string>, d: char)
    requires |ps| >= 1
    requires forall i | 0 <= i < |ps| :: d !in ps[i]
    ensures Split(Join(ps, d), d) == ps
  {
    if |ps| == 1 {
      SplitWithout(ps[0], d);
    } else {
      SplitAround(ps[0], Join(ps[1..], d), d);
      SplitWithout(ps[0], d);
      SplitJoin(ps[1..], d);
    }
  }

  /** The first piece is the text before the first delimiter. */
  lemma {:induction false} SplitFirst(s: string, d: char, k: nat)
    requires k < |s| && s[k] == d && d !in s[..k]
    ensures Split(s, d)[0] == s[..k]
    ensures |Split(s, d)| >= 2
  {
    assert s == s[..k] + [d] + s[k + 1..];
    SplitAround(s[..k], s[k + 1..], d);
    SplitWithout(s[..k], d);
  }

  /** The last piece is the text after the last delimiter. */
  lemma {:induction false} SplitLast(s: string, d: char, k: nat)
    requires k < |s| && s[k] == d && d !in s[k + 1..]
    ensures Split(s, d)[|Split(s, d)| - 1] == s[k + 1..]
    ensures |Split(s, d)| >= 2
  {
    assert s == s[..k] + [d] + s[k + 1..];
    SplitAround(s[..k], s[k + 1..], d);
    SplitWithout(s[k + 1..], d);
  }

  /** The first piece is a prefix of the text. */
  lemma {:induction false} SplitHeadIsPrefix(s: string, d: char)
    ensures |Split(s, d)[0]| <= |s| && Split(s, d)[0] == s[..|Split(s, d)[0]|]
  {
    if |s| > 0 {
      SplitHeadIsPrefix(s[1..], d);
    }
  }

  /** Text with no delimiter at all yields exactly one piece, and text with one
      yields at least two. */
  lemma SplitCount(s: string, d: char)
    ensures |Split(s, d)| == 1 <==> d !in s
  {
    if d in s {
      var k :| 0 <= k < |s| && s[k] == d;
      while k > 0 && d in s[..k]
        invariant 0 <= k < |s| && s[k] == d
        decreases k
      {
        var j :| 0 <= j < k && s[..k][j] == d;
        k := j;
      }
      SplitFirst(s, d, k);
    } else {
      SplitWithout(s, d);
    }
  }

  /* ---------------------------------------------------------------------- */
  /* UTF-8 bytes                                                            */
  /* ---------------------------------------------------------------------- */

  /** The UTF-8 encoding of one scalar value (what `as_bytes` shows of it). */
  function Utf8(c: char): (r: seq<bv8>)
    ensures 1 <= |r| <= 4
    ensures |r| == 1 <==> c as int < 0x80
  {
    var n := c as int;
    if n < 0x80 then
      [n as bv8]
    else if n < 0x800 then
      [(0xC0 + n / 0x40) as bv8, (0x80 + n % 0x40) as bv8]
    else if n < 0x10000 then
      [(0xE0 + n / 0x1000) as bv8, (0x80 + (n / 0x40) % 0x40) as bv8, (0x80 + n % 0x40) as bv8]
    else
      [(0xF0 + n / 0x40000) as bv8, (0x80 + (n / 0x1000) % 0x40) as bv8,
       (0x80 + (n / 0x40) % 0x40) as bv8, (0x80 + n % 0x40) as bv8]
  }

  /** Rust's `str::as_bytes`: the UTF-8 encoding of the whole text. */
  function Bytes(s: string): seq<bv8>
  {
    if |s| == 0 then [] else Utf8(s[0]) + Bytes(s[1..])
  }

  lemma {:induction false} BytesAppend(a: string, b: string)
    ensures Bytes(a + b) == Bytes(a) + Bytes(b)
  {
    if |a| > 0 {
      var t := a[1..];
      assert (a + b)[0] == a[0] && (a + b)[1..] == t + b;
      BytesAppend(t, b);
      Associative(Utf8(a[0]), Bytes(t), Bytes(b));
    } else {
      assert a + b == b;
    }
  }

  lemma Associative<T>(x: seq<T>, y: seq<T>, z: seq<T>)
    ensures (x + y) + z == x + (y + z)
  {
  }

  /** Rust's `&s[..n]` takes the first `n` BYTES and panics unless byte `n`
      is a char boundary. The result is the number of whole chars in those
      `n` bytes, or `None` when the slice would panic. */
  function CharsInBytes(s: string, n: nat): (r: Option<nat>)
    ensures r.Some? ==> r.value <= |s| && |Bytes(s[..r.value])| == n
    ensures r.None? ==> forall k | 0 <= k <= |s| :: |Bytes(s[..k])| != n
  {
    if n == 0 then Some(0)
    else if |s| == 0 then None
    else
      PrefixBytesLength(s);
      if |Utf8(s[0])| > n then None
      else
        match CharsInBytes(s[1..], n - |Utf8(s[0])|)
        case None => None
        case Some(k) => Some(k + 1)
  }

  /** The bytes of a nonempty prefix are those of its first char and then the rest. */
  lemma PrefixBytesLength(s: string)
    requires |s| > 0
    ensures forall k | 1 <= k <= |s| :: |Bytes(s[..k])| == |Utf8(s[0])| + |Bytes(s[1..][..k - 1])|
  {
    forall k | 1 <= k <= |s|
      ensures |Bytes(s[..k])| == |Utf8(s[0])| + |Bytes(s[1..][..k - 1])|
    {
      assert s[..k][1..] == s[1..][..k - 1];
    }
  }

  /** A prefix has no more bytes than the whole text. */
  lemma PrefixBytes(s: string, j: nat)
    requires j <= |s|
    ensures |Bytes(s[..j])| <= |Bytes(s)|
  {
    assert s == s[..j] + s[j..];
    BytesAppend(s[..j], s[j..]);
  }

  /** Slicing at the byte length of a prefix always lands on its end. */
  lemma {:induction false} CharsInBytesOfPrefix(a: string, c: string)
    ensures CharsInBytes(a + c, |Bytes(a)|) == Some(|a|)
  {
    if |a| > 0 {
      assert (a + c)[0] == a[0];
      assert (a + c)[1..] == a[1..] + c;
      CharsInBytesOfPrefix(a[1..], c);
    }
  }

  /* ---------------------------------------------------------------------- */
  /* Hexadecimal bytes                                                      */
  /* ---------------------------------------------------------------------- */

  /** Digits `{:02X}` writes: upper-case. */
  const UpperHexDigits := "0123456789ABCDEF"

  /** `char::to_digit(16)`: decimal digits and either case of a-f. */
  function HexDigitValue(c: char): Option<nat>
  {
    if '0' <= c <= '9' then Some(c as int - '0' as int)
    else if 'a' <= c <= 'f' then Some(c as int - 'a' as int + 10)
    else if 'A' <= c <= 'F' then Some(c as int - 'A' as int + 10)
    else None
  }

  predicate AllHexDigits(s: string) {
    forall i | 0 <= i < |s| :: HexDigitValue(s[i]).Some?
  }

  /** The number written by hexadecimal digits, most significant first. */
  function HexValue(s: string): nat
    requires AllHexDigits(s)
  {
    if |s| == 0 then 0
    else HexValue(s[..|s| - 1]) * 16 + HexDigitValue(s[|s| - 1]).value
  }

  /** `u8::from_str_radix(s, 16)`: an optional `+`, then at least one hex
      digit, and a value that fits in a byte (leading zeros allowed). */
  function ParseHexU8(s: string): (r: Option<bv8>)
    ensures r.Some? ==> |s| > 0 && s[0] != '-' && !IsWhitespace(s[0])
  {
    var digits := if |s| > 0 && s[0] == '+' then s[1..] else s;
    if |digits| == 0 || !AllHexDigits(digits) then None
    else
      var v := HexValue(digits);
      if v < 256 then
        assert HexDigitValue(digits[0]).Some?;
        Some(v as bv8)
      else None
  }

  /** `format!("{:02X}", c)`: exactly two upper-case hexadecimal digits. */
  function Hex2(c: bv8): (r: string)
    ensures |r| == 2 && r[0] in UpperHexDigits && r[1] in UpperHexDigits
  {
    [UpperHexDigits[c as int / 16], UpperHexDigits[c as int % 16]]
  }

  lemma UpperDigitValue(d: nat)
    requires d < 16
    ensures HexDigitValue(UpperHexDigits[d]) == Some(d)
  {
  }

  lemma HexValueTwo(x: char, y: char)
    requires HexDigitValue(x).Some? && HexDigitValue(y).Some?
    ensures AllHexDigits([x, y])
    ensures HexValue([x, y]) == HexDigitValue(x).value * 16 + HexDigitValue(y).value
  {
    assert [x][..0] == [];
    assert HexValue([x]) == HexDigitValue(x).value;
    assert [x, y][..1] == [x];
  }

  /** Parsing undoes formatting. */
  lemma ParseHex2(c: bv8)
    ensures ParseHexU8(Hex2(c)) == Some(c)
  {
    var n := c as int;
    var s := Hex2(c);
    UpperDigitValue(n / 16);
    UpperDigitValue(n % 16);
    HexValueTwo(s[0], s[1]);
    assert s == [s[0], s[1]];
    assert HexValue(s) == n;
  }
}
