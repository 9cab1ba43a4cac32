/**
 Algebraic laws of the checksum of src/base/mod.rs. Because it is an XOR
 fold, it only sees which bytes the fields hold, not where they sit: it
 cannot tell reordered parameters apart, nor bytes moved from one field to
 the next, and an empty field adds nothing.
 */
module ChecksumLaws {
  import opened Text
  import opened Sentence

  /* ---------------------------------------------------------------------- */
  /* Any map that turns concatenation into XOR                              */
  /* ---------------------------------------------------------------------- */

  /** Taking one element out takes out exactly its share. */
  lemma RemoveOne<T(!new)>(g: seq<T> -> bv8, xs: seq<T>, j: nat)
    requires XorHomomorphism(g)
    requires j < |xs|
    ensures g(xs) == g(xs[..j] + xs[j + 1..]) ^ g([xs[j]])
  {
    assert xs == (xs[..j] + [xs[j]]) + xs[j + 1..];
    assert g(xs) == g(xs[..j]) ^ g([xs[j]]) ^ g(xs[j + 1..]);
  }

  lemma MultisetRemove<T>(xs: seq<T>, j: nat)
    requires j < |xs|
    ensures multiset(xs[..j] + xs[j + 1..]) == multiset(xs) - multiset{xs[j]}
  {
    assert xs == xs[..j] + [xs[j]] + xs[j + 1..];
  }

  /** Such a map gives the same byte for every ordering of the same elements. */
  lemma {:induction false} PermutationInvariant<T(!new)>(g: seq<T> -> bv8, xs: seq<T>, ys: seq<T>)
    requires XorHomomorphism(g)
    requires multiset(xs) == multiset(ys)
    ensures g(xs) == g(ys)
    decreases |xs|
  {
    if |xs| == 0 {
      assert |ys| == |multiset(ys)| == 0;
    } else {
      var n := |xs| - 1;
      var x := xs[n];
      assert x in multiset(xs);
      var j :| 0 <= j < |ys| && ys[j] == x;
      MultisetRemove(xs, n);
      MultisetRemove(ys, j);
      assert xs[..n] + xs[n + 1..] == xs[..n];
      PermutationInvariant(g, xs[..n], ys[..j] + ys[j + 1..]);
      RemoveOne(g, xs, n);
      RemoveOne(g, ys, j);
    }
  }

  /* ---------------------------------------------------------------------- */
  /* The checksum's shares                                                  */
  /* ---------------------------------------------------------------------- */

  /** The parameters' share of the checksum. */
  function ParametersXor(ps: seq<string>): bv8 {
    TextXor(Flatten(ps))
  }

  lemma {:induction false} FlattenAppend(a: seq<string>, b: seq<string>)
    ensures Flatten(a + b) == Flatten(a) + Flatten(b)
  {
    if |b| > 0 {
      assert (a + b)[..|a + b| - 1] == a + b[..|b| - 1];
      FlattenAppend(a, b[..|b| - 1]);
    } else {
      assert a + b == a;
    }
  }

  lemma ParametersXorIsHomomorphism()
    ensures XorHomomorphism(ParametersXor)
  {
    TextXorIsHomomorphism();
    forall a: seq<string>, b: seq<string>
      ensures ParametersXor(a + b) == ParametersXor(a) ^ ParametersXor(b)
    {
      FlattenAppend(a, b);
    }
  }

  lemma XorFoldIsHomomorphism()
    ensures XorHomomorphism(XorFold)
  {
    forall a: seq<bv8>, b: seq<bv8>
      ensures XorFold(a + b) == XorFold(a) ^ XorFold(b)
    {
      XorFoldAppend(a, b);
    }
  }

  /** The checksum is the sender's, the message's and the parameters' share XOR-ed. */
  lemma ChecksumShares(b: Base)
    ensures Checksum(b) == TextXor(b.sender) ^ TextXor(b.message) ^ ParametersXor(b.parameters)
  {
    ChecksumParts(b);
  }

  /* ---------------------------------------------------------------------- */
  /* Laws                                                                   */
  /* ---------------------------------------------------------------------- */

  /** Reordering the parameters in any way leaves the checksum unchanged. */
  lemma ParameterPermutation(b: Base, qs: seq<string>)
    requires multiset(qs) == multiset(b.parameters)
    ensures Checksum(b.(parameters := qs)) == Checksum(b)
  {
    ChecksumShares(b);
    ChecksumShares(b.(parameters := qs));
    ParametersXorIsHomomorphism();
    PermutationInvariant(ParametersXor, qs, b.parameters);
  }

  /** Any two sentences whose contents hold the same bytes, in whatever
      order and split into whatever fields, have the same checksum. */
  lemma OrderInsensitive(b: Base, c: Base)
    requires multiset(Bytes(Content(b))) == multiset(Bytes(Content(c)))
    ensures Checksum(b) == Checksum(c)
  {
    XorFoldIsHomomorphism();
    PermutationInvariant(XorFold, Bytes(Content(b)), Bytes(Content(c)));
  }

  /** Sentences whose shares agree have the same checksum. */
  lemma SameShares(b: Base, c: Base)
    requires TextXor(b.sender) ^ TextXor(b.message) == TextXor(c.sender) ^ TextXor(c.message)
    requires ParametersXor(b.parameters) == ParametersXor(c.parameters)
    ensures Checksum(b) == Checksum(c)
  {
    ChecksumShares(b);
    ChecksumShares(c);
  }

  lemma FlattenPair(p: string, q: string)
    ensures Flatten([p, q]) == p + q
  {
    assert [p, q][..1] == [p];
    assert [p][..0] == [];
    assert Flatten([p]) == "" + p == p;
  }

  /** Two parameters that run together into the same text have the same share. */
  lemma PairShares(p: string, q: string, x: string, y: string)
    requires p + q == x + y
    ensures ParametersXor([p, q]) == ParametersXor([x, y])
  {
    FlattenPair(p, q);
    FlattenPair(x, y);
  }

  /** Replacing a middle part by one of the same weight keeps the weight. */
  lemma ReplaceMiddle<T(!new)>(g: seq<T> -> bv8, pre: seq<T>, m: seq<T>, n: seq<T>, post: seq<T>)
    requires XorHomomorphism(g)
    requires g(m) == g(n)
    ensures g(pre + m + post) == g(pre + n + post)
  {
  }

  /** Moving text across the boundary of two neighbouring parameters leaves
      the checksum unchanged. */
  lemma ShiftBetweenParameters(b: Base, i: nat, x: string, y: string)
    requires i + 1 < |b.parameters|
    requires x + y == b.parameters[i] + b.parameters[i + 1]
    ensures Checksum(b.(parameters := b.parameters[i := x][i + 1 := y])) == Checksum(b)
  {
    var ps := b.parameters;
    var qs := ps[i := x][i + 1 := y];
    assert ParametersXor(qs) == ParametersXor(ps) by {
      var pre, post := ps[..i], ps[i + 2..];
      assert ps == pre + [ps[i], ps[i + 1]] + post;
      assert qs == pre + [x, y] + post;
      PairShares(ps[i], ps[i + 1], x, y);
      ParametersXorIsHomomorphism();
      ReplaceMiddle(ParametersXor, pre, [ps[i], ps[i + 1]], [x, y], post);
    }
    SameShares(b, b.(parameters := qs));
  }

  /** Moving text across the sender/message boundary leaves the checksum unchanged. */
  lemma ShiftBetweenSenderAndMessage(b: Base, s: string, m: string)
    requires s + m == b.sender + b.message
    ensures Checksum(b.(sender := s, message := m)) == Checksum(b)
  {
    TextXorIsHomomorphism();
    ChecksumShares(b);
    ChecksumShares(b.(sender := s, message := m));
  }

  /** An empty parameter has no share. */
  lemma EmptyShare()
    ensures ParametersXor([""]) == 0
  {
    assert [""][..0] == [];
    assert Flatten([""]) == "";
  }

  /** Inserting a part of weight 0 keeps the weight. */
  lemma InsertZero<T(!new)>(g: seq<T> -> bv8, pre: seq<T>, m: seq<T>, post: seq<T>)
    requires XorHomomorphism(g)
    requires g(m) == 0
    ensures g(pre + m + post) == g(pre + post)
  {
  }

  /** Inserting an empty parameter anywhere leaves the checksum unchanged. */
  lemma EmptyParameter(b: Base, i: nat)
    requires i <= |b.parameters|
    ensures Checksum(b.(parameters := b.parameters[..i] + [""] + b.parameters[i..])) == Checksum(b)
  {
    var ps := b.parameters;
    var qs := ps[..i] + [""] + ps[i..];
    assert ParametersXor(qs) == ParametersXor(ps) by {
      assert ps == ps[..i] + ps[i..];
      EmptyShare();
      ParametersXorIsHomomorphism();
      InsertZero(ParametersXor, ps[..i], [""], ps[i..]);
    }
    SameShares(b, b.(parameters := qs));
  }
}
