/**
  The two-index comparison of component names that flags names within one edit
  of each other, against the recursive definition of the Levenshtein distance.

  A name is the list of its code points after folding; folding is not part of
  this model.
*/
module NameSimilarity {
  type Name = seq<int>

  function Min(a: nat, b: nat): nat {
    if a < b then a else b
  }

  /** Insertions, deletions and replacements needed to turn one name into the other. */
  function Distance(a: Name, b: Name): nat
    decreases |a| + |b|
  {
    if a == [] then |b|
    else if b == [] then |a|
    else
      Min(Min(Distance(a[1..], b) + 1, Distance(a, b[1..]) + 1),
          Distance(a[1..], b[1..]) + (if a[0] == b[0] then 0 else 1))
  }

  lemma {:induction false} DistanceIsSymmetric(a: Name, b: Name)
    ensures Distance(a, b) == Distance(b, a)
    decreases |a| + |b|
  {
    if a != [] && b != [] {
      DistanceIsSymmetric(a[1..], b);
      DistanceIsSymmetric(a, b[1..]);
      DistanceIsSymmetric(a[1..], b[1..]);
    }
  }

  lemma {:induction false} ZeroMeansEqual(a: Name, b: Name)
    ensures Distance(a, b) == 0 <==> a == b
    decreases |a| + |b|
  {
    if a != [] && b != [] {
      ZeroMeansEqual(a[1..], b[1..]);
      assert a == [a[0]] + a[1..] && b == [b[0]] + b[1..];
    }
  }

  lemma {:induction false} AtLeastLengthDifference(a: Name, b: Name)
    ensures Distance(a, b) >= |a| - |b|
    ensures Distance(a, b) >= |b| - |a|
    decreases |a| + |b|
  {
    if a != [] && b != [] {
      AtLeastLengthDifference(a[1..], b);
      AtLeastLengthDifference(a, b[1..]);
      AtLeastLengthDifference(a[1..], b[1..]);
    }
  }

  /** Leaving out the first code point changes the distance by at most one. */
  lemma {:induction false} OneShorter(a: Name, b: Name)
    requires a != []
    ensures Distance(a[1..], b) <= Distance(a, b) + 1
    decreases |a| + |b|
  {
    if b != [] {
      OneShorter(a, b[1..]);
      if |a| == 1 {
        AtLeastLengthDifference(a, b[1..]);
        AtLeastLengthDifference(a, b);
      }
    }
  }

  /** An equal first code point costs nothing. */
  lemma EqualHeads(a: Name, b: Name)
    requires a != [] && b != [] && a[0] == b[0]
    ensures Distance(a, b) == Distance(a[1..], b[1..])
  {
    OneShorter(b, a[1..]);
    DistanceIsSymmetric(b, a[1..]);
    DistanceIsSymmetric(b[1..], a[1..]);
    OneShorter(a, b[1..]);
  }

  /** A different first code point: the one edit has to be the one that the lengths call for. */
  lemma DifferentHeads(a: Name, b: Name)
    requires a != [] && b != [] && a[0] != b[0]
    ensures Distance(a, b) <= 1 <==>
            (if |a| >= |b| then a[1..] else a) == (if |b| >= |a| then b[1..] else b)
  {
    ZeroMeansEqual(a[1..], b);
    ZeroMeansEqual(a, b[1..]);
    ZeroMeansEqual(a[1..], b[1..]);
  }

  datatype Similarity = NoSimilarity | Equivalent | Similar

  /** What the comparison is for. */
  function Expected(a: Name, b: Name): Similarity {
    if a == [] || b == [] then NoSimilarity
    else if a == b then Equivalent
    else if |a| >= 6 && |b| >= 6 && Distance(a, b) <= 1 then Similar
    else NoSimilarity
  }

  lemma ExpectedIsSymmetric(a: Name, b: Name)
    ensures Expected(a, b) == Expected(b, a)
  {
    DistanceIsSymmetric(a, b);
  }

  /** nameSimilarity: long names are accepted if and only if they are within one edit, short ones only when equal. */
  method Compare(a: Name, b: Name) returns (r: Similarity)
    ensures r == Expected(a, b)
    ensures |a| >= 6 && |b| >= 6 ==> (r != NoSimilarity <==> Distance(a, b) <= 1)
    ensures |a| < 6 || |b| < 6 ==> (r != NoSimilarity <==> a == b != [])
    ensures r == Equivalent <==> a == b != []
  {
    hide Distance;
    ZeroMeansEqual(a, b);
    if a == [] || b == [] {
      return NoSimilarity;
    }
    if a == b {
      return Equivalent;
    }
    AtLeastLengthDifference(a, b);
    if |a| < 6 || |b| < 6 || |a| - |b| > 1 || |b| - |a| > 1 {
      return NoSimilarity;
    }
    var i, j, edits := 0, 0, 0;
    assert a[0..] == a && b[0..] == b;
    while i < |a| && j < |b|
      invariant i <= |a| && j <= |b| && edits <= 1
      invariant edits == 0 ==> i == j && Distance(a, b) == Distance(a[i..], b[j..])
      invariant edits == 1 ==> (Distance(a, b) <= 1 <==> a[i..] == b[j..])
      decreases |a| - i + |b| - j
    {
      assert a[i..][1..] == a[i + 1..] && b[j..][1..] == b[j + 1..];
      if a[i] == b[j] {
        EqualHeads(a[i..], b[j..]);
        assert a[i..] == [a[i]] + a[i + 1..] && b[j..] == [b[j]] + b[j + 1..];
        i, j := i + 1, j + 1;
        continue;
      }
      edits := edits + 1;
      if edits > 1 {
        assert a[i..][0] != b[j..][0];
        return NoSimilarity;
      }
      DifferentHeads(a[i..], b[j..]);
      if |a| >= |b| {
        i := i + 1;
      }
      if |b| >= |a| {
        j := j + 1;
      }
    }
    ghost var before := edits;
    edits := edits + (|a| - i + |b| - j);
    if before == 0 {
      ExhaustedDistance(a[i..], b[j..]);
    }
    r := if edits <= 1 then Similar else NoSimilarity;
  }

  lemma ExhaustedDistance(a: Name, b: Name)
    requires a == [] || b == []
    ensures Distance(a, b) == |a| + |b|
  {
  }
}
