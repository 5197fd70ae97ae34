/**
 * Normalisation of the weight column: every weight is multiplied by the
 * number of records over the total weight, so the weights add up to the
 * number of records.
 */
module Normalizing {
  import opened Frame

  /** Every weight multiplied by `k`. */
  function Times(w: seq<real>, k: real): (r: seq<real>)
    ensures |r| == |w| && forall i :: 0 <= i < |w| ==> r[i] == w[i] * k
  {
    seq(|w|, i requires 0 <= i < |w| => w[i] * k)
  }

  /** The normalising multiplier: the number of records over the total weight. */
  function NormalizingFactor(w: seq<real>): real
    requires Sum(w) != 0.0
  {
    |w| as real / Sum(w)
  }

  /** The normalised weights. */
  function Normalized(w: seq<real>): (r: seq<real>)
    requires Sum(w) != 0.0
    ensures |r| == |w|
  {
    Times(w, NormalizingFactor(w))
  }

  lemma {:induction false} ScaledBack(s: real, k: real, total: real, n: real)
    requires total != 0.0 && k == n / total && IsProduct(s, k, total)
    ensures s == n
  {
  }

  /** The normalised weights add up to the number of records. */
  lemma {:induction false} NormalizedSum(w: seq<real>)
    requires Sum(w) != 0.0
    ensures Sum(Normalized(w)) == |w| as real
  {
    SumScaled(w, Normalized(w), NormalizingFactor(w));
    ScaledBack(Sum(Normalized(w)), NormalizingFactor(w), Sum(w), |w| as real);
  }

  lemma {:induction false} SameQuotient(a2: real, b2: real, k: real, a: real, b: real)
    requires k != 0.0 && b != 0.0 && IsProduct(a2, k, a) && IsProduct(b2, k, b)
    ensures b2 != 0.0 && a2 / b2 == a / b
  {
    assert b2 != 0.0;
    calc {
      a2 / b2;
      (k * a) / (k * b);
      a / b;
    }
  }

  /**
   * Normalising keeps proportions: every category of every
   * column carries the same share of the total weight as before.
   */
  lemma {:induction false} NormalizedKeepsShares(col: Column, w: seq<real>, c: Category)
    requires |col| == |w| && Sum(w) != 0.0
    ensures Sum(Normalized(w)) != 0.0 && Share(col, Normalized(w), c) == Share(col, w, c)
  {
    var k := NormalizingFactor(w);
    var r := Normalized(w);
    assert k != 0.0;
    CategorySumScaled(col, w, r, k, c);
    SumScaled(w, r, k);
    SameQuotient(CategorySum(col, r, c), Sum(r), k, CategorySum(col, w, c), Sum(w));
  }

  /** Normalising non-negative weights with a positive total gives non-negative weights. */
  lemma {:induction false} NormalizedNonNegative(w: seq<real>)
    requires NonNegative(w) && Sum(w) > 0.0
    ensures NonNegative(Normalized(w))
  {
    var k := NormalizingFactor(w);
    assert k >= 0.0;
    forall i | 0 <= i < |w| ensures Normalized(w)[i] >= 0.0 {
      assert Normalized(w)[i] == w[i] * k;
    }
  }

  /** `df['weight'].sum()`. */
  method TotalWeight(w: array<real>) returns (s: real)
    ensures s == Sum(w[..])
  {
    s := 0.0;
    var i := w.Length;
    while i > 0
      invariant 0 <= i <= w.Length
      invariant s == Sum(w[i..])
    {
      i := i - 1;
      assert w[i..][1..] == w[i + 1..];
      s := w[i] + s;
    }
  }

  /** Multiplies every weight by `k` in place. */
  method MultiplyAll(w: array<real>, k: real)
    modifies w
    ensures w[..] == Times(old(w[..]), k)
  {
    ghost var before := w[..];
    var i := 0;
    while i < w.Length
      invariant 0 <= i <= w.Length
      invariant forall j :: 0 <= j < i ==> w[j] == before[j] * k
      invariant forall j :: i <= j < w.Length ==> w[j] == before[j]
    {
      w[i] := w[i] * k;
      i := i + 1;
    }
    assert forall j :: 0 <= j < w.Length ==> w[..][j] == Times(before, k)[j];
  }

  /**
   * `normalize_weights`: multiplies every weight by the number of records
   * over the total weight. A zero total has no normalising multiplier: the
   * method then reports failure and leaves the weights as they were.
   */
  method NormalizeWeights(df: DataFrame) returns (ok: bool)
    requires df.Valid()
    modifies df.weight
    ensures ok <==> Sum(old(df.weight[..])) != 0.0
    ensures ok ==> df.weight[..] == Normalized(old(df.weight[..]))
    ensures !ok ==> df.weight[..] == old(df.weight[..])
  {
    var total := TotalWeight(df.weight);
    if total == 0.0 {
      return false;
    }
    MultiplyAll(df.weight, df.n as real / total);
    return true;
  }
}
