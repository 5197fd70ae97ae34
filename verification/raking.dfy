/**
 * The raking loop (iterative proportional fitting): weighted marginals per
 * column, adjustment factors with the division-by-zero policy of the
 * original, and ten sequential passes over the (column, target) pairs.
 */
module Raking {
  import opened Frame

  /** The number of outer passes; the original has no convergence test. */
  const Passes: nat := 10

  /**
   * The weighted marginal of a column: the share of the total weight that
   * each observed category carries.
   */
  function SurveyDistribution(col: Column, w: seq<real>): (r: map<Category, real>)
    requires |col| == |w| && Sum(w) != 0.0
    ensures r.Keys == Observed(col)
  {
    map c | c in Observed(col) :: Share(col, w, c)
  }

  /**
   * Target over survey proportion, aligned on the union of both key sets; a
   * category missing from either side, or with proportion 0 (a quotient that
   * is NaN or infinite), gets factor 0.
   */
  function CalculateAdjustmentFactors(dist: Distribution, survey: map<Category, real>): (r: map<Category, real>)
    ensures r.Keys == dist.Keys + survey.Keys
  {
    map c | c in dist.Keys + survey.Keys ::
      if c in dist && c in survey && survey[c] != 0.0 then dist[c] / survey[c] else 0.0
  }

  /**
   * The factors one column update applies, computed from the current weights.
   * With zero total weight every proportion is NaN or infinite, so every
   * quotient is NaN or 0, and every factor is 0.
   */
  function Factors(col: Column, w: seq<real>, dist: Distribution): (r: map<Category, real>)
    requires |col| == |w|
    ensures r.Keys == dist.Keys + Observed(col)
  {
    if Sum(w) == 0.0 then map c | c in dist.Keys + Observed(col) :: 0.0
    else CalculateAdjustmentFactors(dist, SurveyDistribution(col, w))
  }

  /**
   * A category both targeted and observed with non-zero weight gets factor
   * target / (category weight / total weight); every other key gets 0.
   */
  lemma {:induction false} FactorValue(col: Column, w: seq<real>, dist: Distribution, c: Category)
    requires |col| == |w| && c in dist.Keys + Observed(col)
    ensures
      if c in dist && c in Observed(col) && Sum(w) != 0.0 && CategorySum(col, w, c) != 0.0
      then Factors(col, w, dist)[c] == dist[c] / (CategorySum(col, w, c) / Sum(w))
      else Factors(col, w, dist)[c] == 0.0
  {
    if Sum(w) != 0.0 {
      var survey := SurveyDistribution(col, w);
      var f := CalculateAdjustmentFactors(dist, survey);
      assert Factors(col, w, dist) == f;
      if c in dist && c in Observed(col) {
        var p := CategorySum(col, w, c) / Sum(w);
        assert survey[c] == p;
        QuotientZero(CategorySum(col, w, c), Sum(w));
        if p != 0.0 {
          assert f[c] == dist[c] / p;
        }
      }
    }
  }

  lemma {:induction false} QuotientZero(a: real, b: real)
    requires b != 0.0
    ensures a / b == 0.0 <==> a == 0.0
  {
    if a / b == 0.0 {
      assert a == (a / b) * b;
    }
  }

  /** The multiplier of a record with value `v`: its factor, or 1 when the map has no such key. */
  function Multiplier(factors: map<Category, real>, v: Category): real
  {
    if v in factors then factors[v] else 1.0
  }

  /** `r` is `w` with every record's weight multiplied by the multiplier of its value. */
  predicate ScaledBy(col: Column, factors: map<Category, real>, w: seq<real>, r: seq<real>)
  {
    |col| == |w| == |r| && forall i :: 0 <= i < |w| ==> r[i] == w[i] * Multiplier(factors, col[i])
  }

  /** Every record's weight times the multiplier of its value. */
  function Scale(col: Column, factors: map<Category, real>, w: seq<real>): (r: seq<real>)
    requires |col| == |w|
    ensures |r| == |w| && ScaledBy(col, factors, w, r)
  {
    seq(|w|, i requires 0 <= i < |w| => w[i] * Multiplier(factors, col[i]))
  }

  /** One column update: factors from the current weights, then applied to them. */
  function Update(col: Column, dist: Distribution, w: seq<real>): (r: seq<real>)
    requires |col| == |w|
    ensures |r| == |w|
  {
    Scale(col, Factors(col, w, dist), w)
  }

  /** Every pair names a column of the table whose length is the number of weights. */
  predicate Fits(cols: map<string, Column>, pairs: seq<(string, Distribution)>, n: nat)
  {
    forall k :: 0 <= k < |pairs| ==> pairs[k].0 in cols && |cols[pairs[k].0]| == n
  }

  /** One pass: the column updates in list order, each seeing the weights left by the previous. */
  function Pass(cols: map<string, Column>, pairs: seq<(string, Distribution)>, w: seq<real>): (r: seq<real>)
    requires Fits(cols, pairs, |w|)
    ensures |r| == |w|
  {
    if |pairs| == 0 then w
    else
      var last := pairs[|pairs| - 1];
      Update(cols[last.0], last.1, Pass(cols, pairs[..|pairs| - 1], w))
  }

  /** `k` passes, one after the other. */
  function Rake(cols: map<string, Column>, pairs: seq<(string, Distribution)>, w: seq<real>, k: nat): (r: seq<real>)
    requires Fits(cols, pairs, |w|)
    ensures |r| == |w|
  {
    if k == 0 then w else Pass(cols, pairs, Rake(cols, pairs, w, k - 1))
  }

  /** The initial weight column: 1 for every record. */
  function Ones(n: nat): (r: seq<real>)
    ensures |r| == n && forall i :: 0 <= i < n ==> r[i] == 1.0
  {
    seq(n, _ => 1.0)
  }

  /** Unit weights add up to the number of records. */
  lemma {:induction false} SumOnes(n: nat)
    ensures Sum(Ones(n)) == n as real
  {
    if n > 0 {
      assert Ones(n)[1..] == Ones(n - 1);
      SumOnes(n - 1);
    }
  }

  /** `df['weight'] = 1`: every weight of the column becomes 1. */
  method ResetWeights(w: array<real>)
    modifies w
    ensures w[..] == Ones(w.Length)
  {
    var i := 0;
    while i < w.Length
      invariant 0 <= i <= w.Length
      invariant forall k :: 0 <= k < i ==> w[k] == 1.0
    {
      w[i] := 1.0;
      i := i + 1;
    }
  }

  /** `df['weight'] *= df[col].map(factors).fillna(1)`, element by element. */
  method ScaleInPlace(w: array<real>, col: Column, factors: map<Category, real>)
    requires |col| == w.Length
    modifies w
    ensures w[..] == Scale(col, factors, old(w[..]))
  {
    ghost var before := w[..];
    var i := 0;
    while i < w.Length
      invariant 0 <= i <= w.Length
      invariant forall k :: 0 <= k < i ==> w[k] == before[k] * Multiplier(factors, col[k])
      invariant forall k :: i <= k < w.Length ==> w[k] == before[k]
    {
      w[i] := w[i] * Multiplier(factors, col[i]);
      i := i + 1;
    }
    assert forall k :: 0 <= k < w.Length ==> w[..][k] == Scale(col, factors, before)[k];
  }

  /**
   * One column update in place: the factors are computed from the weights as
   * they stand, then every weight is multiplied by its value's multiplier.
   */
  method UpdateColumn(w: array<real>, col: Column, dist: Distribution)
    requires |col| == w.Length
    modifies w
    ensures w[..] == Update(col, dist, old(w[..]))
  {
    var factors := Factors(col, w[..], dist);
    ScaleInPlace(w, col, factors);
  }

  /** One pass in place: the column updates in list order. */
  method RunPass(w: array<real>, cols: map<string, Column>, pairs: seq<(string, Distribution)>)
    requires Fits(cols, pairs, w.Length)
    modifies w
    ensures w[..] == Pass(cols, pairs, old(w[..]))
  {
    ghost var start := w[..];
    var j := 0;
    while j < |pairs|
      invariant 0 <= j <= |pairs|
      invariant w[..] == Pass(cols, pairs[..j], start)
    {
      PassStep(cols, pairs, j, start);
      UpdateColumn(w, cols[pairs[j].0], pairs[j].1);
      j := j + 1;
    }
    assert pairs[..|pairs|] == pairs;
  }

  /** `k` passes in place. */
  method RunPasses(w: array<real>, cols: map<string, Column>, pairs: seq<(string, Distribution)>, k: nat)
    requires Fits(cols, pairs, w.Length)
    modifies w
    ensures w[..] == Rake(cols, pairs, old(w[..]), k)
  {
    ghost var start := w[..];
    var pass := 0;
    while pass < k
      invariant 0 <= pass <= k
      invariant w[..] == Rake(cols, pairs, start, pass)
    {
      RakeStep(cols, pairs, start, pass);
      RunPass(w, cols, pairs);
      pass := pass + 1;
    }
  }

  /**
   * Sets every weight to 1, then runs `Passes` passes over the columns and
   * distributions paired by position, updating the weight column in place.
   */
  method ApplyRimWeighting(df: DataFrame, distributions: seq<Distribution>, columns: seq<string>)
    requires df.Valid()
    requires forall k :: 0 <= k < |columns| ==> columns[k] in df.columns
    modifies df.weight
    ensures df.weight[..] == Rake(df.columns, Zip(columns, distributions), Ones(df.n), Passes)
  {
    var pairs := Zip(columns, distributions);
    ZipFits(df.columns, columns, distributions, df.n);
    ResetWeights(df.weight);
    RunPasses(df.weight, df.columns, pairs, Passes);
  }

  /** Pass `k + 1` runs on the weights left by the first `k`. */
  lemma {:induction false} RakeStep(cols: map<string, Column>, pairs: seq<(string, Distribution)>, w: seq<real>, k: nat)
    requires Fits(cols, pairs, |w|)
    ensures Fits(cols, pairs, |Rake(cols, pairs, w, k)|)
    ensures Rake(cols, pairs, w, k + 1) == Pass(cols, pairs, Rake(cols, pairs, w, k))
  {
  }

  /** Pairing columns of the table with targets gives pairs that fit the table. */
  lemma {:induction false} ZipFits(cols: map<string, Column>, columns: seq<string>, distributions: seq<Distribution>, n: nat)
    requires forall name :: name in cols ==> |cols[name]| == n
    requires forall k :: 0 <= k < |columns| ==> columns[k] in cols
    ensures Fits(cols, Zip(columns, distributions), n)
  {
  }

  /** A pass over the first `j + 1` pairs is the pass over the first `j` followed by the update of pair `j`. */
  lemma {:induction false} PassStep(cols: map<string, Column>, pairs: seq<(string, Distribution)>, j: nat, w: seq<real>)
    requires Fits(cols, pairs, |w|) && j < |pairs|
    ensures Fits(cols, pairs[..j], |w|) && Fits(cols, pairs[..j + 1], |w|)
    ensures Pass(cols, pairs[..j + 1], w) == Update(cols[pairs[j].0], pairs[j].1, Pass(cols, pairs[..j], w))
  {
    assert pairs[..j + 1][..j] == pairs[..j];
  }

  /** Computed factors cover every value of the column, so the fallback multiplier 1 is never used. */
  lemma {:induction false} UpdateUsesCategoryFactor(col: Column, dist: Distribution, w: seq<real>)
    requires |col| == |w|
    ensures forall i :: 0 <= i < |w| ==>
      col[i] in Factors(col, w, dist) && Update(col, dist, w)[i] == w[i] * Factors(col, w, dist)[col[i]]
  {
    forall i | 0 <= i < |w| ensures col[i] in Observed(col) { }
  }

  /** After a column update, each category carries its multiplier times its former weight. */
  lemma {:induction false} ScaledCategorySum(col: Column, factors: map<Category, real>, w: seq<real>, r: seq<real>, c: Category)
    requires ScaledBy(col, factors, w, r)
    ensures IsProduct(CategorySum(col, r, c), Multiplier(factors, c), CategorySum(col, w, c))
  {
    if |col| > 0 {
      ScaledHead(col, factors, w, r, c);
      ScaledCategorySum(col[1..], factors, w[1..], r[1..], c);
      AddProducts(if col[0] == c then r[0] else 0.0, CategorySum(col[1..], r[1..], c), Multiplier(factors, c),
                  if col[0] == c then w[0] else 0.0, CategorySum(col[1..], w[1..], c));
    }
  }

  /** The first record of a scaled column, and the scaled rest. */
  lemma {:induction false} ScaledHead(col: Column, factors: map<Category, real>, w: seq<real>, r: seq<real>, c: Category)
    requires ScaledBy(col, factors, w, r) && |col| > 0
    ensures ScaledBy(col[1..], factors, w[1..], r[1..])
    ensures IsProduct(if col[0] == c then r[0] else 0.0, Multiplier(factors, c), if col[0] == c then w[0] else 0.0)
  {
    forall i | 0 <= i < |w| - 1 ensures r[1..][i] == w[1..][i] * Multiplier(factors, col[1..][i]) {
      assert r[i + 1] == w[i + 1] * Multiplier(factors, col[i + 1]);
    }
  }

  /** A record whose value has no factor keeps its weight (the `fillna(1)` fallback). */
  lemma {:induction false} ScaleKeepsUnmapped(col: Column, factors: map<Category, real>, w: seq<real>, i: nat)
    requires |col| == |w| && i < |w| && col[i] !in factors
    ensures Scale(col, factors, w)[i] == w[i]
  {
    assert Multiplier(factors, col[i]) == 1.0;
  }

  /** A record whose value the target does not name gets weight 0 from the update. */
  lemma {:induction false} UntargetedRecordZeroed(col: Column, dist: Distribution, w: seq<real>, i: nat)
    requires |col| == |w| && i < |w| && col[i] !in dist
    ensures Update(col, dist, w)[i] == 0.0
  {
    var f := Factors(col, w, dist);
    assert col[i] in Observed(col);
    FactorValue(col, w, dist, col[i]);
    assert Multiplier(f, col[i]) == 0.0;
    assert ScaledBy(col, f, w, Update(col, dist, w));
  }

  /** Non-negative weights and targets give non-negative factors. */
  lemma {:induction false} FactorsNonNegative(col: Column, w: seq<real>, dist: Distribution)
    requires |col| == |w| && NonNegative(w)
    requires forall c :: c in dist ==> dist[c] >= 0.0
    ensures forall c :: c in Factors(col, w, dist) ==> Factors(col, w, dist)[c] >= 0.0
  {
    SumNonNegative(w);
    var f := Factors(col, w, dist);
    forall c | c in f ensures f[c] >= 0.0 {
      FactorValue(col, w, dist, c);
      if c in dist && c in Observed(col) && Sum(w) != 0.0 && CategorySum(col, w, c) != 0.0 {
        CategorySumNonNegative(col, w, c);
        var p := CategorySum(col, w, c) / Sum(w);
        QuotientSign(CategorySum(col, w, c), Sum(w));
        QuotientSign(dist[c], p);
      }
    }
  }

  lemma {:induction false} QuotientSign(a: real, b: real)
    requires a >= 0.0 && b > 0.0
    ensures a / b >= 0.0 && (a > 0.0 ==> a / b > 0.0)
  {
  }

  lemma {:induction false} UpdateNonNegative(col: Column, dist: Distribution, w: seq<real>)
    requires |col| == |w| && NonNegative(w)
    requires forall c :: c in dist ==> dist[c] >= 0.0
    ensures NonNegative(Update(col, dist, w))
  {
    FactorsNonNegative(col, w, dist);
  }

  predicate TargetsNonNegative(pairs: seq<(string, Distribution)>)
  {
    forall k, c :: 0 <= k < |pairs| && c in pairs[k].1 ==> pairs[k].1[c] >= 0.0
  }

  lemma {:induction false} PassNonNegative(cols: map<string, Column>, pairs: seq<(string, Distribution)>, w: seq<real>)
    requires Fits(cols, pairs, |w|) && NonNegative(w) && TargetsNonNegative(pairs)
    ensures NonNegative(Pass(cols, pairs, w))
  {
    if |pairs| > 0 {
      var last := pairs[|pairs| - 1];
      PassNonNegative(cols, pairs[..|pairs| - 1], w);
      UpdateNonNegative(cols[last.0], last.1, Pass(cols, pairs[..|pairs| - 1], w));
    }
  }

  /** With non-negative targets the weights stay non-negative through any number of passes. */
  lemma {:induction false} RakeNonNegative(cols: map<string, Column>, pairs: seq<(string, Distribution)>, w: seq<real>, k: nat)
    requires Fits(cols, pairs, |w|) && NonNegative(w) && TargetsNonNegative(pairs)
    ensures NonNegative(Rake(cols, pairs, w, k))
  {
    if k > 0 {
      RakeNonNegative(cols, pairs, w, k - 1);
      PassNonNegative(cols, pairs, Rake(cols, pairs, w, k - 1));
    }
  }

  /** Factor `m` brings category weight `cw` to `t` times `total`. */
  predicate Balances(m: real, cw: real, t: real, total: real)
  {
    m * cw == t * total
  }

  lemma {:induction false} FactorTimesWeight(m: real, t: real, cw: real, total: real)
    requires cw != 0.0 && total != 0.0 && m == t / (cw / total)
    ensures Balances(m, cw, t, total)
  {
    var p := cw / total;
    assert p * total == cw;
    assert p != 0.0;
    assert t / p * p == t;
    calc {
      t / p * cw;
      t / p * (p * total);
      (t / p * p) * total;
    }
  }

  lemma {:induction false} HitFromFactor(cr: real, m: real, cw: real, t: real, total: real)
    requires IsProduct(cr, m, cw) && Balances(m, cw, t, total)
    ensures IsProduct(cr, t, total)
  {
  }

  lemma {:induction false} UnitFactor(t: real, cw: real, total: real)
    requires cw != 0.0 && total != 0.0 && IsProduct(cw, t, total)
    ensures t / (cw / total) == 1.0
  {
    assert cw / total == t;
  }

  /** Category `c` is targeted and carries `total` times its target. */
  predicate CarriesTarget(col: Column, r: seq<real>, dist: Distribution, total: real, c: Category)
    requires |col| == |r|
  {
    c in dist && IsProduct(CategorySum(col, r, c), dist[c], total)
  }

  /** If every category of `cats` carries `total` times its target, the categories carry `total` times the target total. */
  lemma {:induction false} CategoryTotalOfTargets(col: Column, r: seq<real>, dist: Distribution, cats: seq<Category>, total: real)
    requires |col| == |r|
    requires forall k :: 0 <= k < |cats| ==> CarriesTarget(col, r, dist, total, cats[k])
    ensures forall k :: 0 <= k < |cats| ==> cats[k] in dist
    ensures IsProduct(CategoryTotal(col, r, cats), TargetTotal(dist, cats), total)
  {
    if |cats| > 0 {
      assert forall k :: 0 <= k < |cats| - 1 ==> cats[1..][k] == cats[k + 1];
      CategoryTotalOfTargets(col, r, dist, cats[1..], total);
      assert CarriesTarget(col, r, dist, total, cats[0]);
      AddProducts(CategorySum(col, r, cats[0]), CategoryTotal(col, r, cats[1..]), total, dist[cats[0]], TargetTotal(dist, cats[1..]));
    }
  }

  /** A category carrying non-zero weight occurs in the column. */
  lemma {:induction false} WeightedOccurs(col: Column, w: seq<real>, c: Category)
    requires |col| == |w| && CategorySum(col, w, c) != 0.0
    ensures c in Observed(col)
  {
    if col[0] != c {
      WeightedOccurs(col[1..], w[1..], c);
      var i :| 0 <= i < |col[1..]| && col[1..][i] == c;
      assert col[i + 1] == c;
    }
  }

  /** Under non-negative weights, a record of a weightless category weighs 0. */
  lemma {:induction false} WeightlessRecord(col: Column, w: seq<real>, c: Category, i: nat)
    requires |col| == |w| && NonNegative(w) && CategorySum(col, w, c) == 0.0
    requires i < |col| && col[i] == c
    ensures w[i] == 0.0
  {
    CategorySumNonNegative(col[1..], w[1..], c);
    if i > 0 {
      assert col[0] == c ==> w[0] >= 0.0;
      WeightlessRecord(col[1..], w[1..], c, i - 1);
    }
  }

  /** A targeted category carrying positive weight: its factor times its weight is its target times the total. */
  lemma {:induction false} TargetedFactor(col: Column, dist: Distribution, w: seq<real>, c: Category)
    requires |col| == |w| && NonNegative(w)
    requires CategorySum(col, w, c) > 0.0 && c in dist
    ensures Balances(Multiplier(Factors(col, w, dist), c), CategorySum(col, w, c), dist[c], Sum(w))
  {
    WeightedOccurs(col, w, c);
    SumPositive(col, w, c);
    FactorValue(col, w, dist, c);
    FactorTimesWeight(Multiplier(Factors(col, w, dist), c), dist[c], CategorySum(col, w, c), Sum(w));
  }

  /**
   * Under non-negative weights, a targeted category carrying positive weight
   * carries its target times the old total after the update.
   */
  lemma {:induction false} CategoryHitsTarget(col: Column, dist: Distribution, w: seq<real>, c: Category)
    requires |col| == |w| && NonNegative(w)
    requires CategorySum(col, w, c) > 0.0 && c in dist
    ensures CarriesTarget(col, Update(col, dist, w), dist, Sum(w), c)
  {
    var f := Factors(col, w, dist);
    var r := Update(col, dist, w);
    assert r == Scale(col, f, w);
    ScaledCategorySum(col, f, w, r, c);
    TargetedFactor(col, dist, w, c);
    HitFromFactor(CategorySum(col, r, c), Multiplier(f, c), CategorySum(col, w, c), dist[c], Sum(w));
  }

  lemma {:induction false} ShareOfTotal(x: real, t: real, total: real)
    requires total != 0.0 && IsProduct(x, t, total)
    ensures x / total == t
  {
  }

  /**
   * One column update hits its targets exactly: when the weights are not
   * negative, every category that occurs carries positive weight and is
   * targeted, and the targets of the occurring categories sum to 1, the
   * update keeps the (positive) total weight and leaves each category with
   * exactly its target share of it.
   */
  lemma {:induction false} UpdateMarginalExact(col: Column, dist: Distribution, w: seq<real>, cats: seq<Category>)
    requires |col| == |w| && NonNegative(w)
    requires forall c :: c in Observed(col) ==> CategorySum(col, w, c) > 0.0
    requires Distinct(cats) && (set c | c in cats) == Observed(col)
    requires Observed(col) <= dist.Keys
    requires TargetTotal(dist, cats) == 1.0
    ensures Sum(w) > 0.0 && Sum(Update(col, dist, w)) == Sum(w)
    ensures forall c :: c in Observed(col) ==> Share(col, Update(col, dist, w), c) == dist[c]
  {
    var r := Update(col, dist, w);
    var total := Sum(w);
    assert |cats| > 0;
    assert cats[0] in Observed(col);
    SumPositive(col, w, cats[0]);
    forall k | 0 <= k < |cats| ensures CarriesTarget(col, r, dist, total, cats[k]) {
      assert cats[k] in Observed(col);
      CategoryHitsTarget(col, dist, w, cats[k]);
    }
    CategoryTotalOfTargets(col, r, dist, cats, total);
    PartitionSum(col, r, cats);
    assert Sum(r) == total;
    forall c | c in Observed(col) ensures Share(col, r, c) == dist[c] {
      CategoryHitsTarget(col, dist, w, c);
      ShareOfTotal(CategorySum(col, r, c), dist[c], total);
    }
  }

  /**
   * No-op on balanced data: when the weights are not negative and every
   * category already carries its target share of the total weight, an
   * update changes no weight.
   */
  lemma {:induction false} UpdateBalancedUnchanged(col: Column, dist: Distribution, w: seq<real>)
    requires |col| == |w| && NonNegative(w)
    requires forall c :: c in Observed(col) ==> CarriesTarget(col, w, dist, Sum(w), c)
    ensures Update(col, dist, w) == w
  {
    var r := Update(col, dist, w);
    UpdateUsesCategoryFactor(col, dist, w);
    forall i | 0 <= i < |w| ensures r[i] == w[i] {
      assert col[i] in Observed(col);
      BalancedRecordKept(col, dist, w, i);
    }
  }

  /** A record of a category carrying its target keeps its weight: its factor is 1, or it weighs 0. */
  lemma {:induction false} BalancedRecordKept(col: Column, dist: Distribution, w: seq<real>, i: nat)
    requires |col| == |w| && NonNegative(w) && i < |w|
    requires CarriesTarget(col, w, dist, Sum(w), col[i])
    ensures col[i] in Factors(col, w, dist) && w[i] * Factors(col, w, dist)[col[i]] == w[i]
  {
    var c := col[i];
    assert c in Observed(col);
    CategorySumNonNegative(col, w, c);
    if CategorySum(col, w, c) > 0.0 {
      SumPositive(col, w, c);
      FactorValue(col, w, dist, c);
      UnitFactor(dist[c], CategorySum(col, w, c), Sum(w));
    } else {
      WeightlessRecord(col, w, c, i);
    }
  }

  /** Every pair's column already carries its targets under `w`. */
  predicate Balanced(cols: map<string, Column>, pairs: seq<(string, Distribution)>, w: seq<real>)
    requires Fits(cols, pairs, |w|)
  {
    forall k, c :: 0 <= k < |pairs| && c in Observed(cols[pairs[k].0]) ==>
      CarriesTarget(cols[pairs[k].0], w, pairs[k].1, Sum(w), c)
  }

  /** A pass over pairs whose columns all carry their targets changes no weight. */
  lemma {:induction false} PassBalancedUnchanged(cols: map<string, Column>, pairs: seq<(string, Distribution)>, w: seq<real>)
    requires Fits(cols, pairs, |w|) && NonNegative(w) && Balanced(cols, pairs, w)
    ensures Pass(cols, pairs, w) == w
  {
    if |pairs| > 0 {
      var front := pairs[..|pairs| - 1];
      var last := pairs[|pairs| - 1];
      assert forall k :: 0 <= k < |front| ==> front[k] == pairs[k];
      PassBalancedUnchanged(cols, front, w);
      UpdateBalancedUnchanged(cols[last.0], last.1, w);
    }
  }

  /** Any number of passes over balanced weights changes no weight. */
  lemma {:induction false} RakeBalancedUnchanged(cols: map<string, Column>, pairs: seq<(string, Distribution)>, w: seq<real>, k: nat)
    requires Fits(cols, pairs, |w|) && NonNegative(w) && Balanced(cols, pairs, w)
    ensures Rake(cols, pairs, w, k) == w
  {
    if k > 0 {
      RakeBalancedUnchanged(cols, pairs, w, k - 1);
      PassBalancedUnchanged(cols, pairs, w);
    }
  }

  /** The total weight is at least the weight of any category, so it is positive when one category is. */
  lemma {:induction false} SumPositive(col: Column, w: seq<real>, c: Category)
    requires |col| == |w| && NonNegative(w) && CategorySum(col, w, c) > 0.0
    ensures Sum(w) > 0.0
  {
    if |col| > 0 {
      if CategorySum(col[1..], w[1..], c) > 0.0 {
        SumPositive(col[1..], w[1..], c);
      } else {
        SumNonNegative(w[1..]);
      }
    }
  }

  /**
   * A target that names none of the column's categories gives every record
   * factor 0: the update zeroes the whole weight column.
   */
  lemma {:induction false} UpdateDisjointTargetZeroes(col: Column, dist: Distribution, w: seq<real>)
    requires |col| == |w| && Observed(col) !! dist.Keys
    ensures forall i :: 0 <= i < |w| ==> Update(col, dist, w)[i] == 0.0
  {
    UpdateUsesCategoryFactor(col, dist, w);
    forall i | 0 <= i < |w| ensures Factors(col, w, dist)[col[i]] == 0.0 {
      assert col[i] in Observed(col);
      FactorValue(col, w, dist, col[i]);
    }
  }

  predicate AllZero(w: seq<real>)
  {
    forall i :: 0 <= i < |w| ==> w[i] == 0.0
  }

  lemma {:induction false} PassKeepsZero(cols: map<string, Column>, pairs: seq<(string, Distribution)>, w: seq<real>)
    requires Fits(cols, pairs, |w|) && AllZero(w)
    ensures Pass(cols, pairs, w) == w
  {
    if |pairs| > 0 {
      PassKeepsZero(cols, pairs[..|pairs| - 1], w);
    }
  }

  /** When the first pass leaves every weight 0, every later pass keeps them so. */
  lemma {:induction false} RakeSettlesAtZero(cols: map<string, Column>, pairs: seq<(string, Distribution)>, w: seq<real>, k: nat)
    requires Fits(cols, pairs, |w|) && AllZero(Pass(cols, pairs, w)) && k >= 1
    ensures Rake(cols, pairs, w, k) == Pass(cols, pairs, w)
  {
    if k > 1 {
      RakeSettlesAtZero(cols, pairs, w, k - 1);
      PassKeepsZero(cols, pairs, Pass(cols, pairs, w));
    }
  }
}
