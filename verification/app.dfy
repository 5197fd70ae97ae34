/**
 * The application flow around the engine: per selected column, the values
 * kept and their ratios give a target distribution and the bucketing of the
 * column; then raking over (column, distribution) pairs, then normalisation.
 * File upload, widgets, display and the Excel export are not modelled: the
 * user's choices arrive as values.
 */
module RimApp {
  import opened Frame
  import opened Wrappers
  import opened Bucketing
  import opened Targets
  import opened Raking
  import opened Normalizing

  /**
   * What the user chose for one selected column: its name, the values kept
   * (from the column's distinct values, in order of appearance) and the
   * ratio entered for each kept value.
   */
  datatype ColumnChoice = ColumnChoice(name: string, keep: seq<Category>, ratios: seq<real>)

  /** The column's target distribution, or why there is none. */
  function Target(choice: ColumnChoice): Result<Distribution, TargetError>
  {
    BuildDistribution(choice.keep, choice.ratios)
  }

  /** The selected column names, in selection order. */
  function Names(choices: seq<ColumnChoice>): (r: seq<string>)
    ensures |r| == |choices| && forall k :: 0 <= k < |choices| ==> r[k] == choices[k].name
  {
    seq(|choices|, k requires 0 <= k < |choices| => choices[k].name)
  }

  /** The list of distributions as the application collects it: one entry per column whose distribution was built, none for the others. */
  function Distributions(choices: seq<ColumnChoice>): (r: seq<Distribution>)
    ensures |r| <= |choices|
  {
    if |choices| == 0 then []
    else
      var last := choices[|choices| - 1];
      Distributions(choices[..|choices| - 1]) + (if Target(last).Success? then [Target(last).value] else [])
  }

  /** Every built distribution together with the column it was built for, in selection order. */
  function TargetPairs(choices: seq<ColumnChoice>): (r: seq<(string, Distribution)>)
    ensures |r| <= |choices|
  {
    if |choices| == 0 then []
    else
      var last := choices[|choices| - 1];
      TargetPairs(choices[..|choices| - 1]) + (if Target(last).Success? then [(last.name, Target(last).value)] else [])
  }

  /** The table's columns after the bucketing of every selected column with at least one kept value, in selection order. */
  function BucketAll(cols: map<string, Column>, choices: seq<ColumnChoice>): (r: map<string, Column>)
    requires forall k :: 0 <= k < |choices| ==> choices[k].name in cols
    ensures r.Keys == cols.Keys && forall name :: name in cols ==> |r[name]| == |cols[name]|
  {
    if |choices| == 0 then cols
    else
      var last := choices[|choices| - 1];
      var before := BucketAll(cols, choices[..|choices| - 1]);
      if |last.keep| > 0 then before[last.name := BucketColumn(last.keep, before[last.name])] else before
  }

  /**
   * The distributions are exactly the second halves of the pairs: the list
   * the application collects has the right distributions, in the right
   * order, and loses only the column each belongs to.
   */
  lemma {:induction false} DistributionsArePairTargets(choices: seq<ColumnChoice>)
    ensures |Distributions(choices)| == |TargetPairs(choices)|
    ensures forall k :: 0 <= k < |TargetPairs(choices)| ==> Distributions(choices)[k] == TargetPairs(choices)[k].1
  {
    if |choices| > 0 {
      DistributionsArePairTargets(choices[..|choices| - 1]);
    }
  }

  /**
   * The collected list has one distribution per selected column exactly when
   * every selected column's distribution was built: only then do the column
   * list and the distribution list have the same length.
   */
  lemma {:induction false} OnePerColumnIffAllBuilt(choices: seq<ColumnChoice>)
    ensures |Distributions(choices)| == |choices| <==> forall j :: 0 <= j < |choices| ==> Target(choices[j]).Success?
  {
    if |choices| > 0 {
      var front := choices[..|choices| - 1];
      OnePerColumnIffAllBuilt(front);
      assert forall j :: 0 <= j < |front| ==> front[j] == choices[j];
    }
  }

  /** Every pair holds a selected column with a built distribution, and every built distribution has its pair. */
  lemma {:induction false} TargetPairsComplete(choices: seq<ColumnChoice>)
    ensures forall k :: 0 <= k < |TargetPairs(choices)| ==> TargetPairs(choices)[k].0 in Names(choices)
    ensures forall j :: 0 <= j < |choices| && Target(choices[j]).Success? ==>
      (choices[j].name, Target(choices[j]).value) in TargetPairs(choices)
  {
    if |choices| > 0 {
      var front := choices[..|choices| - 1];
      TargetPairsComplete(front);
      var pairs := TargetPairs(choices);
      assert forall k :: 0 <= k < |TargetPairs(front)| ==> pairs[k] == TargetPairs(front)[k];
      assert forall k :: 0 <= k < |front| ==> Names(front)[k] == Names(choices)[k];
      assert forall j :: 0 <= j < |front| ==> front[j] == choices[j];
    }
  }

  /**
   * The pairs are aligned: with distinct selected names, the distribution in
   * the pair of a column is the one built from that column's own choice.
   */
  lemma {:induction false} TargetPairsAligned(choices: seq<ColumnChoice>)
    requires forall i, j :: 0 <= i < j < |choices| ==> choices[i].name != choices[j].name
    ensures forall k, j :: 0 <= k < |TargetPairs(choices)| && 0 <= j < |choices| && choices[j].name == TargetPairs(choices)[k].0 ==>
      Target(choices[j]).Success? && Target(choices[j]).value == TargetPairs(choices)[k].1
  {
    if |choices| > 0 {
      var front := choices[..|choices| - 1];
      var last := choices[|choices| - 1];
      TargetPairsAligned(front);
      TargetPairsComplete(front);
      var pairs := TargetPairs(choices);
      var before := TargetPairs(front);
      forall k, j | 0 <= k < |pairs| && 0 <= j < |choices| && choices[j].name == pairs[k].0
        ensures Target(choices[j]).Success? && Target(choices[j]).value == pairs[k].1
      {
        if k < |before| {
          assert pairs[k] == before[k];
          if j == |choices| - 1 {
            assert false;
          } else {
            assert front[j] == choices[j];
          }
        } else {
          assert pairs[k] == (last.name, Target(last).value);
          if j < |choices| - 1 {
            assert false;
          }
        }
      }
    }
  }

  /** When every distribution is built, the pairs follow the selection one for one. */
  lemma {:induction false} AllBuiltPairs(choices: seq<ColumnChoice>)
    requires forall j :: 0 <= j < |choices| ==> Target(choices[j]).Success?
    ensures |TargetPairs(choices)| == |choices|
    ensures forall k :: 0 <= k < |choices| ==> TargetPairs(choices)[k] == (choices[k].name, Target(choices[k]).value)
  {
    if |choices| > 0 {
      var front := choices[..|choices| - 1];
      AllBuiltPairs(front);
      assert forall k :: 0 <= k < |front| ==> front[k] == choices[k];
    }
  }

  /**
   * When the distribution of every selected column is built, pairing the
   * selected names with the collected distributions by position gives the
   * aligned pairs.
   */
  lemma {:induction false} AllBuiltZipAligned(choices: seq<ColumnChoice>)
    requires forall j :: 0 <= j < |choices| ==> Target(choices[j]).Success?
    ensures Zip(Names(choices), Distributions(choices)) == TargetPairs(choices)
  {
    AllBuiltPairs(choices);
    DistributionsArePairTargets(choices);
    var z := Zip(Names(choices), Distributions(choices));
    assert |z| == |choices|;
    forall k | 0 <= k < |z| ensures z[k] == TargetPairs(choices)[k] {
      assert z[k] == (Names(choices)[k], Distributions(choices)[k]);
    }
  }

  /** A selection where the first column keeps nothing and the second keeps one value. */
  const ExampleChoices: seq<ColumnChoice> := [ColumnChoice("gender", [], []), ColumnChoice("age", ["18-34"], [0.4])]

  /** A two-record table for `ExampleChoices`. */
  const ExampleTable: map<string, Column> := map["gender" := ["M", "F"], "age" := ["18-34", "35-54"]]

  /** The age distribution of the example: "18-34" at 0.4 and `Others` at 0.6. */
  lemma {:induction false} ExampleAgeTarget()
    ensures Target(ExampleChoices[1]).Success?
    ensures Target(ExampleChoices[1]).value.Keys == {"18-34", Others}
  {
    assert Sum([0.4]) == 0.4 by {
      assert [0.4][1..] == [];
    }
  }

  /** In the example only "age" gets a distribution, and "gender" is not bucketed. */
  lemma {:induction false} ExampleLists()
    ensures Target(ExampleChoices[1]).Success?
    ensures Distributions(ExampleChoices) == [Target(ExampleChoices[1]).value]
    ensures TargetPairs(ExampleChoices) == [("age", Target(ExampleChoices[1]).value)]
    ensures BucketAll(ExampleTable, ExampleChoices)["gender"] == ["M", "F"]
  {
    ExampleAgeTarget();
    var choices := ExampleChoices;
    assert choices[..1] == [choices[0]];
    assert [choices[0]][..0] == [];
    assert !Target(choices[0]).Success?;
    assert BucketAll(ExampleTable, choices[..1]) == ExampleTable;
  }

  /**
   * Pairing the selected names with the collected distributions by position
   * goes wrong as soon as one selected column gets no distribution. In the
   * example, "gender" keeps nothing and "age" keeps "18-34" at 0.4: the only
   * pair formed is "gender" with the age distribution, whose categories
   * "gender" never takes, so the first update sets every weight to 0 and
   * they stay 0 through all ten passes (normalisation then divides by 0).
   * The aligned pairs hold "age" with its own distribution instead.
   */
  lemma {:induction false} SelectedZipMisaligned()
    ensures Target(ExampleChoices[1]).Success?
    ensures TargetPairs(ExampleChoices) == [("age", Target(ExampleChoices[1]).value)]
    ensures Zip(Names(ExampleChoices), Distributions(ExampleChoices)) == [("gender", Target(ExampleChoices[1]).value)]
    ensures Fits(BucketAll(ExampleTable, ExampleChoices), Zip(Names(ExampleChoices), Distributions(ExampleChoices)), 2)
    ensures AllZero(Rake(BucketAll(ExampleTable, ExampleChoices), Zip(Names(ExampleChoices), Distributions(ExampleChoices)), Ones(2), Passes))
  {
    ExampleLists();
    ExampleAgeTarget();
    var cols := BucketAll(ExampleTable, ExampleChoices);
    var dist := Target(ExampleChoices[1]).value;
    var asWritten := Zip(Names(ExampleChoices), Distributions(ExampleChoices));
    assert asWritten == [("gender", dist)];
    ExampleFirstPassZeroes(cols, dist, asWritten);
    RakeSettlesAtZero(cols, asWritten, Ones(2), Passes);
  }

  lemma {:induction false} ExampleFirstPassZeroes(cols: map<string, Column>, dist: Distribution, pairs: seq<(string, Distribution)>)
    requires "gender" in cols && cols["gender"] == ["M", "F"]
    requires dist.Keys == {"18-34", Others} && pairs == [("gender", dist)]
    ensures Fits(cols, pairs, 2) && AllZero(Pass(cols, pairs, Ones(2)))
  {
    var gender := cols["gender"];
    assert Observed(gender) !! dist.Keys by {
      forall v | v in Observed(gender) ensures v !in dist.Keys {
        var i :| 0 <= i < 2 && gender[i] == v;
      }
    }
    assert pairs[..0] == [];
    UpdateDisjointTargetZeroes(gender, dist, Ones(2));
  }

  /** The pairs name columns of the table, and the table's columns all have `n` records. */
  lemma {:induction false} TargetPairsFit(cols: map<string, Column>, choices: seq<ColumnChoice>, n: nat)
    requires forall name :: name in cols ==> |cols[name]| == n
    requires forall k :: 0 <= k < |choices| ==> choices[k].name in cols
    ensures Fits(cols, TargetPairs(choices), n)
  {
    if |choices| > 0 {
      var front := choices[..|choices| - 1];
      TargetPairsFit(cols, front, n);
      assert forall k :: 0 <= k < |TargetPairs(front)| ==> TargetPairs(choices)[k] == TargetPairs(front)[k];
    }
  }

  /** Ratios that are never negative give targets that are never negative. */
  lemma {:induction false} TargetPairsNonNegative(choices: seq<ColumnChoice>)
    requires forall j, k :: 0 <= j < |choices| && 0 <= k < |choices[j].ratios| ==> choices[j].ratios[k] >= 0.0
    ensures TargetsNonNegative(TargetPairs(choices))
  {
    if |choices| > 0 {
      var front := choices[..|choices| - 1];
      var last := choices[|choices| - 1];
      TargetPairsNonNegative(front);
      assert forall k :: 0 <= k < |TargetPairs(front)| ==> TargetPairs(choices)[k] == TargetPairs(front)[k];
      if Target(last).Success? {
        DistributionNonNegative(last.keep, last.ratios);
      }
    }
  }

  /** With ratios that are never negative (the input widget's minimum is 0), no raked weight is negative. */
  lemma {:induction false} RimWeightsNonNegative(cols: map<string, Column>, choices: seq<ColumnChoice>, n: nat)
    requires forall name :: name in cols ==> |cols[name]| == n
    requires forall k :: 0 <= k < |choices| ==> choices[k].name in cols
    requires forall j, k :: 0 <= j < |choices| && 0 <= k < |choices[j].ratios| ==> choices[j].ratios[k] >= 0.0
    ensures Fits(cols, TargetPairs(choices), n)
    ensures NonNegative(Rake(cols, TargetPairs(choices), Ones(n), Passes))
  {
    TargetPairsFit(cols, choices, n);
    TargetPairsNonNegative(choices);
    RakeNonNegative(cols, TargetPairs(choices), Ones(n), Passes);
  }

  /**
   * A sample already balanced under unit weights keeps them: every pass from
   * all ones leaves all ones, and normalising them changes nothing.
   */
  lemma {:induction false} BalancedSampleKeepsUnitWeights(cols: map<string, Column>, pairs: seq<(string, Distribution)>, n: nat)
    requires Fits(cols, pairs, n) && Balanced(cols, pairs, Ones(n))
    ensures Rake(cols, pairs, Ones(n), Passes) == Ones(n)
    ensures n > 0 ==> Sum(Ones(n)) != 0.0 && Normalized(Ones(n)) == Ones(n)
  {
    RakeBalancedUnchanged(cols, pairs, Ones(n), Passes);
    SumOnes(n);
    if n > 0 {
      var x := n as real;
      assert x / x == 1.0;
      assert NormalizingFactor(Ones(n)) == 1.0;
    }
  }

  /**
   * One update with a column's own distribution hits that distribution
   * exactly, when the kept values (listed once, none named `Others`) come
   * from the column, some value of the column was not kept (so `Others`
   * occurs), no weight is negative and every category of the bucketed
   * column carries positive weight.
   */
  lemma {:induction false} BucketedUpdateHitsTargets(choice: ColumnChoice, col: Column, w: seq<real>)
    requires |col| == |w| && NonNegative(w)
    requires forall c :: c in Observed(BucketColumn(choice.keep, col)) ==> CategorySum(BucketColumn(choice.keep, col), w, c) > 0.0
    requires |choice.ratios| == |choice.keep| && Distinct(choice.keep) && Others !in choice.keep
    requires forall k :: 0 <= k < |choice.keep| ==> choice.keep[k] in Observed(col)
    requires exists i :: 0 <= i < |col| && col[i] !in choice.keep
    requires Target(choice).Success?
    ensures
      var bucketed := BucketColumn(choice.keep, col);
      var dist := Target(choice).value;
      && Sum(Update(bucketed, dist, w)) == Sum(w) > 0.0
      && forall c :: c in Observed(bucketed) ==> c in dist && Share(bucketed, Update(bucketed, dist, w), c) == dist[c]
  {
    var keep := choice.keep;
    BucketedKeptAndOthers(keep, col);
    DistributionSumsToOne(keep, choice.ratios);
    UpdateMarginalExact(BucketColumn(keep, col), Target(choice).value, w, [Others] + keep);
  }

  /** When every kept value occurs and some value is not kept, the bucketed categories are `Others` and the kept values. */
  lemma {:induction false} BucketedKeptAndOthers(keep: seq<Category>, col: Column)
    requires forall k :: 0 <= k < |keep| ==> keep[k] in Observed(col)
    requires exists i :: 0 <= i < |col| && col[i] !in keep
    ensures (set c | c in [Others] + keep) == Observed(BucketColumn(keep, col))
  {
    var kept := set c | c in keep;
    BucketedCategories(keep, col);
    assert Observed(col) * kept == kept;
    assert !(Observed(col) <= kept) by {
      var i :| 0 <= i < |col| && col[i] !in keep;
      assert col[i] in Observed(col);
    }
    assert (set c | c in [Others] + keep) == kept + {Others};
  }

  /**
   * Bucketing touches exactly the columns with kept values: with distinct
   * selected names, a selected column with kept values is bucketed with its
   * own list, and every other column is left as it was.
   */
  lemma {:induction false} BucketAllColumns(cols: map<string, Column>, choices: seq<ColumnChoice>, name: string)
    requires forall k :: 0 <= k < |choices| ==> choices[k].name in cols
    requires forall i, j :: 0 <= i < j < |choices| ==> choices[i].name != choices[j].name
    requires name in cols
    ensures forall j :: 0 <= j < |choices| && choices[j].name == name && |choices[j].keep| > 0 ==>
      BucketAll(cols, choices)[name] == BucketColumn(choices[j].keep, cols[name])
    ensures (forall j :: 0 <= j < |choices| && choices[j].name == name ==> |choices[j].keep| == 0) ==>
      BucketAll(cols, choices)[name] == cols[name]
  {
    if |choices| > 0 {
      var front := choices[..|choices| - 1];
      var last := choices[|choices| - 1];
      var before := BucketAll(cols, front);
      assert forall k :: 0 <= k < |front| ==> front[k] == choices[k];
      BucketAllColumns(cols, front, name);
      if last.name == name {
        assert forall k :: 0 <= k < |front| ==> front[k].name != name;
        assert before[name] == cols[name];
      } else {
        assert BucketAll(cols, choices)[name] == before[name];
      }
    }
  }

  /** The lists for the first `i + 1` choices extend those for the first `i` by choice `i`. */
  lemma {:induction false} PrefixStep(cols: map<string, Column>, choices: seq<ColumnChoice>, i: nat)
    requires i < |choices| && forall k :: 0 <= k < |choices| ==> choices[k].name in cols
    ensures Distributions(choices[..i + 1]) ==
      Distributions(choices[..i]) + (if Target(choices[i]).Success? then [Target(choices[i]).value] else [])
    ensures TargetPairs(choices[..i + 1]) ==
      TargetPairs(choices[..i]) + (if Target(choices[i]).Success? then [(choices[i].name, Target(choices[i]).value)] else [])
    ensures BucketAll(cols, choices[..i + 1]) ==
      var before := BucketAll(cols, choices[..i]);
      if |choices[i].keep| > 0 then before[choices[i].name := BucketColumn(choices[i].keep, before[choices[i].name])] else before
  {
    assert choices[..i + 1][..i] == choices[..i];
  }

  /** Zipping one more pair onto lists of equal length. */
  lemma {:induction false} ZipAppend<A, B>(xs: seq<A>, ys: seq<B>, x: A, y: B)
    requires |xs| == |ys|
    ensures Zip(xs + [x], ys + [y]) == Zip(xs, ys) + [(x, y)]
  {
    var l := Zip(xs + [x], ys + [y]);
    var r := Zip(xs, ys) + [(x, y)];
    assert |l| == |r|;
    forall i | 0 <= i < |l| ensures l[i] == r[i] {
      if i < |xs| {
        assert (xs + [x])[i] == xs[i] && (ys + [y])[i] == ys[i];
      }
    }
  }

  /**
   * The per-column loop of the application: for every selected column with
   * kept values, builds its distribution (when the ratios allow) and buckets
   * the column. Returns the columns whose distribution was built, aligned
   * with the distributions.
   */
  method PrepareColumns(df: DataFrame, choices: seq<ColumnChoice>) returns (columns: seq<string>, distributions: seq<Distribution>)
    requires df.Valid()
    requires forall k :: 0 <= k < |choices| ==> choices[k].name in df.columns
    modifies df
    ensures df.Valid() && df.weight == old(df.weight)
    ensures df.columns == BucketAll(old(df.columns), choices)
    ensures distributions == Distributions(choices)
    ensures |columns| == |distributions| && Zip(columns, distributions) == TargetPairs(choices)
  {
    columns, distributions := [], [];
    var i := 0;
    while i < |choices|
      invariant 0 <= i <= |choices|
      invariant df.Valid() && df.weight == old(df.weight)
      invariant df.columns == BucketAll(old(df.columns), choices[..i])
      invariant distributions == Distributions(choices[..i])
      invariant |columns| == |distributions| && Zip(columns, distributions) == TargetPairs(choices[..i])
    {
      var choice := choices[i];
      PrefixStep(old(df.columns), choices, i);
      if |choice.keep| > 0 {
        var target := BuildDistribution(choice.keep, choice.ratios);
        if target.Success? {
          ZipAppend(columns, distributions, choice.name, target.value);
          columns := columns + [choice.name];
          distributions := distributions + [target.value];
        }
        df.columns := df.columns[choice.name := BucketColumn(choice.keep, df.columns[choice.name])];
      }
      i := i + 1;
    }
    assert choices[..|choices|] == choices;
  }

  /**
   * "Apply RIM Weighting": prepares the selected columns, rakes the weights
   * over the aligned (column, distribution) pairs and normalises them.
   * Normalisation fails exactly when the raked weights add up to 0.
   */
  method RunRimWeighting(df: DataFrame, choices: seq<ColumnChoice>) returns (ok: bool)
    requires df.Valid()
    requires forall k :: 0 <= k < |choices| ==> choices[k].name in df.columns
    modifies df, df.weight
    ensures df.Valid() && df.columns == BucketAll(old(df.columns), choices)
    ensures Fits(df.columns, TargetPairs(choices), df.n)
    ensures ok <==> Sum(Rake(df.columns, TargetPairs(choices), Ones(df.n), Passes)) != 0.0
    ensures ok ==> df.weight[..] == Normalized(Rake(df.columns, TargetPairs(choices), Ones(df.n), Passes))
    ensures !ok ==> df.weight[..] == Rake(df.columns, TargetPairs(choices), Ones(df.n), Passes)
  {
    var columns, distributions := PrepareColumns(df, choices);
    TargetPairsFit(df.columns, choices, df.n);
    forall k | 0 <= k < |columns| ensures columns[k] in df.columns {
      assert Zip(columns, distributions)[k].0 == columns[k];
    }
    ApplyRimWeighting(df, distributions, columns);
    ok := NormalizeWeights(df);
  }
}
