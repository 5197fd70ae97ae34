/**
 * The target distribution of one selected column: the ratio entered for
 * every kept value, and `Others` taking whatever is left of 1.
 */
module Targets {
  import opened Frame
  import opened Wrappers

  /** Why no distribution was built for a column. */
  datatype TargetError =
    | NothingKept                    // no value was kept: the column is left alone
    | RatiosTooLarge(total: real)    // the entered ratios add up to 1 or more

  /** A dictionary built from (value, ratio) pairs in order: a later pair for the same value wins. */
  function RatioMap(pairs: seq<(Category, real)>): map<Category, real>
  {
    if |pairs| == 0 then map[]
    else
      var last := pairs[|pairs| - 1];
      RatioMap(pairs[..|pairs| - 1])[last.0 := last.1]
  }

  /** The dictionary's keys are the values of the pairs. */
  lemma {:induction false} RatioMapKeys(pairs: seq<(Category, real)>)
    ensures RatioMap(pairs).Keys == set k | 0 <= k < |pairs| :: pairs[k].0
  {
    if |pairs| > 0 {
      var front := pairs[..|pairs| - 1];
      RatioMapKeys(front);
      assert forall k :: 0 <= k < |front| ==> front[k] == pairs[k];
    }
  }

  /**
   * The distribution of a column from the values kept and their ratios:
   * built only when something is kept and the ratios add up to less than 1,
   * with `Others` set to 1 minus that sum (after, and so over, any kept value
   * of that name).
   */
  function BuildDistribution(keep: seq<Category>, ratios: seq<real>): (r: Result<Distribution, TargetError>)
    ensures r.Success? <==> |keep| > 0 && Sum(ratios) < 1.0
    ensures r.Failure? && |keep| == 0 ==> r.error == NothingKept
    ensures r.Failure? && |keep| > 0 ==> r.error == RatiosTooLarge(Sum(ratios))
    ensures r.Success? && |ratios| == |keep| ==> r.value.Keys == (set c | c in keep) + {Others}
    ensures r.Success? ==> Others in r.value && r.value[Others] == 1.0 - Sum(ratios) && r.value[Others] > 0.0
  {
    if |keep| == 0 then Failure(NothingKept)
    else if Sum(ratios) < 1.0 then
      var kept := RatioMap(Zip(keep, ratios));
      assert |ratios| == |keep| ==> kept.Keys == set c | c in keep by {
        if |ratios| == |keep| {
          var z := Zip(keep, ratios);
          RatioMapKeys(z);
          forall c | c in keep ensures c in kept.Keys {
            var k :| 0 <= k < |keep| && keep[k] == c;
            assert z[k].0 == c;
          }
        }
      }
      Success(kept[Others := 1.0 - Sum(ratios)])
    else Failure(RatiosTooLarge(Sum(ratios)))
  }

  /** With no value repeated, every value's entry in the dictionary is its own ratio. */
  lemma {:induction false} RatioMapValue(pairs: seq<(Category, real)>, k: nat)
    requires k < |pairs|
    requires forall i, j :: 0 <= i < j < |pairs| ==> pairs[i].0 != pairs[j].0
    ensures pairs[k].0 in RatioMap(pairs) && RatioMap(pairs)[pairs[k].0] == pairs[k].1
  {
    if k < |pairs| - 1 {
      var front := pairs[..|pairs| - 1];
      assert front[k] == pairs[k];
      RatioMapValue(front, k);
    }
  }

  /** A kept value other than `Others`, listed once, gets the ratio entered for it. */
  lemma {:induction false} KeptRatio(keep: seq<Category>, ratios: seq<real>, k: nat)
    requires |ratios| == |keep| && Distinct(keep) && k < |keep| && keep[k] != Others
    requires BuildDistribution(keep, ratios).Success?
    ensures BuildDistribution(keep, ratios).value[keep[k]] == ratios[k]
  {
    var z := Zip(keep, ratios);
    assert z[k] == (keep[k], ratios[k]);
    RatioMapValue(z, k);
  }

  /** The targets of values carrying the listed ratios add up to the sum of the ratios. */
  lemma {:induction false} TargetTotalOfRatios(dist: Distribution, keep: seq<Category>, ratios: seq<real>)
    requires |ratios| == |keep|
    requires forall k :: 0 <= k < |keep| ==> keep[k] in dist && dist[keep[k]] == ratios[k]
    ensures TargetTotal(dist, keep) == Sum(ratios)
  {
    if |keep| > 0 {
      assert forall k :: 0 <= k < |keep| - 1 ==> keep[1..][k] == keep[k + 1] && ratios[1..][k] == ratios[k + 1];
      TargetTotalOfRatios(dist, keep[1..], ratios[1..]);
    }
  }

  /**
   * A built distribution is a probability distribution: listing `Others`
   * and then the kept values (none repeated, none named `Others`) lists
   * every key once, and their targets add up to 1.
   */
  lemma {:induction false} DistributionSumsToOne(keep: seq<Category>, ratios: seq<real>)
    requires |ratios| == |keep| && Distinct(keep) && Others !in keep
    requires BuildDistribution(keep, ratios).Success?
    ensures Distinct([Others] + keep)
    ensures (set c | c in [Others] + keep) == BuildDistribution(keep, ratios).value.Keys
    ensures TargetTotal(BuildDistribution(keep, ratios).value, [Others] + keep) == 1.0
  {
    var dist := BuildDistribution(keep, ratios).value;
    var cats := [Others] + keep;
    forall i, j | 0 <= i < j < |cats| ensures cats[i] != cats[j] {
      assert cats[j] == keep[j - 1];
      if i > 0 {
        assert cats[i] == keep[i - 1];
      }
    }
    assert (set c | c in cats) == (set c | c in keep) + {Others};
    forall k | 0 <= k < |keep| ensures keep[k] in dist && dist[keep[k]] == ratios[k] {
      KeptRatio(keep, ratios, k);
    }
    TargetTotalOfRatios(dist, keep, ratios);
    assert cats[1..] == keep;
  }

  /** Ratios that are not negative give targets that are not negative. */
  lemma {:induction false} DistributionNonNegative(keep: seq<Category>, ratios: seq<real>)
    requires forall k :: 0 <= k < |ratios| ==> ratios[k] >= 0.0
    requires BuildDistribution(keep, ratios).Success?
    ensures forall c :: c in BuildDistribution(keep, ratios).value ==> BuildDistribution(keep, ratios).value[c] >= 0.0
  {
    var dist := BuildDistribution(keep, ratios).value;
    var z := Zip(keep, ratios);
    RatioMapNonNegative(z);
  }

  lemma {:induction false} RatioMapNonNegative(pairs: seq<(Category, real)>)
    requires forall k :: 0 <= k < |pairs| ==> pairs[k].1 >= 0.0
    ensures forall c :: c in RatioMap(pairs) ==> RatioMap(pairs)[c] >= 0.0
  {
    if |pairs| > 0 {
      var front := pairs[..|pairs| - 1];
      assert forall k :: 0 <= k < |front| ==> front[k] == pairs[k];
      RatioMapNonNegative(front);
    }
  }
}
