/**
 * The tabular data the raking engine works on: named categorical columns of
 * equal length and one real-valued weight per record, together with the
 * aggregates the engine needs (total weight, weight per category).
 */
module Frame {

  type Category = string

  /** One column of the table: the category value of every record, in record order. */
  type Column = seq<Category>

  /** Target proportion per category of one column. */
  type Distribution = map<Category, real>

  /** The shared bucket for every value that is not kept. */
  const Others: Category := "Others"

  /** The total of a sequence of weights or ratios. */
  function Sum(s: seq<real>): real
  {
    if |s| == 0 then 0.0 else s[0] + Sum(s[1..])
  }

  /** The set of values that occur in a column (the groups of a group-by on it). */
  function Observed(col: Column): set<Category>
  {
    set i | 0 <= i < |col| :: col[i]
  }

  /** Total weight of the records whose value in `col` is `c`. */
  function CategorySum(col: Column, w: seq<real>, c: Category): real
    requires |col| == |w|
  {
    if |col| == 0 then 0.0
    else (if col[0] == c then w[0] else 0.0) + CategorySum(col[1..], w[1..], c)
  }

  /** The share of the total weight that category `c` carries. */
  function Share(col: Column, w: seq<real>, c: Category): real
    requires |col| == |w| && Sum(w) != 0.0
  {
    CategorySum(col, w, c) / Sum(w)
  }

  /** Total weight of the records whose value in `col` lies in `s`. */
  function SumWhere(col: Column, w: seq<real>, s: set<Category>): real
    requires |col| == |w|
  {
    if |col| == 0 then 0.0
    else (if col[0] in s then w[0] else 0.0) + SumWhere(col[1..], w[1..], s)
  }

  /** The category sums of `cats`, added up. */
  function CategoryTotal(col: Column, w: seq<real>, cats: seq<Category>): real
    requires |col| == |w|
  {
    if |cats| == 0 then 0.0 else CategorySum(col, w, cats[0]) + CategoryTotal(col, w, cats[1..])
  }

  /** The targets of `cats`, added up. */
  function TargetTotal(dist: Distribution, cats: seq<Category>): real
    requires forall k :: 0 <= k < |cats| ==> cats[k] in dist
  {
    if |cats| == 0 then 0.0 else dist[cats[0]] + TargetTotal(dist, cats[1..])
  }

  predicate Distinct(cats: seq<Category>)
  {
    forall i, j :: 0 <= i < j < |cats| ==> cats[i] != cats[j]
  }

  predicate NonNegative(w: seq<real>)
  {
    forall i :: 0 <= i < |w| ==> w[i] >= 0.0
  }

  lemma {:induction false} SumNonNegative(s: seq<real>)
    requires NonNegative(s)
    ensures Sum(s) >= 0.0
  {
    if |s| > 0 {
      SumNonNegative(s[1..]);
    }
  }

  /** Multiplying every weight by the same `k` multiplies the total by `k`. */
  lemma {:induction false} SumScaled(s: seq<real>, r: seq<real>, k: real)
    requires |r| == |s|
    requires forall i :: 0 <= i < |s| ==> r[i] == s[i] * k
    ensures IsProduct(Sum(r), k, Sum(s))
  {
    if |s| > 0 {
      SumScaled(s[1..], r[1..], k);
      AddProducts(r[0], Sum(r[1..]), k, s[0], Sum(s[1..]));
    }
  }

  lemma {:induction false} CategorySumNonNegative(col: Column, w: seq<real>, c: Category)
    requires |col| == |w| && NonNegative(w)
    ensures CategorySum(col, w, c) >= 0.0
  {
    if |col| > 0 {
      CategorySumNonNegative(col[1..], w[1..], c);
    }
  }

  /** Scaling every weight by `k` scales every category's weight by `k`. */
  lemma {:induction false} CategorySumScaled(col: Column, w: seq<real>, r: seq<real>, k: real, c: Category)
    requires |col| == |w| == |r|
    requires forall i :: 0 <= i < |w| ==> r[i] == w[i] * k
    ensures IsProduct(CategorySum(col, r, c), k, CategorySum(col, w, c))
  {
    if |col| > 0 {
      CategorySumScaled(col[1..], w[1..], r[1..], k, c);
      var hr := if col[0] == c then r[0] else 0.0;
      var hw := if col[0] == c then w[0] else 0.0;
      assert IsProduct(hr, k, hw);
      AddProducts(hr, CategorySum(col[1..], r[1..], c), k, hw, CategorySum(col[1..], w[1..], c));
      assert CategorySum(col, r, c) == hr + CategorySum(col[1..], r[1..], c);
      assert CategorySum(col, w, c) == hw + CategorySum(col[1..], w[1..], c);
    }
  }

  /** Adding one more category to the selection adds that category's weight. */
  lemma {:induction false} SumWhereAdd(col: Column, w: seq<real>, s: set<Category>, c: Category)
    requires |col| == |w| && c !in s
    ensures SumWhere(col, w, s + {c}) == SumWhere(col, w, s) + CategorySum(col, w, c)
  {
    if |col| > 0 {
      SumWhereAdd(col[1..], w[1..], s, c);
    }
  }

  /** Selecting every value that occurs selects the whole weight. */
  lemma {:induction false} SumWhereAll(col: Column, w: seq<real>, s: set<Category>)
    requires |col| == |w| && Observed(col) <= s
    ensures SumWhere(col, w, s) == Sum(w)
  {
    if |col| > 0 {
      assert col[0] in Observed(col);
      assert Observed(col[1..]) <= Observed(col) by {
        forall v | v in Observed(col[1..]) ensures v in Observed(col) {
          var i :| 0 <= i < |col[1..]| && col[1..][i] == v;
          assert col[i + 1] == v;
        }
      }
      SumWhereAll(col[1..], w[1..], s);
    }
  }

  lemma {:induction false} CategoryTotalIsSumWhere(col: Column, w: seq<real>, cats: seq<Category>)
    requires |col| == |w| && Distinct(cats)
    ensures CategoryTotal(col, w, cats) == SumWhere(col, w, set c | c in cats)
  {
    if |cats| == 0 {
      assert (set c | c in cats) == {};
      SumWhereEmpty(col, w);
    } else {
      var rest := set c | c in cats[1..];
      assert (set c | c in cats) == rest + {cats[0]};
      assert cats[0] !in rest by {
        forall k | 0 <= k < |cats[1..]| ensures cats[1..][k] != cats[0] {
          assert cats[1..][k] == cats[k + 1];
        }
      }
      CategoryTotalIsSumWhere(col, w, cats[1..]);
      SumWhereAdd(col, w, rest, cats[0]);
    }
  }

  lemma {:induction false} SumWhereEmpty(col: Column, w: seq<real>)
    requires |col| == |w|
    ensures SumWhere(col, w, {}) == 0.0
  {
    if |col| > 0 {
      SumWhereEmpty(col[1..], w[1..]);
    }
  }

  /**
   * The weights of a duplicate-free listing of categories that covers every
   * value of the column add up to the total weight.
   */
  lemma {:induction false} PartitionSum(col: Column, w: seq<real>, cats: seq<Category>)
    requires |col| == |w| && Distinct(cats)
    requires Observed(col) <= set c | c in cats
    ensures CategoryTotal(col, w, cats) == Sum(w)
  {
    CategoryTotalIsSumWhere(col, w, cats);
    SumWhereAll(col, w, set c | c in cats);
  }

  /** Python's zip: pairs by position, as long as the shorter input. */
  function Zip<A, B>(xs: seq<A>, ys: seq<B>): (r: seq<(A, B)>)
    ensures |r| == if |xs| < |ys| then |xs| else |ys|
    ensures forall i :: 0 <= i < |r| ==> r[i] == (xs[i], ys[i])
  {
    if |xs| == 0 || |ys| == 0 then [] else [(xs[0], ys[0])] + Zip(xs[1..], ys[1..])
  }

  /** `x` is `m` times `y`. */
  predicate IsProduct(x: real, m: real, y: real)
  {
    x == m * y
  }

  /** Products with a common factor add up. */
  lemma {:induction false} AddProducts(x1: real, x2: real, m: real, y1: real, y2: real)
    requires IsProduct(x1, m, y1) && IsProduct(x2, m, y2)
    ensures IsProduct(x1 + x2, m, y1 + y2)
  {
    assert m * (y1 + y2) == m * y1 + m * y2;
  }

  /**
   * A data frame as the application holds it: `n` records, categorical
   * columns by name, and the weight column, which the engine overwrites in place.
   */
  class DataFrame {
    const n: nat
    var columns: map<string, Column>
    var weight: array<real>

    ghost predicate Valid()
      reads this
    {
      weight.Length == n && forall name :: name in columns ==> |columns[name]| == n
    }

    constructor (n: nat, columns: map<string, Column>)
      requires forall name :: name in columns ==> |columns[name]| == n
      ensures Valid() && fresh(weight)
      ensures this.n == n && this.columns == columns
    {
      this.n := n;
      this.columns := columns;
      weight := new real[n];
    }
  }
}
