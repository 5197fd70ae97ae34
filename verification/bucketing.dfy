/**
 * Bucketing of a selected column: every value the user did not keep is
 * replaced by the shared category `Others`.
 */
module Bucketing {
  import opened Frame

  /** The value a record carries after bucketing. */
  function Bucket(keep: seq<Category>, x: Category): (r: Category)
    ensures r in keep || r == Others
    ensures r == x <==> x in keep || x == Others
    ensures x !in keep ==> r == Others
  {
    if x in keep then x else Others
  }

  /** The column with every value bucketed, record by record. */
  function BucketColumn(keep: seq<Category>, col: Column): (r: Column)
    ensures |r| == |col| && forall i :: 0 <= i < |col| ==> r[i] == Bucket(keep, col[i])
  {
    seq(|col|, i requires 0 <= i < |col| => Bucket(keep, col[i]))
  }

  /** Bucketing a bucketed column changes nothing. */
  lemma {:induction false} BucketColumnIdempotent(keep: seq<Category>, col: Column)
    ensures BucketColumn(keep, BucketColumn(keep, col)) == BucketColumn(keep, col)
  {
    var once := BucketColumn(keep, col);
    forall i | 0 <= i < |col| ensures BucketColumn(keep, once)[i] == once[i] {
      assert Bucket(keep, once[i]) == once[i];
    }
  }

  /**
   * The categories of a bucketed column: the kept values that occurred, plus
   * `Others` exactly when some value that occurred was not kept.
   */
  lemma {:induction false} BucketedCategories(keep: seq<Category>, col: Column)
    ensures Observed(BucketColumn(keep, col)) ==
      (Observed(col) * (set c | c in keep)) + (if Observed(col) <= (set c | c in keep) then {} else {Others})
  {
    var b := BucketColumn(keep, col);
    var kept := set c | c in keep;
    var rhs := (Observed(col) * kept) + (if Observed(col) <= kept then {} else {Others});
    forall x | x in Observed(b) ensures x in rhs {
      var i :| 0 <= i < |b| && b[i] == x;
      assert col[i] in Observed(col);
    }
    forall x | x in rhs ensures x in Observed(b) {
      if x in Observed(col) * kept {
        var i :| 0 <= i < |col| && col[i] == x;
        assert b[i] == x;
      } else {
        var y :| y in Observed(col) && y !in kept;
        var i :| 0 <= i < |col| && col[i] == y;
        assert b[i] == Others;
      }
    }
  }

  /** A kept value carries the same weight before and after bucketing. */
  lemma {:induction false} BucketKeepsKeptWeight(keep: seq<Category>, col: Column, w: seq<real>, c: Category)
    requires |col| == |w| && c in keep && c != Others
    ensures CategorySum(BucketColumn(keep, col), w, c) == CategorySum(col, w, c)
  {
    if |col| > 0 {
      assert BucketColumn(keep, col)[1..] == BucketColumn(keep, col[1..]);
      BucketKeepsKeptWeight(keep, col[1..], w[1..], c);
    }
  }

  /**
   * `Others` collects the weight of every record whose value was not kept:
   * any set `s` of non-kept values that covers every non-kept value that
   * occurs selects exactly that weight.
   */
  lemma {:induction false} BucketedOthersWeight(keep: seq<Category>, col: Column, w: seq<real>, s: set<Category>)
    requires |col| == |w| && Others !in keep
    requires forall c :: c in s ==> c !in keep
    requires forall i :: 0 <= i < |col| && col[i] !in keep ==> col[i] in s
    ensures CategorySum(BucketColumn(keep, col), w, Others) == SumWhere(col, w, s)
  {
    if |col| > 0 {
      assert BucketColumn(keep, col)[1..] == BucketColumn(keep, col[1..]);
      assert forall i :: 0 <= i < |col| - 1 ==> col[1..][i] == col[i + 1];
      BucketedOthersWeight(keep, col[1..], w[1..], s);
    }
  }
}
