# RIM weighting in Dafny

This project models the weighting engine of a small survey-weighting
application (`rim_weighting_app.py`). The engine does RIM weighting, also
called raking or iterative proportional fitting. The user selects
categorical columns of a table. For each selected column they keep some
values and enter a target ratio for each kept value. Every other value is
folded into a category named `Others`, whose target is 1 minus the sum of
the entered ratios.

The engine then works on a weight column:

- it sets every weight to 1;
- it makes ten passes over the (column, distribution) pairs;
- in each step it multiplies every record's weight by its category's
  adjustment factor, which is the target over the category's current
  weighted proportion;
- finally it rescales the weights so that they add up to the number of
  records.

The modules follow the parts of the program:

- `Frame` (`frame.dfy`): the table. It has categorical columns (`seq<string>`),
  the weight column (`array<real>` in the `DataFrame` class), and the
  aggregates the engine uses: total weight, weight per category, and the
  share of the total a category carries.
- `Bucketing` (`bucketing.dfy`): folding the values that were not kept into
  `Others`.
- `Targets` (`targets.dfy`): building a column's target distribution, or
  reporting why none is built.
- `Raking` (`raking.dfy`): `calculate_adjustment_factors` as a pure map
  computation. `apply_rim_weighting` becomes methods that update the weight
  array in place, each proved against the specification functions `Update`,
  `Pass` and `Rake`.
- `Normalizing` (`normalizing.dfy`): `normalize_weights`, in place.
- `RimApp` (`app.dfy`): the per-column loop of the application (build the
  distribution, bucket the column), then raking and normalisation.
- `Wrappers` (`wrappers.dfy`): the `Result` type.

How pandas behaviour is modelled:

- **Index alignment** (`dist_series / survey_counts`) is the union of the two
  key sets.
- **NaN and ±inf quotients** become factor 0, as `fillna(0)` and
  `replace(inf, 0)` make them.
- **Zero total weight.** The group-by proportions are then NaN or infinite,
  so every factor is 0. The model states this as an explicit branch.
- **`map(factors).fillna(1)`** is the `Multiplier` function: a value with
  no factor keeps its weight. A lemma shows that computed factors cover
  every value of the column, so this fallback never applies to them.

Three edge cases, as the code handles them:

- **Empty keep list** (line 63). The column gets no distribution and is not
  bucketed. Line 79 still passes it to the raking, where line 17's `zip`
  pairs it by position with another column's distribution (see "Findings").
  The model's `RimApp.RunRimWeighting` leaves it out of the raking.
- **Ratios summing to exactly 1** (line 68). They are refused, because the
  comparison is strict. A built distribution therefore always gives
  `Others` a positive target.
- **Zero total weight at normalisation** (line 25). The code divides by zero
  and gets infinite or NaN weights. Exact reals have no such values, so the
  model reports failure instead (see "Left out").

## Model

| member | source | states |
|---|---|---|
| Frame.Sum | rim_weighting_app.py:18 | defines `df['weight'].sum()`, the total weight (no contract of its own; its properties are the `Sum…` lemmas) |
| Frame.CategorySum | rim_weighting_app.py:18 | defines one group of `df.groupby(col)['weight'].sum()`: the total weight of the records with value `c` (no contract of its own) |
| Frame.PartitionSum | rim_weighting_app.py:18 | the group-by sums of a duplicate-free list of categories covering every value of a column add up to the total weight |
| Frame.Zip | rim_weighting_app.py:17 | `zip` is as long as the shorter list and pairs elements by position |
| Frame.SumScaled | rim_weighting_app.py:25 | multiplying every weight by `k` multiplies the total by `k` |
| Frame.CategorySumScaled | rim_weighting_app.py:25 | multiplying every weight by `k` multiplies every category's weight by `k` |
| Raking.SurveyDistribution | rim_weighting_app.py:18 | the weighted marginal has exactly the categories that occur in the column as keys |
| Raking.CalculateAdjustmentFactors | rim_weighting_app.py:6-11 | the factors are indexed by the union of target and survey categories |
| Raking.Factors | rim_weighting_app.py:18-19 | the factors of one update are indexed by the union of target categories and the values that occur |
| Raking.FactorValue | rim_weighting_app.py:6-11 | a category targeted, occurring and with non-zero weight (and non-zero total) gets target / (category weight / total weight); every other key (only in the target, only in the sample, zero proportion, zero total) gets 0 |
| Raking.Multiplier | rim_weighting_app.py:20 | defines `df[col].map(factors).fillna(1)` for one value: its factor, or 1 when it has none (no contract of its own; see `ScaleKeepsUnmapped`) |
| Raking.Scale | rim_weighting_app.py:20 | the weights multiplied record by record by the multiplier of the record's value, length kept |
| Raking.Update | rim_weighting_app.py:18-20 | one column update: factors from the current weights, then applied to them; length kept |
| Raking.Pass | rim_weighting_app.py:17-20 | one pass: the updates of the pairs in list order, each on the weights left by the previous; length kept |
| Raking.Rake | rim_weighting_app.py:16-20 | `k` passes, each on the weights left by the previous; length kept |
| Raking.Ones | rim_weighting_app.py:15 | the column of unit weights: `n` entries, all 1 |
| Raking.UpdateUsesCategoryFactor | rim_weighting_app.py:20 | every value of the column has a computed factor, so the `fillna(1)` fallback never applies, and each updated weight is the old weight times exactly its category's factor |
| Raking.ScaleKeepsUnmapped | rim_weighting_app.py:20 | a record whose value has no key in the factor map keeps its weight |
| Raking.UntargetedRecordZeroed | rim_weighting_app.py:8-10 | a record whose value the target does not name gets weight 0 |
| Raking.UpdateDisjointTargetZeroes | rim_weighting_app.py:8-10 | a target naming none of the column's values zeroes every weight |
| Raking.FactorsNonNegative | rim_weighting_app.py:8-10 | non-negative weights and targets give non-negative factors |
| Raking.UpdateNonNegative | rim_weighting_app.py:20 | one update keeps non-negative weights non-negative |
| Raking.PassNonNegative | rim_weighting_app.py:17-20 | one pass keeps non-negative weights non-negative |
| Raking.RakeNonNegative | rim_weighting_app.py:16-20 | any number of passes keeps non-negative weights non-negative |
| Raking.CategoryHitsTarget | rim_weighting_app.py:18-20 | with non-negative weights, a targeted category carrying positive weight weighs its target times the old total after the update |
| Raking.UpdateMarginalExact | rim_weighting_app.py:18-20 | with non-negative weights, every occurring category carrying positive weight and targeted, and the targets of the occurring categories summing to 1, one update keeps the (positive) total and gives every category exactly its target share |
| Raking.UpdateBalancedUnchanged | rim_weighting_app.py:18-20 | with non-negative weights, when every category already carries its target share of the total, an update changes no weight |
| Raking.BalancedRecordKept | rim_weighting_app.py:18-20 | a record whose category carries its target share keeps its weight: its factor is 1, or the record weighs 0 |
| Raking.PassBalancedUnchanged | rim_weighting_app.py:17-20 | a pass over pairs whose columns all carry their targets changes no weight |
| Raking.RakeBalancedUnchanged | rim_weighting_app.py:16-20 | any number of passes over balanced weights changes no weight |
| Raking.WeightedOccurs | rim_weighting_app.py:18 | a category with non-zero group-by weight is one of the column's groups |
| Raking.WeightlessRecord | rim_weighting_app.py:18 | with non-negative weights, every record of a category whose group-by weight is 0 weighs 0 |
| Raking.SumOnes | rim_weighting_app.py:15 | unit weights add up to the number of records |
| Raking.PassStep | rim_weighting_app.py:17-20 | loop-stepping helper for `RunPass`: unfolds `Pass` by one pair (the update of pair j runs on the weights left by the first j) |
| Raking.RakeStep | rim_weighting_app.py:16-20 | loop-stepping helper for `RunPasses`: unfolds `Rake` by one pass (pass k+1 runs on the weights left by the first k) |
| Raking.RakeSettlesAtZero | rim_weighting_app.py:16-20 | when the first pass zeroes every weight, all later passes leave the weights at 0 |
| Raking.ResetWeights | rim_weighting_app.py:15 | every weight becomes 1 |
| Raking.ScaleInPlace | rim_weighting_app.py:20 | the weight array becomes each old weight times its value's multiplier (1 when the value has no factor) |
| Raking.UpdateColumn | rim_weighting_app.py:18-20 | the weight array becomes `Update` of the old weights: factors from the current weights, then applied |
| Raking.RunPass | rim_weighting_app.py:17-20 | the weight array becomes `Pass` of the old weights: the updates in pair order, each on the previous result |
| Raking.RunPasses | rim_weighting_app.py:16-20 | the weight array becomes `k` passes applied to the old weights |
| Raking.ApplyRimWeighting | rim_weighting_app.py:14-21 | the weight column ends as exactly ten passes over `zip(columns, distributions)`, starting from all ones |
| Bucketing.Bucket | rim_weighting_app.py:76 | the result is a kept value or `Others`; it equals the input exactly when the input is kept or is `Others`, and a value not kept becomes `Others` |
| Bucketing.BucketColumn | rim_weighting_app.py:76 | the column keeps its length and every value is bucketed in place |
| Bucketing.BucketColumnIdempotent | rim_weighting_app.py:76 | bucketing twice equals bucketing once |
| Bucketing.BucketedCategories | rim_weighting_app.py:76 | the bucketed column's categories are the kept values that occurred, plus `Others` exactly when some occurring value was not kept |
| Bucketing.BucketKeepsKeptWeight | rim_weighting_app.py:76 | a kept value (not named `Others`) carries the same weight before and after bucketing |
| Bucketing.BucketedOthersWeight | rim_weighting_app.py:76 | after bucketing, `Others` carries exactly the weight of the records whose value was not kept |
| Targets.BuildDistribution | rim_weighting_app.py:63-73 | a distribution is built exactly when something is kept and the ratios sum to less than 1; otherwise the error says which; it has the kept values and `Others` as keys, and `Others` = 1 - sum > 0 |
| Targets.RatioMap | rim_weighting_app.py:69 | defines the dictionary comprehension over `zip(values_to_keep, ratios)`: a later pair for the same value wins (no contract of its own; see `RatioMapKeys`, `RatioMapValue`) |
| Targets.RatioMapKeys | rim_weighting_app.py:69 | the dictionary comprehension's keys are the values of the pairs |
| Targets.RatioMapValue | rim_weighting_app.py:69 | with no value repeated, each value maps to its own ratio |
| Targets.KeptRatio | rim_weighting_app.py:69-70 | a kept value other than `Others`, listed once, gets the ratio entered for it |
| Targets.TargetTotalOfRatios | rim_weighting_app.py:65 | targets equal to the entered ratios add up to `sum(ratios)` |
| Targets.DistributionSumsToOne | rim_weighting_app.py:65-70 | `Others` followed by the kept values lists each key once, and their targets add up to 1 |
| Targets.DistributionNonNegative | rim_weighting_app.py:60-70 | non-negative ratios (the input's minimum is 0) give non-negative targets |
| Normalizing.Normalized | rim_weighting_app.py:25 | the weights times the record count over the total weight, length kept |
| Normalizing.NormalizedSum | rim_weighting_app.py:25 | the normalised weights add up to the number of records |
| Normalizing.NormalizedKeepsShares | rim_weighting_app.py:25 | normalising keeps every category's share of the total weight, so proportions are unchanged |
| Normalizing.NormalizedNonNegative | rim_weighting_app.py:25 | normalising non-negative weights with a positive total gives non-negative weights |
| Normalizing.TotalWeight | rim_weighting_app.py:25 | returns the sum of the weight column |
| Normalizing.MultiplyAll | rim_weighting_app.py:25 | every weight is multiplied by `k`, in place |
| Normalizing.NormalizeWeights | rim_weighting_app.py:24-26 | succeeds exactly when the total weight is non-zero, and then sets the weights to their normalised values; otherwise leaves them unchanged |
| RimApp.Names | rim_weighting_app.py:47 | the selected names, one per choice, in order |
| RimApp.Distributions | rim_weighting_app.py:50-71 | the list the application collects: one distribution per selected column whose distribution was built, in selection order, so at most one per column |
| RimApp.TargetPairs | rim_weighting_app.py:50-71 | each built distribution together with the column it was built for, in selection order; at most one per column |
| RimApp.OnePerColumnIffAllBuilt | rim_weighting_app.py:50-79 | the collected list is as long as the selection exactly when every selected column's distribution was built |
| RimApp.BucketAll | rim_weighting_app.py:51-76 | bucketing all selected columns keeps the table's column names and lengths |
| RimApp.BucketAllColumns | rim_weighting_app.py:63-76 | with distinct selected names, a column with kept values ends bucketed with its own keep list, and a column without kept values, or not selected, is unchanged |
| RimApp.DistributionsArePairTargets | rim_weighting_app.py:69-71 | the collected distributions are exactly the distributions of the aligned pairs, in order |
| RimApp.TargetPairsComplete | rim_weighting_app.py:51-71 | every pair names a selected column, and every built distribution has its pair |
| RimApp.TargetPairsAligned | rim_weighting_app.py:51-79 | with distinct selected names, the distribution paired with a column is the one built from that column's own choice |
| RimApp.AllBuiltPairs | rim_weighting_app.py:51-71 | when every distribution is built, the pairs follow the selection one for one |
| RimApp.AllBuiltZipAligned | rim_weighting_app.py:79 | when every distribution is built, zipping the selected names with the collected distributions gives the aligned pairs |
| RimApp.SelectedZipMisaligned | rim_weighting_app.py:79 | in the example selection, zipping the selected names with the collected distributions pairs "gender" with the age distribution, and ten passes leave every weight at 0; the aligned pairs hold "age" with its own distribution |
| RimApp.TargetPairsNonNegative | rim_weighting_app.py:60-71 | non-negative ratios give pairs whose targets are all non-negative |
| RimApp.RimWeightsNonNegative | rim_weighting_app.py:79 | with non-negative ratios, no raked weight is negative |
| RimApp.BalancedSampleKeepsUnitWeights | rim_weighting_app.py:14-26 | when every column already carries its targets under unit weights, ten passes from all ones leave all ones, and normalising them changes nothing |
| RimApp.BucketedKeptAndOthers | rim_weighting_app.py:76 | when every kept value occurs and some value is not kept, the bucketed column's categories are exactly `Others` and the kept values |
| RimApp.BucketedUpdateHitsTargets | rim_weighting_app.py:63-76 | one update of a bucketed column with its own distribution keeps the total and gives every category exactly its target share, when the kept values come from the column, are listed once, none is `Others`, some value was not kept, no weight is negative and every bucketed category carries positive weight |
| RimApp.PrepareColumns | rim_weighting_app.py:50-76 | the table's columns become `BucketAll` of the old ones, the collected distributions are the application's list, and the returned columns are aligned with them |
| RimApp.RunRimWeighting | rim_weighting_app.py:78-80 | buckets the columns, rakes over the aligned pairs and normalises: it succeeds exactly when the raked weights have a non-zero total, and the weights are then the normalised raked weights |

## Left out

- The Streamlit interface is not modelled: title, file uploader, checkboxes,
  multiselect, number inputs, messages, button and download (lines 29-88).
  The user's choices arrive as `ColumnChoice` values.
- File reading with `read_csv`/`read_excel` and the Excel export (`to_excel`)
  are not modelled. They are I/O through foreign libraries.
- Floating point is not modelled. Weights and ratios are exact reals, so
  rounding is absent. NaN and ±inf appear only through the "factor 0" rule
  and the "no factor means multiplier 1" rule.
- Every cell of a category column is a string value. Missing cells (NaN) are
  not modelled. In a column with kept values, line 76 turns a missing cell
  into `Others` (unless NaN itself was kept), and the group-by counts it
  there. In a column with nothing kept, or with NaN kept, the group-by skips
  the cell, and the `fillna(1)` fallback leaves its weight unchanged.
- The printed `Others` ratio (line 67) and the error message (line 73) are
  display only.
- Normalizing.NormalizeWeights: when the total weight is 0, the original
  multiplies by an infinite or NaN quotient. The method instead reports
  failure and leaves the weights as they were.
- RimApp.RunRimWeighting: the method rakes over the aligned pairs (the
  correction under "Findings"), not over the misaligned pairing that line 79
  forms when a selected column gets no distribution.
- Raking.UpdateMarginalExact: requires every category that occurs to carry
  positive weight. A category whose records all weigh 0 gets factor 0 and
  cannot reach its target. This can happen after an earlier column's
  update, for instance when a kept value was given ratio 0.
- RimApp.BucketedUpdateHitsTargets: requires every bucketed category to carry
  positive weight, for the same reason.
- Targets.DistributionSumsToOne: requires that no kept value is literally
  named `Others`. For such a value, `dist['Others'] = others_ratio` overwrites
  the entered ratio, and the entries then add up to 1 minus that ratio.

## Findings

| source | as written | input that shows it | evidently intended | confidence | as-written member | corrected member |
|---|---|---|---|---|---|---|
| rim_weighting_app.py:79 | `apply_rim_weighting(df, distributions, selected_columns)` zips every selected column with a list holding distributions only for the columns whose distribution was built | "gender" (values M, F) selected with nothing kept, then "age" keeping "18-34" at 0.4: "gender" gets the age distribution, every weight becomes 0 in the first pass, and normalisation divides by 0 | pair each distribution with the column it was built for | not executed | RimApp.SelectedZipMisaligned | RimApp.TargetPairsAligned |
