# GPU-Perf-Analyzer core, modelled in Dafny

GPU-Perf-Analyzer reads the CSV tables an Nsight Systems profile exports and
summarises them. This project models the two classes at its core.

- The `Analyzer` (analyzer/analysis.py):
  - It lowercases a user map from kernel-name patterns to categories, refusing the reserved category `others`, and rejects pattern sets in which one pattern is a substring of another.
  - It classifies every kernel row by the first pattern its lowercased name contains. A name containing `nccl` always falls into the `nccl` category.
  - It accumulates four quantities per category: time per iteration, instances per iteration (floor division), total time and total instances. It splits the `nccl` category off, with a sub-table keyed by the second `_`-separated piece of the kernel name, and totals the rest.
  - It counts and times the NVTX ranges carrying the iteration tag.
  - It groups memory operations by name.
  - `analyze` merges the three partial reports into one `Report`.
- The `StatisticClassifier` (src/kernel_stats.py) is an older, smaller variant of the same classification. It has no `nccl` special case, and it keeps a two-field bucket per category: time per iteration, computed as the average kernel time times the floored instances per iteration, and fractional instances per iteration.

## Modules

- `Wrappers`: `Option` and `Result`.
- `Errors`: one constructor per way the Python code raises.
- `Text`: ASCII lowercasing, substring search and `split`.
- `OrderedMaps`: a Python dict as an insertion-ordered key list plus a map.
- `PatternMap`: `_convert_to_lower`, `_check_conflict` and the pattern lookup of `_get_class`. These are shared by both classes, whose copies of them are identical.
- `Buckets`: the four-field buckets and their sums.
- `Analysis`: construction, `_get_class` and `statistic_kernels`.
- `Reports`: `statistic_mem`, `statistic_nvtx` and `analyze`.
- `KernelStats`: `StatisticClassifier`.

## How the code is modelled

- These routines are Dafny `method`s with `while` loops and invariants: `_convert_to_lower`, the seeding, row and totals loops of `statistic_kernels` and `statistic`, and the loops of `statistic_nvtx` and `statistic_mem`. `analyze`, which has no loop, is a method that calls them. Each looping method's `ensures` ties its result to a recursive specification function over the rows. The lemmas prove what that function means: which keys the tables hold, that each bucket is the sum of its rows' contributions, that the totals are the sums of the buckets, and exactly which inputs fail and with which error.
- `_check_conflict` (two nested loops) and the lookup loop of `_get_class` are modelled as recursive functions. `FirstConflictFrom` and `ConflictPartner` are the outer and inner loops of `_check_conflict`, and `FirstMatchFrom` is the loop of `_get_class`. Their `ensures` state the first hit and that no earlier position hits.
- A raised exception becomes an `Err` result:
  - an `AssertionError` for a reserved category, a pattern conflict or a missing NVTX tag;
  - a `ZeroDivisionError`;
  - an `IndexError` for an nccl name without `_`, or for `kernels[0]` of an empty table in `StatisticClassifier.statistic`.
- The analyzer objects never change after construction. They are therefore datatypes holding the lowered pattern table. The `name_to_class_map` property is the `nameToClassMap` field.

## Model

| member | source | states |
|---|---|---|
| Text.Contains | analyzer/analysis.py:252 | definition: `needle in hay`, true iff the needle is a prefix of `hay` or of one of its suffixes; `Text.ContainsOccurs` is its meaning |
| PatternMap.LowerSpec | analyzer/analysis.py:265-271 | definition: the error of the first user key whose lowered category is `others`, else the dict of lowered keys to lowered categories |
| PatternMap.Build | analyzer/analysis.py:92-95 | definition: the constructor body: `LowerSpec`, then `CheckConflict` on the lowered keys, the first error winning |
| PatternMap.Classify | analyzer/analysis.py:251-254 | definition: the lookup loop shared with src/kernel_stats.py:38-42: the category of the first pattern, in table order, contained in the name, else `others` |
| Analysis.GetClass | analyzer/analysis.py:247-254 | definition: `nccl` when the name contains `nccl`, otherwise `Classify` |
| Buckets.Contribution | analyzer/analysis.py:151-154 | definition: the four `+=` amounts of one row, also used at lines 238-241: `(time / d) * scale`, `count // d` (floor division), `time * scale` and `count` |
| KernelStats.RowContribution | src/kernel_stats.py:25-27 | definition: a zero count raises first (`ZeroInstanceCount`), then a zero `iter_times` (`ZeroDivisor`); otherwise time `(time / count) * (count // iter_times) / 1000000.0` and instances `count / iter_times` in real division |
| Analysis.KernelStatistics | analyzer/analysis.py:135-190 | definition: the data rows after the header, classified by `GetClass` on the lowered name, aggregated into the seeded table; `nccl` popped, nccl sub-table, totals of the rest |
| Reports.MemStatistics | analyzer/analysis.py:223-245 | definition: a zero-divisor error when there are data rows and `num_of_iters*num_of_gpus` is zero, else a report holding only the memory table grouped by raw name |
| Reports.NvtxStatistics | analyzer/analysis.py:192-221 | definition: `MissingRangeTag` when the tag is `None`, `NoMatchingRanges` when no data row carries it, else the count, the scaled total duration and their quotient |
| Reports.NvtxWarning | analyzer/analysis.py:210-212 | definition: the warning prints when the tag is given and the count of tagged data rows differs from `num_of_iters` |
| Reports.AnalyzeResult | analyzer/analysis.py:97-133 | definition: the kernel statistics, then the range statistics if ranges are given, then the memory statistics if memory rows are given; the first error, else the merged report |
| KernelStats.ClassStatistics | src/kernel_stats.py:11-35 | definition: `MissingHeader` for `kernels[0]` of an empty table with a header, else the first failing row's error, else the filled table and the sums of its two fields |
| PatternMap.FirstReservedFrom | analyzer/analysis.py:267-269 | the first key at or after `j` whose lowered category is `others`, or none exists |
| PatternMap.ConvertToLower | analyzer/analysis.py:265-271 | the loop returns exactly the recursive lowering specification: the first reserved category's error, else the lowered pairs |
| PatternMap.LowerSpecReserved | analyzer/analysis.py:268-269 | when key `i` is the first whose lowered category is `others`, construction fails with that category |
| PatternMap.LowerSpecNoneReserved | analyzer/analysis.py:265-271 | when no category lowers to `others`, the result is the table of lowered pairs |
| PatternMap.LowerPairsValid | analyzer/analysis.py:266-270 | the lowered table is a well-formed dict (no duplicate keys, keys match the domain) |
| PatternMap.LowerPairsKeys | analyzer/analysis.py:270 | a pattern is stored iff some user key lowers to it |
| PatternMap.LowerPairsLastWins | analyzer/analysis.py:270 | for keys colliding after lowering, the stored category is that of the last user key |
| PatternMap.LowerPairsLowercase | analyzer/analysis.py:270 | every stored pattern and category is lowercase |
| PatternMap.LowerPairsNotReserved | analyzer/analysis.py:268-270 | when the check passes, no stored category is `others` |
| PatternMap.LowerPairsOrder | analyzer/analysis.py:267-270 | without collisions, the patterns keep the user map's order, lowered |
| PatternMap.LowerPairsFirstAppearance | analyzer/analysis.py:267-270 | with collisions too, the patterns stand in the order of the first user key that lowercases to each |
| PatternMap.ConflictPartner | analyzer/analysis.py:259-260 | the inner loop's first `j` whose pattern nests with pattern `i`, or none exists |
| PatternMap.FirstConflictFrom | analyzer/analysis.py:257-263 | the first pair `(i, j)` in loop order whose patterns nest, with all earlier pairs conflict-free; none iff all pairs are conflict-free |
| PatternMap.CheckConflict | analyzer/analysis.py:257-263 | succeeds iff no pattern is a substring of another; a failure names a nesting pair |
| PatternMap.NewPatternTable | analyzer/analysis.py:92-95 | the constructor lowers, then conflict-checks, with exactly the result of `Build` |
| PatternMap.BuildCharacterization | analyzer/analysis.py:92-95 | construction succeeds iff no category lowers to `others` and the lowered patterns are conflict-free; the table is then the lowered pairs, lowercase, not reserved and conflict-free |
| PatternMap.BuildReserved | analyzer/analysis.py:94 | the first reserved category is the error, whatever comes after it |
| PatternMap.FirstMatchFrom | analyzer/analysis.py:251-253 | the first pattern at or after `j` contained in the name, or none exists |
| PatternMap.ClassifyFirstMatch | analyzer/analysis.py:251-253 | the category of the first pattern contained in the name decides |
| PatternMap.ClassifyNoMatch | analyzer/analysis.py:254 | a name containing no pattern falls into `others` |
| PatternMap.ClassifyRange | analyzer/analysis.py:251-254 | the class is `others` or one of the table's categories |
| PatternMap.ClassifyPattern | analyzer/analysis.py:251-253 | in a conflict-free table, a pattern used as a name selects its own category |
| PatternMap.ConflictFreeNoNesting | analyzer/analysis.py:257-263 | after construction, no stored pattern contains another |
| PatternMap.SeedCategories | analyzer/analysis.py:140-142 | the seeding loop adds each category once, in first-appearance order, with the zero bucket |
| PatternMap.SeedKeys | analyzer/analysis.py:140-142 | after seeding, a category is present iff it was there before or some pattern maps to it |
| PatternMap.SeedValues | analyzer/analysis.py:141-142 | seeding leaves existing buckets alone and adds new ones at zero |
| PatternMap.SeedValid | analyzer/analysis.py:140-142 | seeding keeps the dict well-formed |
| PatternMap.ClassifySeeded | analyzer/analysis.py:247-254 | every class a name can receive is a key of the seeded table, so the `+=` indexing never fails |
| Text.Lower | analyzer/analysis.py:270 | lowering keeps the length; what it does to each character is stated by `Text.LowerPointwise`, as a separate lemma so that the quantifier is not in scope wherever `Lower` is used |
| Text.LowerPointwise | analyzer/analysis.py:270 | lowering works character by character |
| Text.LowerIsLower | analyzer/analysis.py:270 | lowering yields a lowercase string and leaves lowercase strings unchanged |
| Text.StartsWithIsPrefix | analyzer/analysis.py:252 | the prefix test agrees with slicing |
| Text.ContainsOccurs | analyzer/analysis.py:252 | Python's substring `in` holds iff the needle occurs at some position |
| Text.ContainsItself | analyzer/analysis.py:260 | every pattern contains itself |
| Text.FirstIndexOf | analyzer/analysis.py:157 | the first position of the separator |
| Text.Split | analyzer/analysis.py:157 | `split` gives at least one piece, and at least two iff the separator occurs |
| Text.SplitPieces | analyzer/analysis.py:157 | no piece contains the separator |
| Text.JoinSplit | analyzer/analysis.py:157 | joining the pieces gives back the name |
| Text.SplitJoin | analyzer/analysis.py:157 | splitting a join of separator-free pieces gives back the pieces |
| OrderedMaps.Empty | analyzer/analysis.py:266 | the empty dict is well-formed |
| OrderedMaps.Put | analyzer/analysis.py:270 | assignment updates the value, and appends the key only when it is new |
| OrderedMaps.PutValid | analyzer/analysis.py:270 | assignment keeps the dict well-formed |
| OrderedMaps.IndexOf | analyzer/analysis.py:165-166 | the first position of a present key |
| OrderedMaps.Without | analyzer/analysis.py:165-166 | the key list with one position dropped and the later keys shifted down, in order |
| OrderedMaps.WithoutMembers | analyzer/analysis.py:165-166 | dropping a key keeps the list duplicate-free and keeps exactly the other keys |
| OrderedMaps.Remove | analyzer/analysis.py:165-166 | `pop` keeps the dict well-formed and removes the key from its map |
| OrderedMaps.RemoveKeepsOrder | analyzer/analysis.py:165-166 | after `pop`, the remaining keys keep their insertion order: the old order is the new one with the key put back at its old position |
| Buckets.FloorDiv | analyzer/analysis.py:152 | Python's `//` rounds toward negative infinity, for either sign of divisor |
| Buckets.ContributionNormalized | analyzer/analysis.py:151-154 | for a positive divisor, a row's time per iteration times the divisor is its total time, and its floored instances per iteration times the divisor are at most its instances |
| Buckets.AddNormalized | analyzer/analysis.py:151-154 | proof helper for the `+=` updates: adding buckets keeps the per-iteration relation |
| Buckets.AddAssociative | analyzer/analysis.py:151-154 | proof helper for the `+=` updates: field-wise bucket addition is associative |
| Buckets.AddCommutative | analyzer/analysis.py:151-154 | proof helper for the `+=` updates: field-wise bucket addition is commutative |
| Buckets.SumTableRemove | analyzer/analysis.py:165-177 | the total over the table without `nccl`, plus the `nccl` bucket, is the total over the whole table |
| Buckets.Accumulate | analyzer/analysis.py:235-241 | a bucket is created at zero when its key is new, then grows by the contribution |
| Buckets.AccumulateValid | analyzer/analysis.py:235-241 | accumulation keeps the dict well-formed |
| Buckets.AccumulateSum | analyzer/analysis.py:235-241 | accumulation raises the table's total by exactly the contribution |
| Buckets.FoldSum | analyzer/analysis.py:156-163 | folding entries into a table raises its total by their sum |
| Buckets.FoldZeroSum | analyzer/analysis.py:147-154 | folding entries into an all-zero table gives exactly their sum |
| Buckets.FoldGet | analyzer/analysis.py:158-163 | each key's bucket after folding is its old bucket plus the sum of that key's entries |
| Buckets.FoldKeys | analyzer/analysis.py:158-159 | after folding, a key is present iff it was present or some entry has it |
| Analysis.NewAnalyzer | analyzer/analysis.py:92-95 | construction succeeds iff the pattern table builds; the analyzer then holds that table, which is well-formed |
| Analysis.GetClassDecision | analyzer/analysis.py:247-254 | `nccl` wins; otherwise the first contained pattern's category; otherwise `others` |
| Analysis.SeedTableFacts | analyzer/analysis.py:137-142 | the seeded table is well-formed and all zero, and holds exactly `others`, `nccl` and every category |
| Analysis.GetClassSeeded | analyzer/analysis.py:149-151 | every class `_get_class` returns is in the seeded table |
| Analysis.RowClassesSeeded | analyzer/analysis.py:148-151 | all the rows' classes are in the seeded table |
| Analysis.FirstUnsplittableFrom | analyzer/analysis.py:156-157 | the first `nccl` row at or after `j` whose name has no `_`, or none exists |
| Analysis.TableTotals | analyzer/analysis.py:168-177 | the totals loop returns the sum of the table's buckets |
| Analysis.KernelRowLoop | analyzer/analysis.py:147-163 | the row loop returns exactly the recursive specification: the first missing-`_` error, else the filled tables |
| Analysis.StatisticKernels | analyzer/analysis.py:135-190 | the method returns exactly `KernelStatistics` |
| Analysis.NcclEntriesKeys | analyzer/analysis.py:156-159 | an nccl sub-table entry has key `k` iff some `nccl` row's name splits with second piece `k` |
| Analysis.AggregateOutcome | analyzer/analysis.py:147-163 | success iff no data or a nonzero divisor, and every `nccl` name has a `_`; the zero divisor wins; otherwise the first unsplittable row's name is the error |
| Analysis.KernelStatisticsOutcome | analyzer/analysis.py:135-190 | the same outcome stated for `statistic_kernels` with divisor `num_of_iters*num_of_gpus` |
| Analysis.KernelTableGet | analyzer/analysis.py:151-154 | each category's bucket is the sum of the contributions of its rows |
| Analysis.KernelTableSum | analyzer/analysis.py:147-154 | the filled table's total is the sum of all rows' contributions |
| Analysis.AggregateTables | analyzer/analysis.py:165-190 | the returned table holds every seeded category except `nccl`, each bucket is its rows' sum, and kernel plus nccl totals are the sum of all rows |
| Analysis.AggregateNccl | analyzer/analysis.py:156-166 | the nccl sub-table holds exactly the split keys, each the sum of its rows, and its total is the `nccl` category's bucket |
| Analysis.KernelStatisticsTables | analyzer/analysis.py:135-190 | the kernel table's keys are every category and `others` but not `nccl`, each bucket is its rows' sum, and kernel plus nccl totals cover every row |
| Analysis.KernelStatisticsNccl | analyzer/analysis.py:156-166 | the same sub-table facts, stated for `statistic_kernels` |
| Analysis.KernelStatisticsNormalized | analyzer/analysis.py:151-154 | for a positive divisor, every bucket and total satisfies the per-iteration relation |
| Analysis.KernelStatisticsNoData | analyzer/analysis.py:137-147 | with no data rows, the statistics succeed with all-zero buckets, an empty nccl sub-table and zero totals |
| Analysis.KernelStatisticsHeader | analyzer/analysis.py:143-147 | with a header, the result is that of the remaining rows without one |
| Analysis.KernelStatisticsFields | analyzer/analysis.py:179-190 | the kernel report leaves the NVTX and memory fields at their defaults |
| Reports.StatisticMem | analyzer/analysis.py:223-245 | the loop returns exactly `MemStatistics` |
| Reports.MemStatisticsOutcome | analyzer/analysis.py:233-245 | success iff no data or a nonzero divisor, otherwise a zero-divisor error; the report holds only the memory table |
| Reports.MemTableKeys | analyzer/analysis.py:234-236 | a memory operation is a key iff some row has that name |
| Reports.MemTableValues | analyzer/analysis.py:238-241 | each bucket is the sum of that operation's rows |
| Reports.MemTableSum | analyzer/analysis.py:233-241 | the table's total is the sum of all rows |
| Reports.MemTableNormalized | analyzer/analysis.py:238-241 | for a positive divisor, every memory bucket satisfies the per-iteration relation |
| Reports.RangeCount | analyzer/analysis.py:204-208 | the number of matching ranges is at most the number of rows |
| Reports.Average | analyzer/analysis.py:215 | the average times the count is the total |
| Reports.RangeTotals | analyzer/analysis.py:204-208 | the loop's total is the summed duration, and its count the number, of the rows carrying the tag |
| Reports.StatisticNvtx | analyzer/analysis.py:192-221 | the loop returns exactly `NvtxStatistics`, and warns exactly when the count differs from `num_of_iters` |
| Reports.RangeCountTags | analyzer/analysis.py:204-208 | the range count is the multiplicity of the tag among the rows' tags |
| Reports.NvtxStatisticsOutcome | analyzer/analysis.py:196-221 | a missing tag fails the assertion; no matching range is a division by zero; otherwise the count is the tag's multiplicity among the data rows, the total is their scaled duration, the average times the count is the total, and no other field is set |
| Reports.NvtxAverage | analyzer/analysis.py:214-215 | a successful range report's average times its count is its total |
| Reports.Analyze | analyzer/analysis.py:97-133 | the method returns exactly `AnalyzeResult` and warns exactly as `statistic_nvtx` would |
| Reports.AnalyzeFields | analyzer/analysis.py:105-133 | a successful report copies the kernel report's fields, the NVTX fields when ranges are given, and the memory table when memory rows are given |
| Reports.AnalyzeErrors | analyzer/analysis.py:105-131 | `analyze` fails iff one of its parts fails, with the first failure in kernel, NVTX, memory order |
| KernelStats.NewStatisticClassifier | src/kernel_stats.py:6-9 | construction succeeds iff the pattern table builds, and then holds that well-formed table |
| KernelStats.GetClassDecision | src/kernel_stats.py:38-42 | the first contained pattern's category decides; no match gives `others` |
| KernelStats.StatSeedFacts | src/kernel_stats.py:14-17 | the seeded table is well-formed and all zero, and holds exactly `others` and every category |
| KernelStats.StatClassesSeeded | src/kernel_stats.py:22-24 | every row's class is a key of the seeded table |
| KernelStats.FirstFailureFrom | src/kernel_stats.py:25-27 | the first row at or after `j` on which a division fails, or none exists |
| KernelStats.AllContributeIff | src/kernel_stats.py:25-27 | every row contributes iff there are no rows, or `iter_times` and every instance count are nonzero |
| KernelStats.StatTableOf | src/kernel_stats.py:22-27 | filling keeps the table well-formed and its keys unchanged |
| KernelStats.TableTotals | src/kernel_stats.py:29-33 | the totals loop returns the sum of the buckets |
| KernelStats.StatRowLoop | src/kernel_stats.py:22-27 | the row loop returns exactly the recursive specification: the first failing row's error, else the filled table |
| KernelStats.Statistic | src/kernel_stats.py:11-35 | the method returns exactly `ClassStatistics` |
| KernelStats.StatTableGet | src/kernel_stats.py:25-27 | each category's bucket is its seed plus the sum of its rows' contributions |
| KernelStats.StatTableSum | src/kernel_stats.py:22-33 | the filled table's total is the seed's total plus the sum of all rows' contributions |
| KernelStats.StatSumInstances | src/kernel_stats.py:27 | a category's instances per iteration are its number of instances divided by `iter_times` |
| KernelStats.StatisticOutcome | src/kernel_stats.py:18-27 | an empty table with a header fails; otherwise success iff no data rows, or `iter_times` and every count are nonzero |
| KernelStats.StatisticFailure | src/kernel_stats.py:25-27 | the first failing row decides the error: a zero count before a zero `iter_times` |
| KernelStats.StatisticOk | src/kernel_stats.py:11-35 | a success returns the filled table, and its two totals are the sums of its buckets |
| KernelStats.StatisticKeys | src/kernel_stats.py:14-17 | the result's keys are exactly `others` and every category |
| KernelStats.StatisticBuckets | src/kernel_stats.py:22-27 | each bucket is the sum of its rows' contributions |
| KernelStats.StatisticTotals | src/kernel_stats.py:29-35 | the two totals are the sum of all rows' contributions |
| KernelStats.StatisticHeader | src/kernel_stats.py:18-22 | with a header, the result is that of the remaining rows without one |
| KernelStats.StatisticNoData | src/kernel_stats.py:14-35 | with no data rows, the result is the zero-seeded table with zero totals |

## Behaviour of the code worth knowing

- The code seeds a zero bucket for every mapped category before the loop (analyzer/analysis.py:140-142, src/kernel_stats.py:15-17), so a category no kernel hits still appears in the result.
- Neither `num_of_iters` nor `num_of_gpus` (nor `iter_times` in src/kernel_stats.py) is checked to be positive. A zero product raises `ZeroDivisionError` at the first data row, which the model returns as `Err(ZeroDivisor)`.

## Left out

- Text.Lower: lowercases ASCII letters only. Python's `str.lower` also folds non-ASCII letters.
- Floating point: time values are exact reals. IEEE rounding, and the float-to-int conversions of `float(...)` and `int(...)` on CSV strings, are not modelled: rows arrive with a parsed name, time and count.
- The column-index parameters (`kernel_name_idx`, `mem_time_idx`, `name_idx`, ...) are left out. Rows are records with named fields, so an out-of-range column index is not modelled.
- `time_scale_to_ms` is a parameter `scale`. Its default `1/1000000.0` is not fixed.
- Python's default arguments are not modelled. `nvtxes=None`, `mems=None`, `num_of_gpus=1`, `with_header=True` and `time_scale_to_ms` (analyzer/analysis.py:97-98, 135), and `with_header=True` (src/kernel_stats.py:11), are required parameters of `Analyze`, `StatisticKernels`, `StatisticNvtx`, `StatisticMem` and `Statistic`. `None` is `Option.None`.
- The warning that `statistic_nvtx` prints is a returned boolean. `Report.show` (analyzer/analysis.py:23-87) only prints and is not part of this model.
- The zero-divisor check in `statistic_kernels` and `statistic_mem` comes before the loop rather than at the first row. This is equivalent, because the first row always divides first.
- Distinct Python exception types (`AssertionError`, `ZeroDivisionError`, `IndexError`) are distinct `Error` constructors, not exception classes. Their message texts are not modelled.
- src/kernel_stats.py:66-123 (CSV reading and printing helpers) and analyzer/main.py (the command line) are I/O and are not part of this model.
- KernelStats.Statistic: the instance total `total_kernels_of_one_iter` starts as the integer `0` and becomes a float. The model keeps it as a real throughout.
