# A verified model of the knapsack benchmark and its result tools

The repository benchmarks two 0/1 knapsack heuristics against an exact
solver (PuLP/CBC), runs a budget-filling baseline for a portfolio problem,
and reconciles the resulting JSON records into Markdown comparison tables
and README metric lines. This project models the deterministic core of that
pipeline in Dafny and proves what each piece promises.

Numbers are exact `real`s. JSON values are the `JsonValue.Json` datatype; an
object is its ordered list of fields, as Python dicts keep insertion order.
Files are given as their text or as the parsed JSON value. Every Python
exception that can escape an operation becomes an error value (`Err`, a
`Crash` outcome), so the error paths are part of each contract.

| file | module | models |
|---|---|---|
| common.dfy | Common | Option/Result and the Python string builtins used: `strip`, `split`, `splitlines`, `lower`, `in`, `float()`, `os.path.basename`/`splitext`, a first-match `re.sub` |
| json.dfy | JsonValue | parsed JSON values, dict lookup and update, truthiness, `float()` of a value |
| stable_order.dfy | StableOrder | the index order a stable `list.sort(key=...)` produces |
| text_order.dfy | TextOrder | Python's `str` ordering and `sorted(set(...))` of ids |
| knapsack.dfy | Knapsack | the ratio order, the greedy admission pass and the sums of a 0/1 selection shared by both heuristics |
| solver_greedy.dfy | GreedySolver | `greedy_ratio` and `solve` of src/solvers/solver_greedy.py |
| solver_new1.dfy | LocalSearchSolver | `_score`, `local_search` and `solve` of src/solvers/solver_new1.py |
| runner.dfy | Step1Runner | `greedy_fill` and the metrics dictionary of step_1/runner.py |
| build_solver_vs_baseline.dfy | SolverVsBaseline | id canonicalisation, `dig`, `first`, `to_float`, record loading, indexing and delta rows |
| make_markdown_table.dfy | MarkdownTable | payload rows, baseline shapes, `fmt_delta` and the table lines |
| run_baseline_solver.dfy | BaselineRunner | `load_instance`, the post-processing of the exact solver's answer, the result file name |
| metrics_from_portfolio.dfy | PortfolioMetrics | `extract_struct` as written and with the guardrail counts read as intended, the match, guardrail and blended scores, `coalesce`, the speedup rule, the table round trip |
| fill_metrics.dfy | FillMetrics | `norm`, the unit helpers, `parse_md_table`, `find_first_table`, `find_metrics`, the bullet, table-row and link rewrites |
| fill_metrics_simple.dfy | FillMetricsSimple | `find_column_index`, the header search and row scan of `main`, the substitutions, the URL tail of `get_repo_url` |
| fill_best_metrics.dfy | FillBestMetrics | `replace_metric_lines` |
| post_step1_validate.dfy | PostStep1Validate | the checks of the step-1 metrics and the rewritten summary |

The heuristics follow their loops: `GreedySolver.GreedyRatio`,
`LocalSearchSolver.LocalSearch` and `Step1Runner.Fill` are methods whose
loop invariants tie the running totals to the specification functions
(`Knapsack.Scan`, `LocalSearchSolver.Climb`,
`Step1Runner.FillsGreedily`), and the lemmas beside them prove feasibility, maximality, the
monotone incumbent and the exact iteration count. `random.Random(seed)` is
replaced by the sequence of index pairs it draws, so the local search is a
function of its inputs and that sequence. `load_instance` works on an
`array` of items, as the source writes ids into the item dicts in place.

Behaviours of the code a reader might not expect, which the model follows:
- There is no best-run selection by status or runtime: a later record of the
  same instance overwrites an earlier one (`SolverVsBaseline.IndexByInstance`).
- `local_search` with no items and at least one iteration does not return an
  empty selection: `randrange(0)` raises (`LocalSearchSolver.LocalSearch`).
- `ensure_runtime_unit` and `ensure_percent` are idempotent only on text that
  is non-empty after stripping: `""` becomes `" s"`, then `"s"`
  (`FillMetrics.EnsureRuntimeUnitOfEmpty`).
- `replace_metric_lines` is not idempotent on text that ends in two line
  breaks (`FillBestMetrics.TrailingBreaksLost`).

## Model

| member | source | states |
|---|---|---|
| Common.LowerOfNoUpper | tools/fill_metrics.py:28 | Lower-casing a text without upper-case letters leaves it unchanged. |
| Common.Find | tools/fill_metrics_simple.py:71-72 | A position comes back exactly when the needle occurs, and the needle sits at that position. |
| Common.FindFirst | tools/fill_metrics_simple.py:71-72 | The position found is the first occurrence: the needle starts at no earlier position. |
| Common.IndexOf | tools/metrics_from_portfolio.py:118 | The first position of the character, none earlier; None exactly when the character does not occur. |
| Common.LStrip | tools/fill_metrics.py:28 | str.lstrip(): a suffix of the text that does not start with whitespace, and everything removed is whitespace. |
| Common.RStrip | tools/fill_metrics.py:28 | str.rstrip(): a prefix of the text that does not end with whitespace, and everything removed is whitespace. |
| Common.RStripChars | tools/fill_metrics_simple.py:25 | str.rstrip(chars): a prefix that does not end in one of the characters, and everything removed is one of them. |
| Common.StripPadded | tools/metrics_from_portfolio.py:118-121 | Whitespace added at either end of a text does not change its strip. |
| Common.StripIdempotent | tools/fill_metrics.py:35-42 | Stripping twice is the same as stripping once. |
| Common.Split | build_solver_vs_baseline.py:25 | str.split(sep) always gives at least one piece. |
| Common.JoinSplit | tools/fill_metrics.py:63 | Joining the pieces of a split with the separator gives the text back, and no piece holds the separator. |
| Common.SplitJoin | tools/fill_metrics_simple.py:40-50 | Splitting a join of separator-free pieces gives the pieces back. |
| Common.SplitFree | build_solver_vs_baseline.py:25-34 | A text without the separator splits into itself alone. |
| Common.SplitLines | fill_best_metrics.py:4 | str.splitlines(): no line holds a line break. |
| Common.SplitLinesJoin | fill_best_metrics.py:4-12 | Break-free lines, the last one non-empty, joined with a newline split back into themselves. |
| Common.SubWithNoMatch | tools/fill_metrics.py:226-228 | re.sub returns a text with no match unchanged. |
| Common.NatToString | src/run_baseline_solver.py:21 | The decimal digits of a number: non-empty, and they read back as that number. |
| Common.ParseFloatDigits | build_solver_vs_baseline.py:41 | float() of a digit string is the number it spells. |
| Common.Basename | build_solver_vs_baseline.py:18 | os.path.basename: a suffix of the path that holds no '/'. |
| Common.Stem | build_solver_vs_baseline.py:18 | os.path.splitext(...)[0]: a prefix of the name, and the whole name when it holds no dot. |
| Common.StemOfName | build_solver_vs_baseline.py:18 | A slash-free name with a dot-free extension is its own base name, and its stem is the part before the last dot. |
| JsonValue.Get | src/make_markdown_table.py:25-33 | A dict lookup finds a value exactly when the key is present, and the value found is stored under that key. |
| JsonValue.GetFirst | build_solver_vs_baseline.py:34 | The first field with the key decides the lookup. |
| JsonValue.SetField | src/run_baseline_solver.py:21-25 | After `d[k] = v` the key holds v, and every other key looks up as before. |
| StableOrder.Insert | src/solvers/solver_greedy.py:19-20 | Inserting a new index into a sorted order gives a sorted order holding exactly the old indices plus the new one. |
| StableOrder.OrderOf | src/solvers/solver_greedy.py:19-20 | The sorted order of the first n indices holds exactly the indices below n and is sorted by key, ties by index. |
| StableOrder.Order | src/solvers/solver_greedy.py:19-20 | The index order of a stable sort by key: every index below n exactly once, keys never decreasing along it. |
| StableOrder.OrderIsPermutation | src/solvers/solver_greedy.py:19-20 | No index appears twice in the order, and for any two positions the earlier one has a key no larger than the later one. |
| StableOrder.OrderMonotone | step_1/runner.py:69-80 | Along the price order, the price at an earlier position never exceeds the one at a later position (why greedy_fill's rejections stay rejected). |
| Knapsack.KeyFailureFrom | src/solvers/solver_greedy.py:20 | From index i on, no error iff every item has a weight and it is non-zero; otherwise the error names the first item whose ratio cannot be computed, a zero weight (ZeroDivisionError) or a missing one (IndexError). |
| Knapsack.KeyFailure | src/solvers/solver_greedy.py:20 | The sort raises exactly when some ratio values[i]/weights[i] is undefined. |
| Knapsack.RatioOrderSpec | src/solvers/solver_greedy.py:19-20 | The visiting order lists every item once, by non-increasing value/weight ratio, and items of equal ratio stay in index order (sort with reverse=True is stable). |
| Knapsack.SumSelUpdate | src/solvers/solver_new1.py:17-21 | Changing one flag of a selection changes the zip-filtered sum by exactly that item's old and new contribution. |
| Knapsack.ScanFacts | src/solvers/solver_greedy.py:21-28 | Over an order visiting each item at most once, the admission loop builds a 0/1 selection of visited items; total_w and total_v are the weight and value sums over that selection, and total_w stays within a non-negative capacity. |
| Knapsack.ScanWeight | src/solvers/solver_new1.py:30-32 | The running weight of the admission pass equals the weight sum recomputed from the selection, which is what local_search recomputes each time. |
| Knapsack.ScanMaximal | src/solvers/solver_greedy.py:24-28 | With non-negative weights, every visited item left out does not fit next to the final selection. |
| Knapsack.GreedyPassFacts | src/solvers/solver_greedy.py:17-37 | The greedy pass over the ratio order gives a 0/1 selection whose totals are its sums, fits a non-negative capacity, and (with non-negative weights) leaves out only items that do not fit. |
| Knapsack.WorkedExample | src/solvers/solver_greedy.py:17-28 | Values 60, 100, 120 with weights 10, 20, 30 and capacity 50: items 0 and 1 are taken (weight 30, value 160), item 2 is not. |
| Knapsack.TruncToInt | src/solvers/solver_greedy.py:45 | int(capacity) truncates toward zero: a non-negative float lies in [r, r + 1), a negative one in (r - 1, r]. |
| GreedySolver.GreedyRatio | src/solvers/solver_greedy.py:17-37 | Fails exactly when a ratio key is undefined, with the first failing item; otherwise returns the greedy pass over the ratio order: a 0/1 selection whose best_value and total_weight are its sums, feasible for a non-negative capacity, with no left-out item fitting when weights are non-negative; iterations is len(values). |
| GreedySolver.Solve | src/solvers/solver_greedy.py:39-51 | The record names solver "greedy", counts the items, truncates the capacity and carries greedy_ratio's figures; with a non-negative capacity it is feasible and within capacity. |
| LocalSearchSolver.ScoreFlip | src/solvers/solver_new1.py:17-21 | Flipping one flag of a 0/1 selection adds (0 to 1) or removes (1 to 0) exactly that item's value and weight. |
| LocalSearchSolver.Neighbour | src/solvers/solver_new1.py:42-47 | The neighbour differs from the incumbent exactly at i and j (only at i when they are equal), where the flag is inverted; a 0/1 selection stays 0/1. |
| LocalSearchSolver.Step | src/solvers/solver_new1.py:48-50 | An iteration either keeps the incumbent or replaces it by one strictly more valuable and within capacity plus 1e-9. |
| LocalSearchSolver.ClimbFacts | src/solvers/solver_new1.py:38-50 | Over any sequence of draws the value never decreases, the incumbent stays a 0/1 selection whose best_v and best_w are its sums, and a feasible start stays feasible. |
| LocalSearchSolver.GreedyStartFacts | src/solvers/solver_new1.py:27-35 | The starting incumbent is the greedy pass's selection, scored: a 0/1 selection whose value and weight are its sums. |
| LocalSearchSolver.InitialSelection | src/solvers/solver_new1.py:27-32 | The first loop, which recomputes the weight of the selection for each item, selects exactly what the greedy pass over the ratio order selects. |
| LocalSearchSolver.RatioOrderDistinct | src/solvers/solver_new1.py:28-29 | The ratio order visits each item once. |
| LocalSearchSolver.ScanStep | src/solvers/solver_new1.py:30-32 | One step of the first loop: the test on the recomputed weight admits item order[k] exactly when the greedy pass does. |
| LocalSearchSolver.ClimbFromGreedy | src/solvers/solver_new1.py:23-61 | Whatever the random draws, the result is worth at least the greedy selection, is a 0/1 selection whose totals are its sums, and is feasible for a non-negative capacity. |
| LocalSearchSolver.Iterate | src/solvers/solver_new1.py:37-50 | The while loop runs max(0, max_iters) iterations and leaves the incumbent the climb over the first that many draws reaches. |
| LocalSearchSolver.TryFlip | src/solvers/solver_new1.py:40-50 | One iteration's new incumbent is the climb step for the drawn pair. |
| LocalSearchSolver.LocalSearch | src/solvers/solver_new1.py:23-61 | Raises exactly when a ratio key is undefined (the first failing item) or when there are no items and at least one iteration draws randrange(0); otherwise returns the climb from the greedy start: never below the greedy value, a 0/1 selection with consistent totals, feasible for a non-negative capacity, iterations = max(0, max_iters). |
| LocalSearchSolver.Solve | src/solvers/solver_new1.py:63-75 | Runs 6000 iterations: fails exactly for an undefined ratio or no items; the record names "new_solver1", truncates the capacity and is worth at least the greedy selection. |
| LocalSearchSolver.ClimbExample | src/solvers/solver_new1.py:27-50 | On values 60, 100, 120 / weights 10, 20, 30 / capacity 50 the start takes items 0 and 1; the draw (0, 2) is accepted (value 220, weight 50) and the draw (2, 2) is rejected (weight 60). |
| LocalSearchSolver.SwapAccepted | src/solvers/solver_new1.py:42-50 | From that start, swapping items 0 and 2 gives a feasible, better neighbour, which is kept. |
| LocalSearchSolver.AddRejected | src/solvers/solver_new1.py:47-50 | From that start, adding item 2 exceeds the capacity and the incumbent stays. |
| Step1Runner.PriceFailure | step_1/runner.py:30 | The sort raises exactly when some asset's price key cannot be computed, and the error is that of the first such asset in list order: every asset before it has a price. |
| Step1Runner.Prices | step_1/runner.py:30-34 | When every key can be computed, the price list holds float(a.get("price", 0.0)) of each asset, in list order. |
| Step1Runner.Fill | step_1/runner.py:29-45 | The loop's solution fills greedily: the chosen assets are, in order, the first ones of the stable price order (each with its id and price); each of them fitted next to those chosen before it and every later asset does not fit; the spend is the sum of the chosen prices and stays within a non-negative budget; leftover is max(0, budget - spend) and chosen_count the number chosen. |
| Step1Runner.FillUnique | step_1/runner.py:29-45 | That characterisation determines the solution: two solutions that both fill greedily for the same input are equal, a negative budget included. |
| Step1Runner.SamePrefix | step_1/runner.py:36-40 | Two greedy solutions choose the same assets up to the shorter one's length. |
| Step1Runner.GreedyFill | step_1/runner.py:25-45 | Raises exactly when reading the budget, the asset list or a price raises, with that error; otherwise returns the one solution that fills greedily for the input it read. |
| Step1Runner.Metrics | step_1/runner.py:69-80 | The metrics dictionary's best_cost is the solution's leftover, and it has neither an allocations key nor a total_cost key. |
| BaselineRunner.Member | src/run_baseline_solver.py:16 | On a dict, `k in data` is true exactly when k is one of its keys. |
| BaselineRunner.Labelled | src/run_baseline_solver.py:20-21 | A dict with an id is left alone; a dict without one gets id item_<position> and keeps every other field; anything else is unchanged. |
| BaselineRunner.ItemError | src/run_baseline_solver.py:22-24 | A dict item passes exactly when it has both value and weight. |
| BaselineRunner.FirstBad | src/run_baseline_solver.py:19-24 | The position where the loop stops: every item before it passes, and the item there, if any, raises. |
| BaselineRunner.Visited | src/run_baseline_solver.py:19-24 | The loop sees at most every item, and every item when none raises. |
| BaselineRunner.LabelAt | src/run_baseline_solver.py:20-21 | Writing the default id changes the item at that position as Labelled says and no other item. |
| BaselineRunner.NormalizeItems | src/run_baseline_solver.py:19-24 | The in-place loop raises the error of the first item missing value or weight, or none; every item it visited (the failing one included) carries its id, and the items after it are untouched. |
| BaselineRunner.Load | src/run_baseline_solver.py:12-26 | A dict without items or capacity raises the "must contain" error; a success is a dict that keeps the capacity and whose instance_id is the given one, else the file stem. |
| BaselineRunner.LoadInstance | src/run_baseline_solver.py:12-26 | The loader, running the normalisation loop in place on an array of items, returns exactly Load's outcome. |
| BaselineRunner.LabelledComplete | src/run_baseline_solver.py:19-24 | A dict item the loop passes ends up with an id, a value and a weight. |
| BaselineRunner.LoadedFields | src/run_baseline_solver.py:19-26 | A successful load means no item raised, and the result is the input dict with the labelled item list and the instance_id written in. |
| BaselineRunner.LoadedItemsComplete | src/run_baseline_solver.py:12-26 | After a successful load every dict item holds an id, a value and a weight. |
| BaselineRunner.LabelledItemsComplete | src/run_baseline_solver.py:19-24 | When no item raises, every labelled dict item holds an id, a value and a weight. |
| BaselineRunner.Ids | src/run_baseline_solver.py:30 | The ids read from the items, position by position. |
| BaselineRunner.Keys | src/run_baseline_solver.py:30 | The variables of the model: no id twice, and exactly the ids of the items. |
| BaselineRunner.KeysOfDistinct | src/run_baseline_solver.py:30 | When the ids are distinct there is one variable per item, in item order. |
| BaselineRunner.Picked | src/run_baseline_solver.py:41 | The positions whose value exceeds 0.5, ascending, and every such position. |
| BaselineRunner.Chosen | src/run_baseline_solver.py:41 | The selected ids are variables of the model, no more of them than variables. |
| BaselineRunner.ChosenAt | src/run_baseline_solver.py:41 | The selection is the variable keys at the picked positions, in key order. |
| BaselineRunner.ChosenPicked | src/run_baseline_solver.py:41 | A key is selected when its value exceeds 0.5, and every selected key is one whose value does. |
| BaselineRunner.PostProcess | src/run_baseline_solver.py:37-56 | The status is the solver status's name and the runtime is the measured one; when optimal the objective is the solver's and the selection is the keys whose value exceeds 0.5, in key order; otherwise there is no objective, nothing is selected and total_weight is 0; selected_count counts the selection; every selected id is an item id. |
| BaselineRunner.TotalWeightOfDistinct | src/run_baseline_solver.py:41-47 | With distinct ids, summing the first matching item's weight over the selection is the weight of the items whose variable was set. |
| BaselineRunner.ReportedWeight | src/run_baseline_solver.py:37-56 | For an optimal answer over distinct ids, the reported total_weight is the weight of the selected items. |
| BaselineRunner.DuplicateIdCountsOnce | src/run_baseline_solver.py:30-47 | Two items sharing an id share one variable, and total_weight counts only the first one's weight, not the sum of both. |
| BaselineRunner.OutputNameParts | src/run_baseline_solver.py:78-79 | The result file name is the 16-character UTC stamp with an underscore, the instance id, an underscore and the tag, then ".json". |
| BaselineRunner.OutputNameRoundTrip | src/run_baseline_solver.py:78-79 | A result file written with a pulp, solver or baseline tag canonicalises back to its instance id under the comparison script's name normaliser. |
| SolverVsBaseline.StripTimestamp | build_solver_vs_baseline.py:14-19 | A leading eight-digit, T, six-digit, Z, underscore stamp is removed (exactly its 17 characters); any other text is left unchanged. |
| SolverVsBaseline.TagAtEnd | build_solver_vs_baseline.py:15 | A tag found at the end is a real suffix that reads _pulp, _solver or _baseline in any case. |
| SolverVsBaseline.StripTag | build_solver_vs_baseline.py:15-20 | Text without a tag at its end (or just before a final line break) is left unchanged. |
| SolverVsBaseline.NormInstanceFromName | build_solver_vs_baseline.py:17-21 | The canonical id never holds a '/': the directory part is always gone. |
| SolverVsBaseline.TagAtEndOf | build_solver_vs_baseline.py:15 | A tag at the end of a text is found whole: a shorter tag length never matches the tail of a longer tag. |
| SolverVsBaseline.StripStamp | build_solver_vs_baseline.py:19 | Exactly one stamp is removed from the front. |
| SolverVsBaseline.StripTagOf | build_solver_vs_baseline.py:20 | Exactly one tag is removed from the end. |
| SolverVsBaseline.NormStampedName | build_solver_vs_baseline.py:17-21 | A stamp, an id, a tag and an extension normalise back to the id. |
| SolverVsBaseline.NormExample | build_solver_vs_baseline.py:17-21 | 20240101T000000Z_inst_a_pulp.json normalises to inst_a. |
| SolverVsBaseline.NormIdentity | build_solver_vs_baseline.py:17-21 | A name without directory, extension, stamp or tag is its own id. |
| SolverVsBaseline.NormNotIdempotent | build_solver_vs_baseline.py:15-20 | Only one tag is removed, so normalising is not idempotent: x_solver_pulp gives x_solver, which gives x. |
| SolverVsBaseline.NormOfStem | build_solver_vs_baseline.py:18 | A dot-free extension does not change the id. |
| SolverVsBaseline.NormTagged | build_solver_vs_baseline.py:17-21 | A plain name followed by one tag loses exactly that tag. |
| SolverVsBaseline.LookupAppend | build_solver_vs_baseline.py:23-30 | Walking a path a + b is walking a, then walking b from where a ends (a missing step stays missing). |
| SolverVsBaseline.Dig | build_solver_vs_baseline.py:23-30 | The loop over the dotted path returns the value the whole path reaches through nested dicts, else None. |
| SolverVsBaseline.DigDotless | build_solver_vs_baseline.py:26-34 | For a key without dots, dig and d.get agree. |
| SolverVsBaseline.First | build_solver_vs_baseline.py:32-37 | None exactly when every alias gives None; otherwise the value of the first alias that gives something, every earlier one giving None. |
| SolverVsBaseline.FirstOfEmpty | build_solver_vs_baseline.py:32-37 | Nothing is found in an empty dict, whatever the aliases. |
| SolverVsBaseline.ToFloatPadded | build_solver_vs_baseline.py:39-43 | to_float reads a digit string with surrounding whitespace as its number. |
| SolverVsBaseline.IntIfDigits | build_solver_vs_baseline.py:81-82 | A non-empty string of ASCII digits becomes the integer it spells; every other value is kept as it is. |
| SolverVsBaseline.Relabel | build_solver_vs_baseline.py:64-66 | A falsy solver value becomes "baseline" with the hint and "unknown" without; without the hint a truthy value is kept as it is; with the hint a truthy non-string fails (it has no lower()), a backend name (pulp, cbc, gurobi or solver, in any case) becomes "baseline" and any other string is kept; so with the hint a result is never a backend name. |
| SolverVsBaseline.SolverLabel | build_solver_vs_baseline.py:64-66 | The same relabelling, case by case, for the value found first under the solver's aliases. |
| SolverVsBaseline.LoadRecord | build_solver_vs_baseline.py:59-86 | Fails at the start exactly when the file's JSON is not a dict; otherwise fails on a truthy non-string instance id (its normalisation needs text), then on a truthy non-string solver under the hint, and succeeds in every other case. A record keeps a truthy raw id as it is and otherwise takes it from the file name; its instance is the normalised raw id; its solver is the relabelled solver; objective and runtime are to_float of their first aliases; status is "-" when falsy; selected and total_weight become integers when all digits; the source path and the baseline flag are those given; a baseline record's display name is the file stem, a challenger's is its instance. |
| SolverVsBaseline.FilenameIdNormalisedTwice | build_solver_vs_baseline.py:59-62 | A file naming no instance is filed under its name's id normalised a second time: id_solver_pulp.json is filed as raw id_solver and instance id. |
| SolverVsBaseline.Records | build_solver_vs_baseline.py:45-87 | There are never more records than entries, and each carries the hint it was loaded with. |
| SolverVsBaseline.RecordsCrashStops | build_solver_vs_baseline.py:49-86 | Once an entry crashes, the whole load fails with that crash: later entries do not matter. |
| SolverVsBaseline.LoadRecords | build_solver_vs_baseline.py:45-87 | The loop over the listing returns exactly the records, or the crash, that Records specifies. |
| SolverVsBaseline.IndexByInstance | build_solver_vs_baseline.py:92-93 | Every record's instance is a key; each key maps to a record filed under it; the last record filed under an id is the one kept. |
| SolverVsBaseline.MakeRow | build_solver_vs_baseline.py:97-120 | A row keeps both records; each delta exists exactly when both records and both values exist, and is challenger minus baseline; the source is the challenger's, else the baseline's, else "-". |
| SolverVsBaseline.IndexKeys | build_solver_vs_baseline.py:92-93 | The keys of the index are exactly the instances of the records. |
| SolverVsBaseline.UnionIdsAreKeys | build_solver_vs_baseline.py:94 | The row ids are strictly ascending (hence distinct) and are exactly the keys of the two indexes. |
| SolverVsBaseline.BuildRows | build_solver_vs_baseline.py:94-120 | One row per id of the sorted union, in order, joining the challenger and baseline records kept for that id. |
| TextOrder.LessIrreflexive | build_solver_vs_baseline.py:94 | No id sorts before itself. |
| TextOrder.LessTransitive | build_solver_vs_baseline.py:94 | The string order sorted() uses is transitive. |
| TextOrder.LessTotal | build_solver_vs_baseline.py:94 | Any two different ids are ordered one way or the other. |
| TextOrder.LessAsymmetric | build_solver_vs_baseline.py:94 | Two ids are never ordered both ways. |
| TextOrder.InsertUnique | build_solver_vs_baseline.py:94 | Adding an id to a strictly ascending list keeps it strictly ascending and adds exactly that id. |
| TextOrder.SortedDistinct | build_solver_vs_baseline.py:94 | sorted(set(...)) is strictly ascending and holds exactly the ids given. |
| TextOrder.SortedDistinctNoRepeats | build_solver_vs_baseline.py:94 | No id appears twice among the rows. |
| MarkdownTable.PayloadRow | src/make_markdown_table.py:21-37 | A row is recorded exactly when the payload is a dict whose metrics (default {}) is a dict, otherwise the file is skipped; each present field (instance_id and solver of the payload; status, objective_value, runtime_seconds, selected_count and total_weight of its metrics) is carried over, each missing one gets its default ("unknown" or None), and the source is the file's path. |
| MarkdownTable.NestedAndFlatAgree | src/make_markdown_table.py:40-51 | The two figures nested under metrics and the same figures at the top level give the same entry. |
| MarkdownTable.LoadBaseline | src/make_markdown_table.py:64-82 | Filling the map step by step gives exactly the shape dispatch: a dict of dicts keyed by its keys, another dict as one entry under its truthy id, a list entry by entry, anything else empty; crashes on an entry that is not a dict or an id that cannot be a key. |
| MarkdownTable.LoadKeyed | src/make_markdown_table.py:67-70 | The loop over a dict of dicts builds exactly the keyed map. |
| MarkdownTable.LoadListed | src/make_markdown_table.py:75-79 | The loop over a list builds exactly the listed map, or stops with the first entry's crash. |
| MarkdownTable.ListedCrashStops | src/make_markdown_table.py:76-79 | Once an entry crashes, the entries after it do not matter. |
| MarkdownTable.KeyedKeys | src/make_markdown_table.py:67-70 | The keys of a keyed baseline are exactly the keys of the file. |
| MarkdownTable.KeyedLastWins | src/make_markdown_table.py:68-70 | The last field with a given key decides that key's entry. |
| MarkdownTable.ListedKeys | src/make_markdown_table.py:76-79 | A list that loads holds only dicts, and every key is the truthy id of one of its entries. |
| MarkdownTable.ListedLast | src/make_markdown_table.py:76-79 | Loading a list is loading all but its last entry, then storing the last entry under its id when it has one. |
| MarkdownTable.ListedLastWins | src/make_markdown_table.py:76-79 | The last entry with a given id decides that id's figures. |
| MarkdownTable.SingleOrUnsupported | src/make_markdown_table.py:71-81 | A dict that is not all dicts is kept as a single entry only under a truthy id; a value that is neither dict nor list gives an empty map. |
| MarkdownTable.Fmt | src/make_markdown_table.py:84-90 | None shows as "-"; a value float() accepts shows with three decimals; anything else shows as str(). |
| MarkdownTable.FmtDelta | src/make_markdown_table.py:92-100 | A delta is shown exactly when both sides are present and float() accepts both; it is ours minus base with "+" exactly when non-negative; otherwise "-". |
| MarkdownTable.RowCells | src/make_markdown_table.py:119-132 | Ten cells, the id first and the source last; an id without a baseline entry shows "-" for both deltas. |
| MarkdownTable.FirstBadRow | src/make_markdown_table.py:119-133 | The first row whose id or solver is not text (the join raises there), or none when every row is joinable. |
| MarkdownTable.Preamble | src/make_markdown_table.py:103-118 | Seven lines, ending with the header row of the ten column names and the separator row. |
| MarkdownTable.BuildMarkdown | src/make_markdown_table.py:102-134 | Raises exactly at the first row that cannot be joined; otherwise the preamble (naming the baseline file exactly when the map is non-empty) and one line per result, in input order, with that result's cells. |
| MarkdownTable.AppendRows | src/make_markdown_table.py:119-133 | The row loop keeps the lines so far and appends one line per result in order, or stops at the first result that cannot be joined. |
| PortfolioMetrics.FirstTruthyAt | tools/metrics_from_portfolio.py:36-39 | In a chain of `or` lookups the first alias with a truthy value decides, whatever follows it. |
| PortfolioMetrics.FirstTruthyFalls | tools/metrics_from_portfolio.py:36-39 | When every alias is falsy (missing, 0, empty, False or None) the chain gives its default. |
| PortfolioMetrics.FirstTruthyIsTruthy | tools/metrics_from_portfolio.py:38-39 | The objective and runtime read are truthy values or None. |
| PortfolioMetrics.Nest | tools/metrics_from_portfolio.py:42-48 | The result is always a dict of dicts: a dict of dicts unchanged, any other dict as the single bucket "ALL", anything else empty. |
| PortfolioMetrics.NestIdempotent | tools/metrics_from_portfolio.py:42-51 | Nesting twice is nesting once. |
| PortfolioMetrics.Unsatisfied | tools/metrics_from_portfolio.py:64-67 | The count succeeds exactly when every guardrail entry is a dict (it.get raises otherwise) and is at most the number of entries. |
| PortfolioMetrics.UnsatisfiedZero | tools/metrics_from_portfolio.py:64-67 | No violation is counted exactly when every entry's satisfied is True. |
| PortfolioMetrics.ListCounts | tools/metrics_from_portfolio.py:65-67 | A guardrail list counts its length as the total. |
| PortfolioMetrics.DictCounts | tools/metrics_from_portfolio.py:57-64 | With both counts present, the "items" list is not consulted and the counts are kept. |
| PortfolioMetrics.FirstPresent | tools/metrics_from_portfolio.py:58-59 | (Corrected reading.) None exactly when no alias holds a value; otherwise the value of some alias. |
| PortfolioMetrics.ZeroViolationsLost | tools/metrics_from_portfolio.py:54-96 | As written, a run reporting {"violations": 0, "total": 5} has its violation count read as None and gets no guardrail score. |
| PortfolioMetrics.CleanRunCounts | tools/metrics_from_portfolio.py:54-59 | That run's counts read as written are (None, 5). |
| PortfolioMetrics.NoViolationsScoreFull | tools/metrics_from_portfolio.py:54-96 | With the corrected reading, a present non-positive violation count with a positive total scores 100. |
| PortfolioMetrics.ExtractWith | tools/metrics_from_portfolio.py:36-51 | Around given guardrail counts: fails exactly when they do and keeps them; targets and achieved come out as dicts of dicts; objective and runtime are truthy values or None. |
| PortfolioMetrics.ExtractStruct | tools/metrics_from_portfolio.py:27-69 | As written: the counts are those of the `or` chains (a count of 0 read as None), and the crash of a non-dict guardrail entry is passed on; targets and achieved are dicts of dicts; objective and runtime are truthy values or None. |
| PortfolioMetrics.ExtractStructIntended | tools/metrics_from_portfolio.py:54-69 | (Corrected reading.) The same extraction with the counts read as present-or-None, so 0 is kept. |
| PortfolioMetrics.CleanRunExtracted | tools/metrics_from_portfolio.py:54-69 | The run {"violations": 0, "total": 5} is extracted with counts (None, 5) as written and (0, 5) as intended. |
| PortfolioMetrics.RelativeError | tools/metrics_from_portfolio.py:71-73 | Never negative, zero exactly when the achieved value equals the target; it is the difference scaled by \|t\| when \|t\| > 1e-12 and the plain difference otherwise. |
| PortfolioMetrics.BucketPairsStep | tools/metrics_from_portfolio.py:83-85 | One more target characteristic adds its pair exactly when both values are numbers and the achieved bucket has it. |
| PortfolioMetrics.MatchPairsStep | tools/metrics_from_portfolio.py:81-85 | One more target bucket adds that bucket's pairs after those so far. |
| PortfolioMetrics.ErrorsAppend | tools/metrics_from_portfolio.py:80-85 | The errors of two runs of pairs, one after the other, are the two error lists concatenated. |
| PortfolioMetrics.Errors | tools/metrics_from_portfolio.py:85 | One relative error per compared pair, in order. |
| PortfolioMetrics.Score | tools/metrics_from_portfolio.py:86-90 | No score (NaN) exactly when nothing was compared; otherwise a value between 0 and 100. |
| PortfolioMetrics.BucketErrors | tools/metrics_from_portfolio.py:83-85 | The inner loop collects exactly the errors of the bucket's compared pairs. |
| PortfolioMetrics.ComputeMatchScore | tools/metrics_from_portfolio.py:75-90 | The nested loops give the score of the errors of all compared pairs, bucket by bucket in target order. |
| PortfolioMetrics.SumNonNegative | tools/metrics_from_portfolio.py:88 | A sum of non-negative errors is non-negative, and zero exactly when every error is. |
| PortfolioMetrics.PerfectScore | tools/metrics_from_portfolio.py:75-90 | The match score is 100 exactly when something was compared and every achieved value equals its target. |
| PortfolioMetrics.SatisfiedPercent | tools/metrics_from_portfolio.py:95-96 | Between 0 and 100; 100 with no violations, 0 when violations reach the total. |
| PortfolioMetrics.ShareBounds | tools/metrics_from_portfolio.py:95-96 | The satisfied share of a positive total lies in [0, 1], and is 1 when all are satisfied. |
| PortfolioMetrics.GuardrailScore | tools/metrics_from_portfolio.py:92-96 | No score when a count is None or the total is not positive; a score lies between 0 and 100 and is the satisfied percentage of numeric counts. |
| PortfolioMetrics.CombineAccuracy | tools/metrics_from_portfolio.py:98-109 | No accuracy exactly when neither score is present. |
| PortfolioMetrics.CombineSingle | tools/metrics_from_portfolio.py:98-109 | A single score present is returned as it is. |
| PortfolioMetrics.CombineBoth | tools/metrics_from_portfolio.py:98-109 | Two scores combine to 0.7 × match + 0.3 × guard, which lies between them. |
| PortfolioMetrics.Coalesce | tools/metrics_from_portfolio.py:144-148 | A new number wins; otherwise the current cell is kept when it holds a real value, and a placeholder or empty cell becomes "pending". |
| PortfolioMetrics.CoalesceStable | tools/metrics_from_portfolio.py:144-148 | Coalescing again with no new value keeps what coalesce wrote. |
| PortfolioMetrics.Speedup | tools/metrics_from_portfolio.py:178-183 | A speedup exists exactly when both runtimes are known and the solver's is positive, and then speedup × solver runtime = baseline runtime. |
| PortfolioMetrics.SpeedupCell | tools/metrics_from_portfolio.py:190 | The new speedup when there is one, otherwise a non-empty cell (the current one or "—"). |
| PortfolioMetrics.RowMatches | tools/metrics_from_portfolio.py:117-139 | A row written for a title is matched by pick for that title, giving back both cells stripped, whatever text follows the row. |
| PortfolioMetrics.RowMisses | tools/metrics_from_portfolio.py:117-121 | A row written for one title is not matched for a title that differs from it, whatever text follows the row. |
| PortfolioMetrics.TwoCellsOf | tools/metrics_from_portfolio.py:118 | The two cell groups of the pattern are the texts before the next two pipes, stripped, whatever text follows the second pipe. |
| PortfolioMetrics.ReadTableValues | tools/metrics_from_portfolio.py:111-127 | Both cells of a row come from one match, so the two runtimes are found together or not at all, and so are the two accuracies. |
| PortfolioMetrics.FromLineSplit | tools/metrics_from_portfolio.py:118 | Where the multi-line pattern may start, the text from a line start on is that line followed by nothing or by a line break and the lines after it. |
| PortfolioMetrics.SpeedupAcrossLines | tools/metrics_from_portfolio.py:118 | The pattern's whitespace and cell runs cross line breaks: a speedup row with a single value cell, followed by a line that starts with a pipe, still yields that value as the speedup. |
| PortfolioMetrics.TableRoundTrip | tools/metrics_from_portfolio.py:111-142 | Reading back the table write_table wrote gives the five cells it wrote, stripped, as long as no cell holds a pipe or a line break. |
| PortfolioMetrics.LinesHaveNoBreak | tools/metrics_from_portfolio.py:134-142 | No line of the written table holds a line break, so splitting the text gives back its lines. |
| PortfolioMetrics.SpeedupRowFirst | tools/metrics_from_portfolio.py:118-126 | No line above the speedup row matches the speedup title. |
| FillMetrics.CollapseShape | tools/fill_metrics.py:28 | Collapsing whitespace runs leaves no whitespace but single spaces, empty exactly for empty input, and keeps non-whitespace ends as they are. |
| FillMetrics.CollapseWords | tools/fill_metrics.py:28 | Collapsing whitespace runs keeps the text's words (those of str.split()) exactly. |
| FillMetrics.Norm | tools/fill_metrics.py:27-28 | The result is normal: stripped, lower-case, single-spaced. |
| FillMetrics.NormWords | tools/fill_metrics.py:27-28 | norm returns a normal text whose words are exactly the input's words, each lower-cased. |
| FillMetrics.StripEnds | tools/fill_metrics.py:28 | A stripped text neither starts nor ends with whitespace. |
| FillMetrics.CollapseNormal | tools/fill_metrics.py:28 | Collapsing text that is already single-spaced changes nothing. |
| FillMetrics.NormalFixed | tools/fill_metrics.py:27-28 | Normalising a normal text changes nothing. |
| FillMetrics.NormIdempotent | tools/fill_metrics.py:27-28 | Normalising twice is normalising once. |
| FillMetrics.ContainsAnyOfNorm | tools/fill_metrics.py:30-32 | A keyword test gives the same answer on a header cell and on its normalised form. |
| FillMetrics.EnsureRuntimeUnit | tools/fill_metrics.py:34-39 | The stripped value is kept when it already ends a word with ms or s (any case), otherwise " s" is appended; either way the result carries a time unit. |
| FillMetrics.EnsurePercent | tools/fill_metrics.py:41-45 | The stripped value is kept when it holds a '%', otherwise " %" is appended; either way the result holds a '%'. |
| FillMetrics.EnsureRuntimeUnitIdempotent | tools/fill_metrics.py:34-39 | For a value that is not blank, adding the unit twice is adding it once. |
| FillMetrics.EnsurePercentIdempotent | tools/fill_metrics.py:41-45 | For a value that is not blank, adding the percent sign twice is adding it once. |
| FillMetrics.EnsureRuntimeUnitOfEmpty | tools/fill_metrics.py:34-39 | A blank value is not a fixed point: "" gives " s", which gives "s". |
| FillMetrics.SkipSpaces | tools/fill_metrics.py:53 | `\s*` reads the longest run of whitespace from a position. |
| FillMetrics.SkipDashes | tools/fill_metrics.py:53 | `-{3,}` reads the longest run of dashes from a position. |
| FillMetrics.HeaderFrom | tools/fill_metrics.py:52-55 | The first line from a position that holds a '\|' and is followed by a separator line; none exactly when there is no such line. |
| FillMetrics.SplitRow | tools/fill_metrics.py:62-64 | A row always splits into at least one cell. |
| FillMetrics.KeepFilled | tools/fill_metrics.py:72-75 | A row of empty cells is skipped; any other row is kept. |
| FillMetrics.RowsFilled | tools/fill_metrics.py:68-75 | No row collected is made of empty cells only. |
| FillMetrics.RowsStop | tools/fill_metrics.py:69-70 | The first line without a '\|' ends the table: nothing after it is read. |
| FillMetrics.ParseMdTable | tools/fill_metrics.py:47-77 | Parsing the text's lines gives the header and rows of the first table, or the "no separator" error. |
| FillMetrics.ParseLines | tools/fill_metrics.py:50-77 | The header search and the row loop over a list of lines give what the table parse specifies. |
| FillMetrics.FindHeader | tools/fill_metrics.py:51-55 | The loop finds the first header line followed by a separator line. |
| FillMetrics.CollectRows | tools/fill_metrics.py:67-75 | The row loop collects exactly the non-empty split rows, up to the first line without a '\|'. |
| FillMetrics.RowsStep | tools/fill_metrics.py:68-75 | One more table line adds its row, unless all its cells are empty. |
| FillMetrics.Fit | tools/fill_metrics.py:83 | A row cut or padded with empty cells to exactly n cells, keeping its first cells. |
| FillMetrics.FitAll | tools/fill_metrics.py:83 | Every row fitted to the header's width, in order. |
| FillMetrics.FindFirstTable | tools/fill_metrics.py:79-84 | Fails exactly when the parse fails; otherwise returns the parsed header and every row fitted to its width, so the table is rectangular. |
| FillMetrics.FittedRowsRectangular | tools/fill_metrics.py:83 | Every fitted row has the header's number of cells. |
| FillMetrics.FirstWhere | tools/fill_metrics.py:105-114 | The first position satisfying a test, with none before it; none exactly when no position satisfies it. |
| FillMetrics.LastWhere | tools/fill_metrics.py:120-127 | The last position satisfying a test, with none after it; none exactly when no position satisfies it. |
| FillMetrics.FirstTwo | tools/fill_metrics.py:110-114 | The loop that keeps only the first match for two tests finds the first match of each. |
| FillMetrics.LastTwo | tools/fill_metrics.py:120-127 | The loop that overwrites on every match for two tests ends with the last match of each. |
| FillMetrics.NormEach | tools/fill_metrics.py:100 | Each header cell normalised, in order. |
| FillMetrics.Column | tools/fill_metrics.py:121 | The cells of one column, row by row. |
| FillMetrics.OrientationA | tools/fill_metrics.py:103-134 | Orientation A succeeds only with four non-empty values. |
| FillMetrics.FindMetrics | tools/fill_metrics.py:86-163 | The metric search on a rectangular table gives exactly what the two orientations specify over the normalised header and the source's keywords. |
| FillMetrics.FindMetricsIn | tools/fill_metrics.py:100-163 | Orientation A when it yields all four values, else orientation B, else the "could not detect" error. |
| FillMetrics.ReadMetricRows | tools/fill_metrics.py:117-134 | The row loop of orientation A gives exactly OrientationA's values. |
| FillMetrics.ReadMetricColumns | tools/fill_metrics.py:147-161 | The row loop of orientation B gives exactly OrientationB's values. |
| FillMetrics.FirstWhereAppend | tools/fill_metrics.py:151-154 | Once a match is found, later elements do not change it. |
| FillMetrics.LastWhereAppend | tools/fill_metrics.py:122-127 | A later match replaces the one found so far; a later non-match leaves it. |
| FillMetrics.LastRuntimeRowWins | tools/fill_metrics.py:120-124 | In orientation A a later runtime row replaces the runtime values read so far and keeps the accuracy values. |
| FillMetrics.FirstLabelledRowsWin | tools/fill_metrics.py:149-154 | In orientation B, rows after the first solver and baseline rows do not change the values read. |
| FillMetrics.OrientationBAt | tools/fill_metrics.py:138-161 | Orientation B reads the first solver and baseline rows at the first runtime and accuracy columns. |
| FillMetrics.NormEachIdempotent | tools/fill_metrics.py:100 | Normalising a normalised header changes nothing. |
| FillMetrics.DetectOfNormalHeader | tools/fill_metrics.py:100 | Detecting on an already normalised header gives the same values. |
| FillMetrics.ReplaceEach | tools/fill_metrics.py:192-203 | Every line that contains the label, in any case, becomes the bullet; every other line stays. |
| FillMetrics.ReplaceLinesLines | tools/fill_metrics.py:192-197 | Over the text's lines, a line containing the label becomes the bullet and the others are unchanged, with the number of lines kept. |
| FillMetrics.ReplaceLinesNoMatch | tools/fill_metrics.py:192-197 | A text with no line holding the label is left as it is. |
| FillMetrics.BulletLines | tools/fill_metrics.py:184-204 | After both substitutions each line is the runtime bullet if it held "runtime:", else the accuracy bullet if it held "accuracy:", else unchanged. |
| FillMetrics.OwnerRepoAt | tools/fill_metrics.py:228 | A match of the bare placeholder ends after where it starts and within the text. |
| FillMetrics.FullLinkAt | tools/fill_metrics.py:226 | A match of the spaced link placeholder ends after where it starts and within the text. |
| FillMetrics.BareLinkAt | tools/fill_metrics.py:228 | A match of the word-bounded bare placeholder ends after where it starts and within the text. |
| FillMetrics.FixPlaceholderLinks | tools/fill_metrics.py:221-229 | Without a repository URL (None or empty) the text is returned unchanged. |
| FillMetrics.SpacedLinkFixed | tools/fill_metrics.py:225-226 | The placeholder link "https://github.com/ your-username/your-repo" becomes the repository URL. |
| FillMetrics.SpacedLinkWhole | tools/fill_metrics.py:226 | The link pattern matches that whole placeholder link, the space after the host included. |
| FillMetrics.BarePlaceholderFixed | tools/fill_metrics.py:227-228 | The bare placeholder "your-username / your-repo" becomes owner/repo of the URL. |
| FillMetrics.NoLinkInPlaceholder | tools/fill_metrics.py:226 | The link pattern matches nowhere in the bare placeholder. |
| FillMetrics.OwnerRepoOfParts | tools/fill_metrics.py:224 | For a URL of '/'-separated parts ending in a non-empty part, owner/repo is its last two parts joined by '/'. |
| FillMetrics.FixLinksWithoutPlaceholder | tools/fill_metrics.py:221-229 | A text with no placeholder match is returned unchanged. |
| FillMetrics.BarePlaceholderMatches | tools/fill_metrics.py:228 | "your-username / your-repo" matches, spaces around the slash included; the same words glued to a preceding letter do not (the word boundary). |
| FillMetrics.OwnerRepoAtOf | tools/fill_metrics.py:228 | The owner word, optional spaces, a slash, optional spaces and the repo word form a match ending after the repo word. |
| FillMetrics.FirstCell | tools/fill_metrics.py:209 | A line has a first cell exactly when it starts with '\|' and holds another '\|'; the cell is the '\|'-free text between the first two. |
| FillMetrics.RowOfCells | tools/fill_metrics.py:210-212 | The row the callback writes splits on '\|' into the stripped left cell and the two values, each padded with one space, between two empty ends. |
| FillMetrics.RowSubLines | tools/fill_metrics.py:208-213 | repl_row keeps the number of lines and rewrites exactly the lines whose first cell holds one of the kind's keywords, keeping every other line. |
| FillMetrics.NoAccuracyKey | tools/fill_metrics.py:218 | A first cell without the letter a in any case holds neither "accuracy" nor a separate "acc". |
| FillMetrics.RuntimeCellKeys | tools/fill_metrics.py:217-218 | The first cell " Runtime " matches the runtime keywords and not the accuracy ones. |
| FillMetrics.RuntimeRowsLost | tools/fill_metrics.py:206-219 | As written, a text with no first cell naming accuracy comes back unchanged, runtime rows included. |
| FillMetrics.RuntimeRowIgnored | tools/fill_metrics.py:206-219 | A one-line row "\| Runtime \|...", such as "\| Runtime \| 1 \| 2 \|", is returned unchanged as written, while the intended function turns it into "\| Runtime \| solver \| baseline \|". |
| FillMetrics.ReplaceRowsLines | tools/fill_metrics.py:206-219 | (Corrected.) Each line goes through the runtime rewrite and then the accuracy rewrite, and the number of lines is kept. |
| FillMetricsSimple.ColumnOf | tools/fill_metrics_simple.py:14-18 | The first header cell containing the keyword (ignoring case), none before it; none exactly when no cell contains it. |
| FillMetricsSimple.FindColumnIndex | tools/fill_metrics_simple.py:14-18 | The loop returns that first column, or raises the "no column containing" error exactly when there is none. |
| FillMetricsSimple.ColumnOfPrefix | tools/fill_metrics_simple.py:15-17 | A column found among the first n header cells is the column found in the whole header. |
| FillMetricsSimple.HeaderLineFrom | tools/fill_metrics_simple.py:33-38 | The first line that starts with '\|' once stripped, none before it; none exactly when no line does. |
| FillMetricsSimple.FindHeaderLine | tools/fill_metrics_simple.py:33-38 | The for/else loop finds exactly that first header line. |
| FillMetricsSimple.Cells | tools/fill_metrics_simple.py:40-50 | A line always splits into at least one cell. |
| FillMetricsSimple.ScanSkipsPlainLine | tools/fill_metrics_simple.py:47-49 | A line without '\|' anywhere among the rows is passed over: removing it changes nothing. |
| FillMetricsSimple.FirstDecidingRowWins | tools/fill_metrics_simple.py:47-57 | The first row whose runtime is a number decides (or whose cells run out, which raises); rows after it are not read. |
| FillMetricsSimple.ScanRows | tools/fill_metrics_simple.py:47-57 | The continue/break loop gives exactly the scan's outcome. |
| FillMetricsSimple.ReadTable | tools/fill_metrics_simple.py:30-60 | The table-reading steps give the runtime and objective of the first numeric row, or the first error met: no header line, no runtime or objective column, a short row, or no numeric runtime. |
| FillMetricsSimple.SubLine | tools/fill_metrics_simple.py:71-72 | A line without the label is unchanged; otherwise the line is cut at an occurrence of the label and the replacement follows. |
| FillMetricsSimple.SubLineKeepsPrefix | tools/fill_metrics_simple.py:71-72 | The cut is at the first occurrence: the text before it is kept and holds no earlier label. |
| FillMetricsSimple.SubEach | tools/fill_metrics_simple.py:71-72 | Every line rewritten on its own, in order. |
| FillMetricsSimple.SubToLineEndLines | tools/fill_metrics_simple.py:71-72 | The substitution keeps the number of lines and rewrites each line on its own. |
| FillMetricsSimple.RunTwiceAddsBullet | tools/fill_metrics_simple.py:71 | The runtime bullet holds "Runtime:" itself, so running the script again keeps the "• " before it and adds another bullet mark. |
| FillMetricsSimple.RepoUrlCutsName | tools/fill_metrics_simple.py:25 | As written, rstrip(".git") removes the whole run of '.', 'g', 'i' and 't' at the end of the URL, eating into the repository name. |
| FillMetricsSimple.RepoUrlOfKit | tools/fill_metrics_simple.py:20-25 | As written, the remote https://github.com/me/kit.git comes out as https://github.com/me/k. |
| FillMetricsSimple.DropGitSuffix | tools/fill_metrics_simple.py:25 | (Corrected.) A URL ending in ".git" loses exactly that suffix; any other URL is unchanged. |
| FillMetricsSimple.DropGitSuffixExact | tools/fill_metrics_simple.py:25 | (Corrected.) Removing the suffix gives back the URL before it, and leaves a URL without it alone. |
| FillMetricsSimple.EscapedLinkAt | tools/fill_metrics_simple.py:74 | As written, a match ends after its start and needs a backslash after "https://github". |
| FillMetricsSimple.EscapedLinkNeverMatches | tools/fill_metrics_simple.py:74 | As written, a text without a backslash never matches, so the link substitution leaves it unchanged. |
| FillMetricsSimple.PlaceholderLinkKept | tools/fill_metrics_simple.py:74 | As written, the placeholder link https://github.com/your-username/your-repo is never replaced. |
| FillMetricsSimple.LinkAt | tools/fill_metrics_simple.py:74 | (Corrected pattern.) A match ends after its start and within the text. |
| FillMetricsSimple.PlaceholderLinkReplaced | tools/fill_metrics_simple.py:73-74 | With the corrected pattern, the placeholder link becomes the repository URL. |
| FillMetricsSimple.PlaceholderLinkWhole | tools/fill_metrics_simple.py:74 | The corrected pattern matches the whole 42-character placeholder link. |
| FillMetricsSimple.UpdateText | tools/fill_metrics_simple.py:64-74 | (As written.) Each file's text gets the Runtime and then the Accuracy line rewrite; when git gives no repository URL that is all, and when the rewritten text holds no backslash the escaped link pattern cannot match, so that is all too, whatever URL git gave. |
| FillMetricsSimple.UpdateTextIntended | tools/fill_metrics_simple.py:64-74 | (Corrected.) The same two line rewrites; with no repository URL that is all, and a rewritten text with no "h" holds no github link for the corrected pattern, so it is left as the line rewrites made it. |
| FillMetricsSimple.LinkNeedsStart | tools/fill_metrics_simple.py:74 | (Corrected pattern.) A text without the letter that starts "https://github.com/" is left unchanged by the link substitution. |
| FillMetricsSimple.UpdateTextLines | tools/fill_metrics_simple.py:70-72 | Without a repository URL the rewrite keeps the number of lines and applies the runtime, then the accuracy, substitution to each line. |
| FillMetricsSimple.UpdateTextIgnoresRepo | tools/fill_metrics_simple.py:64-74 | As written, for a text without a backslash the link substitution changes nothing whatever git printed: only the Runtime and Accuracy lines are rewritten. |
| FillMetricsSimple.ContainsNeedsFirst | tools/fill_metrics_simple.py:71-72 | A label whose first character is not in the line does not occur in it. |
| FillMetricsSimple.SubToLineEndNoNeedle | tools/fill_metrics_simple.py:71-72 | A text without the label's first character comes out of the substitution unchanged. |
| FillMetricsSimple.RewriteWithoutLabels | tools/fill_metrics_simple.py:71-72 | A text holding neither an 'R' nor an 'A' has no Runtime or Accuracy line, so the two substitutions leave it unchanged. |
| FillMetricsSimple.PlaceholderFileUpdated | tools/fill_metrics_simple.py:64-74 | A file holding the placeholder link is left unchanged by main as written, whatever git printed, and gets the repository URL in its place from the intended rewrite. |
| FillMetricsSimple.SubToLineEndWithout | tools/fill_metrics_simple.py:71-72 | A line substitution brings in no character that neither the text nor the replacement holds. |
| FillBestMetrics.MetricLine | fill_best_metrics.py:5-8 | A line naming the label, "solver" and "baseline" (in any case) becomes the clean metric line; any other line is kept. |
| FillBestMetrics.MetricLines | fill_best_metrics.py:4-9 | One new line per line of the text, each decided on its own. |
| FillBestMetrics.ReplaceMetricLines | fill_best_metrics.py:1-10 | The loop appending to new_lines, then the join with '\n', gives exactly the rewritten text. |
| FillBestMetrics.BulletIsMetricLine | fill_best_metrics.py:6-8 | The clean metric line itself names its label, "solver" and "baseline". |
| FillBestMetrics.MetricLineStable | fill_best_metrics.py:5-8 | Rewriting a line a second time changes nothing. |
| FillBestMetrics.ReplacedLines | fill_best_metrics.py:4-10 | When the values hold no line break and the last line is not empty, the returned text splits back into the rewritten lines. |
| FillBestMetrics.ReplacedIdempotent | fill_best_metrics.py:1-10 | Under the same conditions a second run returns the text unchanged. |
| FillBestMetrics.TrailingBreaksLost | fill_best_metrics.py:4-10 | The final line break is dropped, and an empty last line is lost: "a\n" gives "a", and "a\n\n" gives "a\n", which gives "a" on a second run. |
| PostStep1Validate.GetOrElse | scripts/post_step1_validate.py:10 | A nested dictionary lookup with a default, as read for the cost here and for the runtime on line 31: the first key's value when that key is present (even null), else the second key's value when present, else the default. |
| PostStep1Validate.Numbers | scripts/post_step1_validate.py:16 | sum() succeeds exactly when every allocation is a number (bools count), giving their values in order; otherwise it fails at the first element that is not one. |
| PostStep1Validate.CostIssue | scripts/post_step1_validate.py:20-21 | The cost error is reported exactly when the cost is not a number greater than zero, and it is the one error of this check. |
| PostStep1Validate.Least | scripts/post_step1_validate.py:18 | min() of a non-empty list is one of its elements and no element is smaller. |
| PostStep1Validate.Validate | scripts/post_step1_validate.py:8-35 | The script's outcome on the parsed dictionary is Check's: a crash, the list of errors (exit 1, file untouched) or the rewritten five-key dictionary. |
| PostStep1Validate.CollectIssues | scripts/post_step1_validate.py:11-21 | The error list collected by appending, allocation errors first and the cost error last, is Issues'. |
| PostStep1Validate.CheckAllocations | scripts/post_step1_validate.py:13-19 | The allocation errors collected by appending are AllocationIssues'. |
| PostStep1Validate.MissingAllocationsAlone | scripts/post_step1_validate.py:13-19 | "Missing or empty" is reported exactly when the allocations are not a list or are empty, and then it comes first and neither the sum error nor the sign error is reported. |
| PostStep1Validate.NonNumericCrashes | scripts/post_step1_validate.py:13-16 | The script raises in sum() exactly when the allocations are a non-empty list holding something that is not a number. |
| PostStep1Validate.DistributionChecks | scripts/post_step1_validate.py:15-19 | For a non-empty list of numbers: the values are read in order, "missing" is not reported, the sum error is reported (with the sum) exactly when the sum is more than 1e-6 away from 1, and the sign error exactly when some allocation is negative. |
| PostStep1Validate.ListChecks | scripts/post_step1_validate.py:15-19 | The same sum and sign facts for the allocation checks of a non-empty list, before the cost check is appended. |
| PostStep1Validate.CostCheck | scripts/post_step1_validate.py:20-21 | The cost error is in the list exactly when the cost is not a number greater than zero. |
| PostStep1Validate.RewrittenShape | scripts/post_step1_validate.py:23-35 | The file is rewritten only when no check failed, and then it holds exactly the keys best_cost, allocations, runtime_sec, budget, constraints in that order; the cost is positive, the allocations are the values read (non-empty, non-negative, summing to 1 within 1e-6), and the runtime is float() of runtime, else runtime_sec, else 0. |
| PostStep1Validate.RewrittenFrom | scripts/post_step1_validate.py:23-34 | A rewrite comes from a dictionary with no errors, a positive numeric cost and a runtime float() accepts, and writes the pretty dictionary of those. |
| PostStep1Validate.NoErrorsDistribution | scripts/post_step1_validate.py:13-23 | With no errors the allocations form a non-empty distribution: non-negative values summing to 1 within the tolerance. |
| PostStep1Validate.PrettyHasKeys | scripts/post_step1_validate.py:28-34 | The rewritten dictionary has the five keys in order and its allocations are the values read, element by element. |
| PostStep1Validate.FailedIffErrors | scripts/post_step1_validate.py:23-26 | The script exits with the error list exactly when the dictionary was read and some check failed, and it reports exactly the errors collected. |
| PostStep1Validate.Step1MetricsAlwaysFail | scripts/post_step1_validate.py:9-21 | The metrics the step-1 runner writes have no allocations, so validating them always fails with "missing or empty" first; the cost error joins it exactly when the runner's leftover is not positive. |

## Left out

- File and directory I/O (reading and writing JSON, Markdown and text files, `glob` and its sorted order, `os.makedirs`), argparse, `sys.exit` and the `main` wiring of every script: the model takes the parsed JSON values or the file text as inputs and returns what would be written.
- The PuLP/CBC call in `solve_knapsack_pulp` (src/run_baseline_solver.py:29-36): a foreign solver; its answer (a status, an objective, one value per variable) is a parameter of `BaselineRunner.PostProcess`.
- `random.Random(123)` (src/solvers/solver_new1.py:24,40-41): the Mersenne Twister is not modelled; the index pairs it draws are the `draws` parameter.
- `time.perf_counter`, `datetime.utcnow`, the local-time string, `git rev-parse`/`git config` and `platform.python_version`: nondeterministic or external, they are parameters (`runtime`, `ts`, `timestamp`, `sha`, the repository URL).
- Floating-point arithmetic: sums, ratios, `1e-9`/`1e-6`/`1e-12` tolerances and comparisons are on exact reals, so rounding in accumulated totals is not captured; NaN is modelled as an absent value (`None`).
- `round(..., 2/3/4/6)` and format specifications such as `:.3f` and `str(float)`: numbers written into tables and dictionaries are kept exact, and a formatted cell is a datatype holding the number rather than its text (`MarkdownTable.Fmt`, `MarkdownTable.FmtDelta`, `PortfolioMetrics.SpeedupCell`).
- `float()` of a string is modelled on decimal spellings with sign, point and exponent and surrounding whitespace; `inf`, `nan`, underscores and non-ASCII digits are not parsed (`Common.ParseFloat`).
- Regular expressions are replaced by hand-written matchers for the few patterns used; Unicode `\s` is the full `str.isspace` set, but `\w`, `\b`, `\d` and case folding are ASCII only.
- `re.sub` replacement strings are inserted literally: backslash escapes and group references in them are not interpreted (none of the modelled replacement texts contains one unless a value does).
- `pathlib.Path(path).stem` (src/run_baseline_solver.py:25) is the stem passed in by the caller: the path handling of `Path` is not modelled there.
- The payload dictionary written by `main` of src/run_baseline_solver.py:82-91 and the printing at 96-97: I/O wiring around the modelled post-processing.
- `get_repo_https_url` (tools/fill_metrics.py:165-182) runs git in a subprocess: its URL is a parameter of `FillMetrics.FixPlaceholderLinks`.
- `autodetect_runs` and `load_json` (tools/metrics_from_portfolio.py:7-25): directory listing and file reading.
- `json.dumps(..., indent=2)` layout and the printed messages of scripts/post_step1_validate.py: output formatting; the model returns the dictionary and the exit status.
- The in-place `list.sort` calls are modelled by the order they produce (`StableOrder.Order`), not as an in-place sorting algorithm: the sort is library code, and the model states its stable-sort contract.
- `load_records` and the delta-row builder of build_solver_vs_baseline.py, `load_baseline` and `build_markdown` of src/make_markdown_table.py append to Python lists: the model's loops append to `seq` values, so aliasing of those lists is not captured.
- pipeline/aggregate_results.py, src/aggregator/compile_results.py, src/plots/plot_performance.py, load_and_explore.py, src/benchmarks/run_new_experiments.py, scripts/run_solver.py and config_static.py are not part of this model: pandas, plotting, numpy instance generation, a stub writer and constants.
- SolverVsBaseline.IntIfDigits: treats only ASCII '0'..'9' as digits, while `str.isdigit` is Unicode: Python converts "٣" to 3 and raises ValueError on "²" (isdigit holds but int() fails), where the model keeps both as text; Unicode digit tables are not modelled.
- SolverVsBaseline.LoadRecord: keeps the solver as the JSON value found rather than its `str()` text (build_solver_vs_baseline.py:77); without the hint a truthy number or list under "solver" is kept as that value, because Python's printed form of values is not modelled.
- LocalSearchSolver.Solve: requires at least 6000 draws when there are items (and `LocalSearchSolver.LocalSearch` at least `max_iters`), because the generator that would supply them is a parameter.

## Findings

| source | as written | input that shows it | evidently intended | confidence | as-written member | corrected member |
|---|---|---|---|---|---|---|
| tools/metrics_from_portfolio.py:58 | `guards.get("violations") or guards.get("viol_count") or None` treats a violation count of 0 as missing | `{"guardrails": {"violations": 0, "total": 5}}` gets no guardrail score | a run with no violations scores 100 | not executed | PortfolioMetrics.ZeroViolationsLost | PortfolioMetrics.NoViolationsScoreFull |
| tools/fill_metrics_simple.py:25 | `url.rstrip(".git")` strips any trailing run of `.`, `g`, `i`, `t` | `https://github.com/me/kit.git` becomes `https://github.com/me/k` | drop the literal `.git` suffix only: `https://github.com/me/kit` | not executed | FillMetricsSimple.RepoUrlOfKit | FillMetricsSimple.DropGitSuffixExact |
| tools/fill_metrics_simple.py:74 | the raw string `r"https://github\\.com/\\s*your-username..."` needs a literal backslash before `.com` and before each `s*` | `https://github.com/your-username/your-repo` is never replaced | the placeholder link is replaced by the repository URL | not executed | FillMetricsSimple.PlaceholderLinkKept | FillMetricsSimple.PlaceholderLinkReplaced |
| tools/fill_metrics.py:208-219 | `repl_row` substitutes into the enclosing `text`, not into `t`, so the accuracy pass starts again from the original text and the runtime pass's result is discarded | the row `\| Runtime \| 1 \| 2 \|` is left as it was | the runtime rows get the solver and baseline runtimes, then the accuracy rows get the accuracies | not executed | FillMetrics.RuntimeRowsLost | FillMetrics.ReplaceRowsLines |
